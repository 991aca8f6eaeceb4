/** Two daemons joined by a link that loses nothing between opens.  Either end may close and reopen at
    any time.  What was under way then may be lost, and what is left of it may be taken for anything: a
    receiver can be handed arbitrary stale frames until it has passed the old bytes.  Once both ends are
    open and nothing is in flight, the handshake is complete on both sides and every host PTY is open
    exactly when the exporter's MCU is active. */
module TwoNode {
  import opened Bytes
  import opened LinkFrame
  import opened TxQueue
  import opened Channels
  import opened Session

  /** Two ends and the frames in flight from `a` to `b` and from `b` to `a`, those queued since the last
      opening or closing.  `abOld` and `baOld`: older bytes are still ahead of them. */
  datatype System = System(
    a: Node, aOpen: bool, b: Node, bOpen: bool, ab: seq<Frame>, ba: seq<Frame>, abOld: bool, baOld: bool)

  function Swap(s: System): System {
    System(s.b, s.bOpen, s.a, s.aOpen, s.ba, s.ab, s.baOld, s.abOld)
  }

  /** What the `a` end can do. */
  datatype Act =
    | Open
    | Close
    | Deliver(io: Io)            // handle the next frame from the peer
    | Stale(f: Frame, io: Io)    // handle any frame, made up of old bytes
    | Settle                     // the old bytes have been passed
    | Happen(id: byte, e: ChannelEvent)
    | TickOf(id: byte, now: int, io: Io)
    | Keepalive
    | Pause(b: bool)             // pause or resume every channel

  function Handled(s: System, f: Frame, io: Io): System {
    var r := Receive(s.a, f, io);
    s.(a := r.node, ab := s.ab + r.frames)
  }

  function Act1(s: System, act: Act): System {
    match act
    case Open => if s.aOpen then s else s.(aOpen := true, ab := [HELLO], ba := [], abOld := true, baOld := true)
    case Close =>
      if !s.aOpen then s
      else s.(aOpen := false, a := Disconnect(s.a), ab := [], ba := [], abOld := true, baOld := true)
    case Deliver(io) => if !s.aOpen || s.baOld || s.ba == [] then s else Handled(s.(ba := s.ba[1..]), s.ba[0], io)
    case Stale(f, io) => if !s.aOpen || !s.baOld then s else Handled(s, f, io)
    case Settle => s.(baOld := false)
    case Happen(id, e) =>
      var r := Happens(s.a, id, e);
      s.(a := r.node, ab := s.ab + r.frames)
    case TickOf(id, now, io) =>
      var r := TickOne(s.a, id, now, io);
      s.(a := r.node, ab := s.ab + r.frames)
    case Keepalive =>
      if s.aOpen && s.a.up then s.(ab := s.ab + [PING]) else s
    case Pause(b) => s.(a := Paused(s.a, b))
  }

  datatype Move = Left(act: Act) | Right(act: Act)

  function Step(s: System, m: Move): System {
    match m
    case Left(act) => Act1(s, act)
    case Right(act) => Swap(Act1(Swap(s), act))
  }

  function Exec(s: System, moves: seq<Move>): System
    decreases |moves|
  {
    if moves == [] then s else Exec(Step(s, moves[0]), moves[1..])
  }

  lemma {:induction false} ExecAppend(s: System, p: seq<Move>, q: seq<Move>)
    ensures Exec(s, p + q) == Exec(Exec(s, p), q)
    decreases |p|
  {
    hide Step;
    if p == [] {
      assert p + q == q;
    } else {
      assert (p + q)[1..] == p[1..] + q;
      ExecAppend(Step(s, p[0]), p[1..], q);
    }
  }

  /** The same moves with the ends exchanged. */
  function Mirror(moves: seq<Move>): seq<Move> {
    seq(|moves|, i requires 0 <= i < |moves| => if moves[i].Left? then Right(moves[i].act) else Left(moves[i].act))
  }

  lemma {:induction false} MirrorExec(s: System, moves: seq<Move>)
    ensures Exec(Swap(s), Mirror(moves)) == Swap(Exec(s, moves))
    decreases |moves|
  {
    hide Act1;
    if moves != [] {
      assert Mirror(moves)[1..] == Mirror(moves[1..]);
      assert Swap(Swap(s)) == s;
      MirrorExec(Step(s, moves[0]), moves[1..]);
    }
  }

  /** Opening a PTY succeeds, and no PTY reports that its last reader has gone. */
  predicate Benign(act: Act) {
    match act
    case Deliver(io) => io.ok
    case Stale(_, io) => io.ok
    case Happen(_, e) => e.Primary? ==> e.read != ReadFailed(true)
    case _ => true
  }

  // ---------------------------------------------------------------- what the host will see

  /** The host's handshake flag and whether its PTY for one channel is open. */
  datatype View = View(up: bool, open: bool)

  function Sees(v: View, f: Frame, c: byte): View {
    if f.ftype == F_HELLO || (f.ftype == F_ACK && !v.up) then View(true, false)
    else if f.channel == c && f.ftype == F_READY then v.(open := true)
    else if f.channel == c && f.ftype == F_FLUSH then v.(open := false)
    else v
  }

  /** The view once everything in flight has been handled. */
  function Will(v: View, q: seq<Frame>, c: byte): View
    decreases |q|
  {
    if q == [] then v else Will(Sees(v, q[0], c), q[1..], c)
  }

  function ViewOf(n: Node, c: byte): View
    requires c in n.chans && n.chans[c].PtyCh?
  {
    View(n.up, n.chans[c].pty.open)
  }

  predicate HasType(q: seq<Frame>, t: byte) {
    exists i :: 0 <= i < |q| && q[i].ftype == t
  }

  ghost predicate NodeInv(n: Node, open: bool) {
    && Ordered(n)
    && (forall id :: id in n.chans ==> InStep(n.chans[id], n.up))
    && (!open ==> !n.up && forall id :: id in n.chans ==> Idle(n.chans[id]))
  }

  /** The `a` end will complete its handshake. */
  ghost predicate WillComeUp(s: System) {
    s.aOpen && s.bOpen && !s.a.up ==> HasType(s.ab, F_HELLO) || HasType(s.ba, F_ACK) || HasType(s.ba, F_HELLO)
  }

  /** From view `v` of the host on, the frames in flight will leave its PTY for `c` open exactly when the
      MCU is active. */
  ghost predicate Told(s: System, c: byte, v: View)
    requires c in s.a.chans && s.a.chans[c].McuCh?
  {
    Will(v, s.ab, c).open == (s.a.chans[c].mcu.state == Active)
  }

  /** With no HELLO on its way to the exporter `a`, the frames in flight will leave the PTY of `b` right;
      from any view of `b`, while stale frames can still change it.  (A HELLO in flight makes the exporter
      send its state again.) */
  ghost predicate WillAgree(s: System, c: byte) {
    s.aOpen && s.bOpen && s.a.up && !HasType(s.ba, F_HELLO) && IsPair(s, c)
    ==> forall v :: v == ViewOf(s.b, c) || s.abOld ==> Told(s, c, v)
  }

  predicate IsPair(s: System, c: byte) {
    c in s.a.chans && s.a.chans[c].McuCh? && c in s.b.chans && s.b.chans[c].PtyCh?
  }

  ghost predicate Half(s: System) {
    NodeInv(s.a, s.aOpen) && WillComeUp(s) && forall c :: WillAgree(s, c)
  }

  ghost predicate Inv(s: System) {
    Half(s) && Half(Swap(s))
  }

  // ---------------------------------------------------------------- folding frames

  lemma {:induction false} WillAppend(v: View, p: seq<Frame>, q: seq<Frame>, c: byte)
    ensures Will(v, p + q, c) == Will(Will(v, p, c), q, c)
    decreases |p|
  {
    if p == [] {
      assert p + q == q;
    } else {
      assert (p + q)[1..] == p[1..] + q;
      WillAppend(Sees(v, p[0], c), p[1..], q, c);
    }
  }

  /** Frames that say nothing about channel `c` or the handshake. */
  predicate Neutral(fs: seq<Frame>, c: byte) {
    forall i :: 0 <= i < |fs| ==>
      !(fs[i].ftype == F_HELLO || fs[i].ftype == F_ACK) &&
      (fs[i].channel == c ==> fs[i].ftype != F_READY && fs[i].ftype != F_FLUSH)
  }

  lemma {:induction false} WillNeutral(v: View, fs: seq<Frame>, c: byte)
    requires Neutral(fs, c)
    ensures Will(v, fs, c) == v
    decreases |fs|
  {
    if fs != [] {
      assert Sees(v, fs[0], c) == v;
      WillNeutral(v, fs[1..], c);
    }
  }

  /** Status frames of all channels, one of them for `c`: the last word on `c` is that one. */
  lemma {:induction false} WillStatus(v: View, fs: seq<Frame>, c: byte, st: McuState)
    requires forall f :: f in fs ==> f.ftype == F_READY || f.ftype == F_FLUSH
    requires OfChannel(fs, c) == [McuStatus(c, st)]
    ensures Will(v, fs, c).open == (st == Active)
    decreases |fs|
  {
    if fs[0].channel == c {
      assert OfChannel(fs, c) == [fs[0]] + OfChannel(fs[1..], c);
      assert OfChannel(fs, c)[0] == fs[0] == McuStatus(c, st);
      assert OfChannel(fs[1..], c) == [];
      OtherChannels(fs[1..], c);
      WillNeutral(Sees(v, fs[0], c), fs[1..], c);
    } else {
      assert OfChannel(fs, c) == OfChannel(fs[1..], c);
      WillStatus(Sees(v, fs[0], c), fs[1..], c, st);
    }
  }

  lemma {:induction false} OtherChannels(fs: seq<Frame>, c: byte)
    requires forall f :: f in fs ==> f.ftype == F_READY || f.ftype == F_FLUSH
    requires OfChannel(fs, c) == []
    ensures Neutral(fs, c)
    decreases |fs|
  {
    if fs != [] {
      OtherChannels(fs[1..], c);
      assert fs[0] in fs;
      forall i | 0 <= i < |fs| ensures fs[i].channel != c && fs[i] in fs {
        if i > 0 {
          assert fs[1..][i - 1] == fs[i];
        }
      }
    }
  }

  // ---------------------------------------------------------------- frames that channels send

  predicate From(fs: seq<Frame>, id: byte) {
    forall i :: 0 <= i < |fs| ==> fs[i].channel == id && !IsControl(fs[i].ftype)
  }

  lemma FromAppend(x: seq<Frame>, y: seq<Frame>, id: byte)
    requires From(x, id) && From(y, id)
    ensures From(x + y, id)
  {
  }

  lemma {:induction false} ChunksFrom(id: byte, slot: nat, data: seq<byte>)
    requires slot < MAX_TCP_CONNS
    ensures From(ChunkFrames(id, slot, data), id)
    ensures forall i :: 0 <= i < |ChunkFrames(id, slot, data)| ==> ChunkFrames(id, slot, data)[i].ftype == F_TDATA
    decreases |data|
  {
    if data != [] {
      ChunksFrom(id, slot, data[Min(MAX_PAYLOAD - 2, |data|)..]);
    }
  }

  lemma {:induction false} ReadConnFrom(id: byte, slot: nat, inputs: seq<Read>)
    requires slot < MAX_TCP_CONNS
    ensures From(ReadConn(id, slot, inputs).0, id)
    decreases |inputs|
  {
    if inputs != [] && inputs[0].Data? && inputs[0].bytes != [] {
      ReadConnFrom(id, slot, inputs[1..]);
      ChunksFrom(id, slot, inputs[0].bytes);
      FromAppend(ChunkFrames(id, slot, inputs[0].bytes), ReadConn(id, slot, inputs[1..]).0, id);
    }
  }

  lemma ReadSlotFrom(conns: map<nat, Conn>, notify: bool, id: byte, slot: nat, inputs: seq<Read>)
    requires slot < MAX_TCP_CONNS
    ensures From(ReadSlot(conns, notify, id, slot, inputs).frames, id)
  {
    ReadConnFrom(id, slot, inputs);
  }

  lemma WriteSlotFrom(conns: map<nat, Conn>, notify: bool, id: byte, slot: nat, w: Write)
    requires slot in conns && slot < MAX_TCP_CONNS
    ensures From(WriteSlot(conns, notify, id, slot, w).frames, id)
  {
  }

  lemma SourceFrom(conns: map<nat, Conn>, notify: bool, id: byte, e: ChannelEvent)
    requires e.Slot?
    ensures From(SourceSlotEvent(conns, notify, id, e).frames, id)
  {
    hide ReadSlot, WriteSlot;
    if e.slot in conns && e.slot < MAX_TCP_CONNS {
      ReadSlotFrom(conns, notify, id, e.slot, e.inputs);
      var r := if e.readable && !conns[e.slot].closePending then ReadSlot(conns, notify, id, e.slot, e.inputs)
               else Quiet(conns);
      if e.slot in r.ch {
        WriteSlotFrom(r.ch, notify, id, e.slot, e.write);
      }
    }
  }

  lemma DestFrom(conns: map<nat, Conn>, id: byte, e: ChannelEvent)
    requires e.Slot?
    ensures From(DestSlotEvent(conns, id, e).frames, id)
  {
    hide ReadSlot, WriteSlot;
    if e.slot in conns && e.slot < MAX_TCP_CONNS {
      var c := conns[e.slot];
      var joined := if e.writable then conns[e.slot := c.(connecting := false)] else conns;
      WriteSlotFrom(joined, true, id, e.slot, e.write);
      var w := if e.writable then WriteSlot(joined, true, id, e.slot, e.write) else Quiet(joined);
      ReadSlotFrom(w.ch, true, id, e.slot, e.inputs);
    }
  }

  /** A channel only sends frames of its own, and never handshake frames. */
  lemma EventFrom(ch: Channel, id: byte, e: ChannelEvent)
    ensures From(HandleEvent(ch, id, e).frames, id)
  {
    hide SourceSlotEvent, DestSlotEvent, Accept;
    if ch.SourceCh? && e.Listener? {
      AcceptKeeps(ch.src, id, e.registered);
    } else if ch.SourceCh? && e.Slot? {
      SourceFrom(ch.src.conns, ch.src.linkUp, id, e);
    } else if ch.DestCh? && e.Slot? {
      DestFrom(ch.dst.conns, id, e);
    }
  }

  lemma FromIsNeutral(fs: seq<Frame>, id: byte, c: byte)
    requires From(fs, id) && id != c
    ensures Neutral(fs, c)
  {
  }

  /** What an MCU channel sends while the link is up tells the host its new state. */
  lemma McuTells(m: Mcu, c: byte, e: ChannelEvent, v: View)
    requires m.linkUp && v.open == (m.state == Active)
    ensures var o := McuEvent(m, c, e); Will(v, o.frames, c).open == (o.ch.state == Active)
  {
    if e.Primary? && e.readable {
      UartTells(m, c, e.read, e.now, v);
    }
  }

  lemma UartTells(m: Mcu, c: byte, read: Read, now: int, v: View)
    requires m.linkUp && v.open == (m.state == Active)
    ensures var o := UartRead(m, c, read, now); Will(v, o.frames, c).open == (o.ch.state == Active)
  {
    var fs := UartRead(m, c, read, now).frames;
    if |fs| == 2 {
      assert fs == [fs[0]] + [fs[1]];
      WillAppend(v, [fs[0]], [fs[1]], c);
    } else if |fs| == 1 {
      assert Will(v, fs, c) == Sees(v, fs[0], c);
    }
  }

  lemma TickTells(m: Mcu, c: byte, now: int, io: Io, v: View)
    requires m.linkUp && v.open == (m.state == Active)
    ensures var o := McuTick(m, c, now, io); Will(v, o.frames, c).open == (o.ch.state == Active)
  {
    var fs := McuTick(m, c, now, io).frames;
    if |fs| == 1 {
      assert Will(v, fs, c) == Sees(v, fs[0], c);
    }
  }

  // ---------------------------------------------------------------- receiving a frame

  /** The host's view moves as `Sees` says, whatever else the frame does. */
  lemma ReceiveSees(n: Node, f: Frame, io: Io, c: byte)
    requires Ordered(n) && c in n.chans && n.chans[c].PtyCh? && io.ok
    ensures var m := Receive(n, f, io).node;
            c in m.chans && m.chans[c].PtyCh? && ViewOf(m, c) == Sees(ViewOf(n, c), f, c)
  {
    hide Broadcast, SlotOnFrame, DestOnFrame, McuOnFrame;
    if f.ftype == F_HELLO || f.ftype == F_ACK {
      BroadcastConnects(n.chans, n.order, c);
      assert c in n.order;
    }
  }

  /** Handling a frame announces the MCU's state if the frame completes or repeats the handshake, and
      otherwise says nothing about it; the MCU's state itself does not move. */
  lemma ReceiveTells(n: Node, f: Frame, io: Io, c: byte, v: View)
    requires Ordered(n) && c in n.chans && n.chans[c].McuCh?
    ensures var r := Receive(n, f, io);
            && c in r.node.chans && r.node.chans[c].McuCh? && r.node.chans[c].mcu.state == n.chans[c].mcu.state
            && (if f.ftype == F_HELLO || (f.ftype == F_ACK && !n.up)
                then Will(v, r.frames, c).open == (n.chans[c].mcu.state == Active)
                else Will(v, r.frames, c) == v)
  {
    hide LinkUp, OnFrame;
    if f.ftype == F_HELLO {
      WillAppend(v, [ACK], LinkUp(n).frames, c);
      LinkUpTells(n, c, Will(v, [ACK], c));
    } else if f.ftype == F_ACK && !n.up {
      LinkUpTells(n, c, v);
    } else {
      ReplyNeutral(n, f, io, c);
      WillNeutral(v, Receive(n, f, io).frames, c);
      FrameLeavesState(n.chans[c], c, f, io);
    }
  }

  /** The announcement tells the host the MCU's state. */
  lemma LinkUpTells(n: Node, c: byte, v: View)
    requires Ordered(n) && c in n.chans && n.chans[c].McuCh?
    ensures var r := LinkUp(n);
            && c in r.node.chans && r.node.chans[c].McuCh? && r.node.chans[c].mcu.state == n.chans[c].mcu.state
            && Will(v, r.frames, c).open == (n.chans[c].mcu.state == Active)
  {
    hide Broadcast, Will;
    BroadcastConnects(n.chans, n.order, c);
    WillStatus(v, Broadcast(n.chans, n.order).frames, c, n.chans[c].mcu.state);
  }

  lemma FrameLeavesState(ch: Channel, id: byte, f: Frame, io: Io)
    requires ch.McuCh?
    ensures OnFrame(ch, id, f, io).ch.McuCh? && OnFrame(ch, id, f, io).ch.mcu.state == ch.mcu.state
  {
  }

  lemma ReplyNeutral(n: Node, f: Frame, io: Io, c: byte)
    requires f.ftype != F_HELLO && (f.ftype == F_ACK ==> n.up)
    ensures Neutral(Receive(n, f, io).frames, c)
  {
  }

  lemma ReceiveKeepsNode(n: Node, f: Frame, io: Io)
    requires NodeInv(n, true)
    ensures var m := Receive(n, f, io).node;
            && NodeInv(m, true) && m.chans.Keys == n.chans.Keys
            && m.up == (n.up || f.ftype == F_HELLO || f.ftype == F_ACK)
            && forall id :: id in n.chans ==> SameKind(n.chans[id], m.chans[id])
  {
    hide OnFrame, LinkUp;
    if f.ftype == F_HELLO || f.ftype == F_ACK {
      LinkUpKeepsNode(n);
    } else if f.channel in n.chans && !IsControl(f.ftype) {
      FrameKeeps(n.chans[f.channel], f.channel, f, io, n.up);
    }
  }

  lemma LinkUpKeepsNode(n: Node)
    requires NodeInv(n, true)
    ensures var m := LinkUp(n).node;
            && NodeInv(m, true) && m.chans.Keys == n.chans.Keys && m.up
            && forall id :: id in n.chans ==> SameKind(n.chans[id], m.chans[id])
  {
    hide Broadcast;
    var m := LinkUp(n).node;
    forall id | id in n.chans
      ensures m.chans.Keys == n.chans.Keys
      ensures InStep(m.chans[id], true) && SameKind(n.chans[id], m.chans[id])
    {
      BroadcastConnects(n.chans, n.order, id);
    }
    if n.order == [] {
      BroadcastNobody(n.chans);
    } else {
      assert n.order[0] in n.chans;
    }
  }

  lemma BroadcastNobody(chans: map<byte, Channel>)
    ensures Broadcast(chans, []) == MapOut(chans, [])
  {
  }

  // ---------------------------------------------------------------- every act keeps the invariant

  lemma HasTypeAppend(p: seq<Frame>, q: seq<Frame>, t: byte)
    ensures HasType(p + q, t) <==> HasType(p, t) || HasType(q, t)
  {
    if HasType(p, t) {
      var i :| 0 <= i < |p| && p[i].ftype == t;
      assert (p + q)[i].ftype == t;
    }
    if HasType(q, t) {
      var i :| 0 <= i < |q| && q[i].ftype == t;
      assert (p + q)[|p| + i].ftype == t;
    }
  }

  lemma HasTypeTail(q: seq<Frame>, t: byte)
    requires q != []
    ensures HasType(q, t) <==> q[0].ftype == t || HasType(q[1..], t)
  {
    assert q == [q[0]] + q[1..];
    HasTypeAppend([q[0]], q[1..], t);
    assert HasType([q[0]], t) <==> q[0].ftype == t;
  }

  /** Handling any frame, an exporter that is up afterwards has told the host its state. */
  lemma HandledTells(s: System, f: Frame, io: Io, c: byte, v: View)
    requires Ordered(s.a) && c in s.a.chans && s.a.chans[c].McuCh?
    requires s.a.up && f.ftype != F_HELLO ==> Told(s, c, v)
    ensures var t := Handled(s, f, io);
            c in t.a.chans && t.a.chans[c].McuCh? && (t.a.up ==> Told(t, c, v))
  {
    hide Receive, Will;
    var r := Receive(s.a, f, io);
    WillAppend(v, s.ab, r.frames, c);
    ReceiveTells(s.a, f, io, c, Will(v, s.ab, c));
    ReceiveUps(s.a, f, io);
  }

  lemma ReceiveUps(n: Node, f: Frame, io: Io)
    ensures Receive(n, f, io).node.up == (n.up || f.ftype == F_HELLO || f.ftype == F_ACK)
  {
  }

  /** The exporter's half when the exporter handles a frame, the next one in flight or a stale one. */
  lemma HandledByExporter(s: System, f: Frame, io: Io, rest: seq<Frame>)
    requires Inv(s) && s.aOpen && io.ok && ((s.ba != [] && f == s.ba[0] && rest == s.ba[1..]) || rest == s.ba)
    ensures Half(Handled(s.(ba := rest), f, io))
  {
    hide Receive, Will, HasType, Told;
    var t, r := Handled(s.(ba := rest), f, io), Receive(s.a, f, io);
    ReceiveKeepsNode(s.a, f, io);
    if rest != s.ba {
      HasTypeTail(s.ba, F_HELLO);
      HasTypeTail(s.ba, F_ACK);
    }
    HasTypeAppend(s.ab, r.frames, F_HELLO);
    forall c ensures WillAgree(t, c) {
      if t.a.up && IsPair(s, c) && s.bOpen && !HasType(rest, F_HELLO) {
        assert WillAgree(s, c);
        ToldAlike(s, s.(ba := rest), c);
        forall v | v == ViewOf(s.b, c) || s.abOld ensures Told(t, c, v) {
          HandledTells(s.(ba := rest), f, io, c, v);
        }
      }
    }
  }

  lemma ToldAlike(s: System, t: System, c: byte)
    requires c in s.a.chans && s.a.chans[c].McuCh? && t.ab == s.ab && t.a == s.a
    ensures forall v :: Told(t, c, v) <==> Told(s, c, v)
  {
  }

  /** The peer's half when this end handles a frame: here this end is the host. */
  lemma HandledByHost(s: System, f: Frame, io: Io, rest: seq<Frame>)
    requires Inv(s) && s.aOpen && io.ok
    requires (!s.baOld && s.ba != [] && f == s.ba[0] && rest == s.ba[1..]) || (s.baOld && rest == s.ba)
    ensures Half(Swap(Handled(s.(ba := rest), f, io)))
  {
    hide Receive, Will, HasType;
    var t, p := Swap(Handled(s.(ba := rest), f, io)), Swap(s);
    var r := Receive(s.a, f, io);
    ReceiveKeepsNode(s.a, f, io);
    if rest != s.ba {
      HasTypeTail(s.ba, F_HELLO);
    }
    HasTypeAppend(s.ab, r.frames, F_HELLO);
    HasTypeAppend(s.ab, r.frames, F_ACK);
    if f.ftype == F_HELLO {
      HelloAcked(s.a, f, io);
    }
    forall c ensures WillAgree(t, c) {
      if IsPair(p, c) {
        ReceiveSees(s.a, f, io, c);
        assert WillAgree(p, c);
        if rest == s.ba {
          ToldAlike(p, t, c);
        } else {
          WillCons(ViewOf(s.a, c), s.ba, c);
          if s.bOpen && s.b.up && !HasType(s.ab, F_HELLO) {
            assert Told(p, c, ViewOf(s.a, c));
          }
        }
      }
    }
  }

  lemma HelloAcked(n: Node, f: Frame, io: Io)
    requires f.ftype == F_HELLO
    ensures HasType(Receive(n, f, io).frames, F_ACK)
  {
    assert Receive(n, f, io).frames[0].ftype == F_ACK;
  }

  lemma WillCons(v: View, q: seq<Frame>, c: byte)
    requires q != []
    ensures Will(v, q, c) == Will(Sees(v, q[0], c), q[1..], c)
  {
  }

  /** A channel of the `a` end may move by itself from `ch` to `o.ch`, sending `o.frames`. */
  ghost predicate OwnMove(ch: Channel, o: Out<Channel>, id: byte, up: bool) {
    && EventLaw(ch, o, up) && From(o.frames, id)
    && (ch.PtyCh? ==> o.ch.pty.open == ch.pty.open)
    && forall v: View :: ch.McuCh? && up && v.open == (ch.mcu.state == Active)
         ==> Will(v, o.frames, id).open == (o.ch.mcu.state == Active)
  }

  lemma ChannelMoves(s: System, id: byte, o: Out<Channel>)
    requires Inv(s) && id in s.a.chans && OwnMove(s.a.chans[id], o, id, s.a.up)
    ensures Inv(s.(a := s.a.(chans := s.a.chans[id := o.ch]), ab := s.ab + o.frames))
  {
    hide Will, HasType, From;
    var t := s.(a := s.a.(chans := s.a.chans[id := o.ch]), ab := s.ab + o.frames);
    HasTypeAppend(s.ab, o.frames, F_HELLO);
    HasTypeAppend(s.ab, o.frames, F_ACK);
    forall c ensures WillAgree(t, c) && WillAgree(Swap(t), c) {
      assert WillAgree(s, c) && WillAgree(Swap(s), c);
      if IsPair(Swap(s), c) {
        ToldAlike(Swap(s), Swap(t), c);
      }
      if IsPair(s, c) && s.a.up {
        forall v | Told(s, c, v) ensures Told(t, c, v) {
          PairMoves(s, id, o, c, v);
        }
      }
    }
  }

  lemma PairMoves(s: System, id: byte, o: Out<Channel>, c: byte, v: View)
    requires id in s.a.chans && OwnMove(s.a.chans[id], o, id, s.a.up) && IsPair(s, c) && s.a.up && Told(s, c, v)
    ensures Told(s.(a := s.a.(chans := s.a.chans[id := o.ch]), ab := s.ab + o.frames), c, v)
  {
    hide Will, HasType, From;
    var w := Will(v, s.ab, c);
    WillAppend(v, s.ab, o.frames, c);
    if c != id {
      FromIsNeutral(o.frames, id, c);
      WillNeutral(w, o.frames, c);
    }
  }

  lemma HappenKeeps(s: System, id: byte, e: ChannelEvent)
    requires Inv(s) && Benign(Happen(id, e))
    ensures Inv(Act1(s, Happen(id, e)))
  {
    hide McuEvent, PtyEvent, SourceEvent, DestSlotEvent, Will;
    if id in s.a.chans {
      var ch := s.a.chans[id];
      var o := HandleEvent(ch, id, e);
      EventKeeps(ch, id, e, s.a.up);
      EventFrom(ch, id, e);
      PtyStaysOpen(ch, id, e);
      forall v: View | ch.McuCh? && s.a.up && v.open == (ch.mcu.state == Active)
        ensures Will(v, o.frames, id).open == (o.ch.mcu.state == Active)
      {
        McuTells(ch.mcu, id, e, v);
      }
      ChannelMoves(s, id, o);
    } else {
      assert s.ab + [] == s.ab;
      assert Act1(s, Happen(id, e)) == s;
    }
  }

  lemma PtyStaysOpen(ch: Channel, id: byte, e: ChannelEvent)
    requires e.Primary? ==> e.read != ReadFailed(true)
    ensures ch.PtyCh? ==> HandleEvent(ch, id, e).ch.PtyCh? && HandleEvent(ch, id, e).ch.pty.open == ch.pty.open
  {
  }

  lemma TickOfKeeps(s: System, id: byte, now: int, io: Io)
    requires Inv(s)
    ensures Inv(Act1(s, TickOf(id, now, io)))
  {
    hide Will;
    if id in s.a.chans {
      var ch := s.a.chans[id];
      var o := Tick(ch, id, now, io);
      TickKeeps(ch, id, now, io, s.a.up);
      forall v: View | ch.McuCh? && s.a.up && v.open == (ch.mcu.state == Active)
        ensures Will(v, o.frames, id).open == (o.ch.mcu.state == Active)
      {
        TickTells(ch.mcu, id, now, io, v);
      }
      ChannelMoves(s, id, o);
    } else {
      assert s.ab + [] == s.ab;
      assert Act1(s, TickOf(id, now, io)) == s;
    }
  }

  lemma OpenKeeps(s: System)
    requires Inv(s)
    ensures Inv(Act1(s, Open))
  {
    hide Will;
    if !s.aOpen {
      var t := Act1(s, Open);
      assert t.ab[0].ftype == F_HELLO;
      assert HasType(t.ab, F_HELLO);
      assert forall c :: WillAgree(t, c) && WillAgree(Swap(t), c);
    }
  }

  lemma CloseKeeps(s: System)
    requires Inv(s)
    ensures Inv(Act1(s, Close))
  {
    hide Will, HasType;
    var t := Act1(s, Close);
    assert s.aOpen ==> forall c :: WillAgree(t, c) && WillAgree(Swap(t), c);
  }

  lemma KeepaliveKeeps(s: System)
    requires Inv(s)
    ensures Inv(Act1(s, Keepalive))
  {
    hide Will, HasType;
    var t := Act1(s, Keepalive);
    if t != s {
      HasTypeAppend(s.ab, [PING], F_HELLO);
      HasTypeAppend(s.ab, [PING], F_ACK);
      forall c ensures WillAgree(t, c) && WillAgree(Swap(t), c) {
        assert WillAgree(s, c) && WillAgree(Swap(s), c);
        if IsPair(Swap(s), c) {
          ToldAlike(Swap(s), Swap(t), c);
        }
        if IsPair(s, c) {
          forall v | Told(s, c, v) ensures Told(t, c, v) {
            WillAppend(v, s.ab, [PING], c);
            WillNeutral(Will(v, s.ab, c), [PING], c);
          }
        }
      }
    }
  }

  lemma SettleKeeps(s: System)
    requires Inv(s)
    ensures Inv(Act1(s, Settle))
  {
    hide Will, HasType, Told;
    var t := Act1(s, Settle);
    forall c ensures WillAgree(t, c) && WillAgree(Swap(t), c) {
      assert WillAgree(s, c) && WillAgree(Swap(s), c);
      SettleTells(s, c);
    }
  }

  lemma SettleTells(s: System, c: byte)
    ensures IsPair(s, c) ==> forall v :: Told(Act1(s, Settle), c, v) <==> Told(s, c, v)
    ensures IsPair(Swap(s), c) ==> forall v :: Told(Swap(Act1(s, Settle)), c, v) <==> Told(Swap(s), c, v)
  {
  }

  lemma PausedNode(n: Node, b: bool, open: bool)
    requires NodeInv(n, open)
    ensures NodeInv(Paused(n, b), open) && Paused(n, b).up == n.up
  {
  }

  lemma PausedTells(s: System, b: bool, c: byte)
    ensures WillAgree(s, c) ==> WillAgree(s.(a := Paused(s.a, b)), c)
    ensures WillAgree(Swap(s), c) ==> WillAgree(Swap(s.(a := Paused(s.a, b))), c)
  {
    hide Will, HasType;
    var t := s.(a := Paused(s.a, b));
    if IsPair(s, c) {
      assert forall v :: Told(t, c, v) <==> Told(s, c, v);
    }
    if IsPair(Swap(s), c) {
      ToldAlike(Swap(s), Swap(t), c);
    }
  }

  lemma PauseKeeps(s: System, b: bool)
    requires Inv(s)
    ensures Inv(s.(a := Paused(s.a, b)))
  {
    hide WillAgree, HasType, Paused, NodeInv;
    var t := s.(a := Paused(s.a, b));
    PausedNode(s.a, b, s.aOpen);
    forall c ensures WillAgree(t, c) && WillAgree(Swap(t), c) {
      PausedTells(s, b, c);
    }
  }

  lemma ActKeeps(s: System, act: Act)
    requires Inv(s) && Benign(act)
    ensures Inv(Act1(s, act))
  {
    match act
    case Open => OpenKeeps(s);
    case Close => CloseKeeps(s);
    case Deliver(io) =>
      if s.aOpen && !s.baOld && s.ba != [] {
        HandledByExporter(s, s.ba[0], io, s.ba[1..]);
        HandledByHost(s, s.ba[0], io, s.ba[1..]);
      }
    case Stale(f, io) =>
      if s.aOpen && s.baOld {
        HandledByExporter(s, f, io, s.ba);
        HandledByHost(s, f, io, s.ba);
        assert s.(ba := s.ba) == s;
      }
    case Settle => SettleKeeps(s);
    case Happen(id, e) => HappenKeeps(s, id, e);
    case TickOf(id, now, io) => TickOfKeeps(s, id, now, io);
    case Keepalive => KeepaliveKeeps(s);
    case Pause(b) => PauseKeeps(s, b);
  }

  lemma {:induction false} ExecKeeps(s: System, moves: seq<Move>)
    requires Inv(s) && forall i :: 0 <= i < |moves| ==> Benign(moves[i].act)
    ensures Inv(Exec(s, moves))
    decreases |moves|
  {
    hide Inv, Act1, Benign;
    if moves != [] {
      SwapInv(s);
      ActKeeps(if moves[0].Left? then s else Swap(s), moves[0].act);
      SwapInv(Act1(Swap(s), moves[0].act));
      ExecKeeps(Step(s, moves[0]), moves[1..]);
    }
  }

  lemma SwapInv(s: System)
    ensures Inv(Swap(s)) <==> Inv(s)
  {
    assert Swap(Swap(s)) == s;
  }

  /** Both ends closed, nothing in flight, channels as after construction or a disconnect. */
  ghost predicate Initial(s: System) {
    NodeInv(s.a, false) && NodeInv(s.b, false) && !s.aOpen && !s.bOpen && s.ab == [] && s.ba == []
  }

  /** Both handshakes are complete and every PTY mirrors its MCU. */
  ghost predicate Agreed(s: System) {
    && s.a.up && s.b.up
    && (forall c :: IsPair(s, c) ==> (s.b.chans[c].pty.open <==> s.a.chans[c].mcu.state == Active))
    && (forall c :: IsPair(Swap(s), c) ==> (s.a.chans[c].pty.open <==> s.b.chans[c].mcu.state == Active))
  }

  lemma Quiescent(s: System)
    requires Half(s) && s.aOpen && s.bOpen && s.ab == [] && s.ba == []
    ensures s.a.up
    ensures forall c :: IsPair(s, c) ==> (s.b.chans[c].pty.open <==> s.a.chans[c].mcu.state == Active)
  {
    assert !HasType(s.ba, F_HELLO) && !HasType(s.ab, F_HELLO) && !HasType(s.ba, F_ACK);
    forall c | IsPair(s, c) ensures s.b.chans[c].pty.open <==> s.a.chans[c].mcu.state == Active {
      assert WillAgree(s, c);
      assert Told(s, c, ViewOf(s.b, c));
    }
  }

  /** Agreement: in every run, whenever both links are open and both directions are empty, both sides
      have finished the handshake and each PTY is open exactly when its MCU is active. */
  lemma Agreement(s: System, moves: seq<Move>)
    requires Initial(s) && forall i :: 0 <= i < |moves| ==> Benign(moves[i].act)
    ensures var t := Exec(s, moves);
            Inv(t) && (t.aOpen && t.bOpen && t.ab == [] && t.ba == [] ==> Agreed(t))
  {
    hide Exec, Will;
    assert Inv(s) by {
      assert forall c :: WillAgree(s, c) && WillAgree(Swap(s), c);
    }
    ExecKeeps(s, moves);
    var t := Exec(s, moves);
    if t.aOpen && t.bOpen && t.ab == [] && t.ba == [] {
      InvAgrees(t);
    }
  }

  // ---------------------------------------------------------------- convergence

  /** An upper bound on the deliveries a frame can still cause, `n` bounding the number of channels. */
  function Cost(f: Frame, n: nat): nat {
    if f.ftype == F_HELLO then 2 * n + 2
    else if f.ftype == F_ACK then n + 1
    else if f.ftype == F_PING || f.ftype == F_TCONN || f.ftype == F_TDATA then 2
    else 1
  }

  function Weight(q: seq<Frame>, n: nat): nat {
    if q == [] then 0 else Cost(q[0], n) + Weight(q[1..], n)
  }

  lemma {:induction false} WeightAppend(p: seq<Frame>, q: seq<Frame>, n: nat)
    ensures Weight(p + q, n) == Weight(p, n) + Weight(q, n)
    decreases |p|
  {
    if p == [] {
      assert p + q == q;
    } else {
      assert (p + q)[1..] == p[1..] + q;
      WeightAppend(p[1..], q, n);
    }
  }

  lemma {:induction false} BroadcastWeight(chans: map<byte, Channel>, ids: seq<byte>, n: nat)
    ensures Weight(Broadcast(chans, ids).frames, n) <= |ids|
    decreases |ids|
  {
    if ids != [] {
      if ids[0] !in chans {
        BroadcastWeight(chans, ids[1..], n);
      } else {
        var o := OnLinkConnect(chans[ids[0]], ids[0]);
        var rest := chans[ids[0] := o.ch];
        BroadcastWeight(rest, ids[1..], n);
        WeightAppend(o.frames, Broadcast(rest, ids[1..]).frames, n);
        assert |o.frames| <= 1 && (o.frames != [] ==> o.frames[1..] == []);
      }
    }
  }

  /** The replies to a frame weigh less than the frame. */
  lemma ReceiveWeight(m: Node, f: Frame, io: Io, n: nat)
    requires |m.order| <= n
    ensures Weight(Receive(m, f, io).frames, n) < Cost(f, n) && Receive(m, f, io).node.order == m.order
  {
    BroadcastWeight(m.chans, m.order, n);
    var fs := Receive(m, f, io).frames;
    if f.ftype == F_HELLO {
      WeightAppend([ACK], LinkUp(m).frames, n);
      assert [ACK][1..] == [];
    } else if f.ftype != F_ACK {
      assert |fs| <= 1 && (fs != [] ==> fs[1..] == []);
    }
  }

  /** The frame that a move hands to its end, if any. */
  function Handed(s: System, m: Move): Option<Frame> {
    var p := if m.Left? then s else Swap(s);
    match m.act
    case Deliver(_) => if p.aOpen && !p.baOld && p.ba != [] then Some(p.ba[0]) else None
    case Stale(f, _) => if p.aOpen && p.baOld then Some(f) else None
    case _ => None
  }

  /** Every move hands over a frame or finds that the old bytes have been passed. */
  predicate AreDeliveries(s: System, moves: seq<Move>)
    decreases |moves|
  {
    moves == [] ||
    ((Handed(s, moves[0]).Some? || moves[0].act.Settle?) && AreDeliveries(Step(s, moves[0]), moves[1..]))
  }

  /** The number of frames handed over. */
  function Handovers(moves: seq<Move>): nat {
    if moves == [] then 0 else (if moves[0].act.Settle? then 0 else 1) + Handovers(moves[1..])
  }

  /** The weight of the stale frames among the deliveries. */
  function StaleWeight(moves: seq<Move>, n: nat): nat {
    if moves == [] then 0
    else (if moves[0].act.Stale? then Cost(moves[0].act.f, n) else 0) + StaleWeight(moves[1..], n)
  }

  lemma DeliveryWeight(s: System, m: Move, n: nat)
    requires Handed(s, m).Some? && |s.a.order| <= n && |s.b.order| <= n
    ensures var t := Step(s, m);
            && t.a.order == s.a.order && t.b.order == s.b.order && t.aOpen == s.aOpen && t.bOpen == s.bOpen
            && Weight(t.ab, n) + Weight(t.ba, n) <
               Weight(s.ab, n) + Weight(s.ba, n) + if m.act.Stale? then Cost(m.act.f, n) else 0
  {
    hide Receive;
    var p, f := if m.Left? then s else Swap(s), Handed(s, m).value;
    var r := Receive(p.a, f, m.act.io);
    ReceiveWeight(p.a, f, m.act.io, n);
    WeightAppend(p.ab, r.frames, n);
  }

  lemma {:induction false} DeliveriesEnd(s: System, moves: seq<Move>, n: nat)
    requires AreDeliveries(s, moves) && |s.a.order| <= n && |s.b.order| <= n
    ensures Handovers(moves) <= Weight(s.ab, n) + Weight(s.ba, n) + StaleWeight(moves, n)
    ensures Exec(s, moves).aOpen == s.aOpen && Exec(s, moves).bOpen == s.bOpen
    decreases |moves|
  {
    hide Step, Handed;
    if moves != [] {
      if moves[0].act.Settle? {
        SettleStays(s, moves[0]);
      } else {
        DeliveryWeight(s, moves[0], n);
      }
      DeliveriesEnd(Step(s, moves[0]), moves[1..], n);
    }
  }

  lemma SettleStays(s: System, m: Move)
    requires m.act.Settle?
    ensures var t := Step(s, m); t == s.(abOld := t.abOld, baOld := t.baOld)
  {
  }

  /** The old bytes have been passed and no frame can be delivered any more. */
  ghost predicate Stuck(s: System) {
    !s.abOld && !s.baOld && forall m :: Handed(s, m).Some? ==> !Benign(m.act)
  }

  /** Convergence: from any reachable state with both links open, also just after a reopening, let stale
      frames and the frames in flight be delivered in any order and the old bytes be passed at any time.
      The frames handed over are bounded in number, and when no more can be, both ends agree. */
  lemma Convergence(s: System, moves: seq<Move>, deliveries: seq<Move>)
    requires Initial(s) && forall i :: 0 <= i < |moves| ==> Benign(moves[i].act)
    requires forall i :: 0 <= i < |deliveries| ==> Benign(deliveries[i].act)
    requires Exec(s, moves).aOpen && Exec(s, moves).bOpen && AreDeliveries(Exec(s, moves), deliveries)
    ensures var t := Exec(s, moves);
            var n := |t.a.order| + |t.b.order|;
            var u := Exec(t, deliveries);
            && Handovers(deliveries) <= Weight(t.ab, n) + Weight(t.ba, n) + StaleWeight(deliveries, n)
            && (Stuck(u) ==> Agreed(u))
  {
    hide Exec, Inv, AreDeliveries;
    Agreement(s, moves);
    var t := Exec(s, moves);
    var u := Exec(t, deliveries);
    DeliveriesEnd(t, deliveries, |t.a.order| + |t.b.order|);
    ExecKeeps(t, deliveries);
    if Stuck(u) {
      var io := Io(0, true, true, WouldBlock);
      assert Benign(Left(Deliver(io)).act) && Benign(Right(Deliver(io)).act);
      assert Handed(u, Left(Deliver(io))).None? && Handed(u, Right(Deliver(io))).None?;
      InvAgrees(u);
    }
  }

  lemma InvAgrees(s: System)
    requires Inv(s) && s.aOpen && s.bOpen && s.ab == [] && s.ba == []
    ensures Agreed(s)
  {
    Quiescent(s);
    Quiescent(Swap(s));
  }
}
