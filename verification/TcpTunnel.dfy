/** One direction of the TCP tunnel: bytes read from a connection at the source, chunked into frames,
    carried in order, buffered and written at the destination.  A monitor follows one incarnation of
    one connection id, from its announcement to the end of its destination slot. */
module TcpTunnel {
  import opened Bytes
  import opened LinkFrame
  import opened TxQueue
  import opened Channels

  /** `Missed`: the slot was taken when the announcement arrived.  `Drained`: the slot was freed without
      telling the peer.  `Aborted`: it was closed by an error, end of file or overflow.  `Overrun`: a
      frame of a later incarnation arrived while this one was still draining. */
  datatype Phase = Pending(ahead: nat) | Live | Drained | Aborted | Missed | Overrun

  /** Source channel, destination slots and frames in flight, with the monitor of one connection:
      whether its source slot is still open, the bytes read from it and the bytes written. */
  datatype Tunnel = Tunnel(
    src: TcpSource, dst: map<nat, Conn>, fifo: seq<Frame>,
    srcOpen: bool, read: seq<byte>, written: seq<byte>, phase: Phase)

  datatype Event =
    | SourceDoes(e: ChannelEvent)
    | SourceGets(f: Frame)      // any frame from the peer
    | DestGets(io: Io)          // the next frame in flight
    | DestDoes(e: ChannelEvent)

  // ---------------------------------------------------------------- frames of one connection

  predicate IsData(f: Frame, c: nat) {
    f.ftype == F_TDATA && CidOf(f.payload) == Some(c)
  }

  /** The announcement or the close of an incarnation. */
  predicate IsEnd(f: Frame, c: nat) {
    (f.ftype == F_TCONN || f.ftype == F_TCLOSE) && CidOf(f.payload) == Some(c)
  }

  /** What follows the connection id. */
  function DataOf(f: Frame): seq<byte> {
    if |f.payload| < 2 then [] else f.payload[2..]
  }

  predicate NoEnd(q: seq<Frame>, c: nat) {
    forall i :: 0 <= i < |q| ==> !IsEnd(q[i], c)
  }

  /** The bytes in flight for the connection, up to the end of the incarnation. */
  function InFlight(q: seq<Frame>, c: nat): seq<byte>
    decreases |q|
  {
    if q == [] || IsEnd(q[0], c) then []
    else (if IsData(q[0], c) then DataOf(q[0]) else []) + InFlight(q[1..], c)
  }

  lemma NoEndAppend(p: seq<Frame>, q: seq<Frame>, c: nat)
    ensures NoEnd(p + q, c) <==> NoEnd(p, c) && NoEnd(q, c)
  {
    hide IsEnd;
    if NoEnd(p + q, c) {
      forall i | 0 <= i < |p| ensures !IsEnd(p[i], c) {
        assert (p + q)[i] == p[i];
      }
      forall i | 0 <= i < |q| ensures !IsEnd(q[i], c) {
        assert (p + q)[|p| + i] == q[i];
      }
    }
  }

  lemma InFlightCons(q: seq<Frame>, c: nat)
    requires q != []
    ensures InFlight(q, c) ==
            if IsEnd(q[0], c) then [] else (if IsData(q[0], c) then DataOf(q[0]) else []) + InFlight(q[1..], c)
    ensures NoEnd(q, c) <==> !IsEnd(q[0], c) && NoEnd(q[1..], c)
  {
    hide IsEnd, IsData, DataOf;
    assert q == [q[0]] + q[1..];
    NoEndAppend([q[0]], q[1..], c);
    assert NoEnd([q[0]], c) <==> !IsEnd(q[0], c) by {
      assert [q[0]][0] == q[0];
    }
  }

  lemma {:induction false} InFlightAppend(p: seq<Frame>, q: seq<Frame>, c: nat)
    ensures InFlight(p + q, c) == if NoEnd(p, c) then InFlight(p, c) + InFlight(q, c) else InFlight(p, c)
    decreases |p|
  {
    hide IsEnd, IsData, DataOf, NoEnd;
    if p == [] {
      assert p + q == q;
      NothingInFlight(c);
    } else {
      assert (p + q)[0] == p[0] && (p + q)[1..] == p[1..] + q;
      InFlightAppend(p[1..], q, c);
      InFlightCons(p, c);
      Assoc(if IsData(p[0], c) then DataOf(p[0]) else [], InFlight(p[1..], c), InFlight(q, c));
      InFlightCons(p + q, c);
    }
  }

  lemma CidOfPacked(slot: nat, data: seq<byte>)
    requires slot < MAX_TCP_CONNS
    ensures CidOf(Pack16(slot) + data) == Some(slot) && CidOf(Pack16(slot)) == Some(slot)
    ensures (Pack16(slot) + data)[2..] == data
  {
    Unpack16Inverts(slot);
  }

  /** Chunking: the frames fit the link, and carry exactly the bytes, to their own connection only. */
  lemma {:induction false} ChunksCarry(id: byte, slot: nat, data: seq<byte>, c: nat)
    requires slot < MAX_TCP_CONNS
    ensures var fs := ChunkFrames(id, slot, data);
            && NoEnd(fs, c)
            && InFlight(fs, c) == (if slot == c then data else [])
            && forall i :: 0 <= i < |fs| ==> |fs[i].payload| <= MAX_PAYLOAD && Build(fs[i]) != []
    decreases |data|
  {
    hide Checksum, InFlight, NoEnd, CidOf;
    if data == [] {
      NothingInFlight(c);
    } else {
      var end := Min(MAX_PAYLOAD - 2, |data|);
      ChunksCarry(id, slot, data[end..], c);
      CidOfPacked(slot, data[..end]);
      assert ChunkFrames(id, slot, data)[1..] == ChunkFrames(id, slot, data[end..]);
      InFlightCons(ChunkFrames(id, slot, data), c);
      assert data[..end] + data[end..] == data;
    }
  }

  lemma NothingInFlight(c: nat)
    ensures InFlight([], c) == [] && NoEnd([], c)
  {
  }

  // ---------------------------------------------------------------- the source side

  /** The bytes a readable event takes from the socket. */
  function BytesRead(inputs: seq<Read>): seq<byte> {
    if inputs == [] || !inputs[0].Data? || inputs[0].bytes == [] then []
    else inputs[0].bytes + BytesRead(inputs[1..])
  }

  /** The bytes taken from connection `c` by an event of the source channel. */
  function Gets(conns: map<nat, Conn>, e: ChannelEvent, c: nat): seq<byte> {
    if e.Slot? && e.slot == c && c in conns && c < MAX_TCP_CONNS && e.readable && !conns[c].closePending
    then BytesRead(e.inputs) else []
  }

  /** How the frames sent relate to the connection's slot before and after. */
  ghost predicate SourceLaw(before: map<nat, Conn>, after: map<nat, Conn>, fs: seq<Frame>, got: seq<byte>, c: nat) {
    && InFlight(fs, c) == got
    && (c in before ==> (c in after ==> NoEnd(fs, c)))
    && (c !in before ==> got == [] && (c in after ==> !NoEnd(fs, c)))
  }

  lemma {:induction false} ReadConnCarries(id: byte, slot: nat, inputs: seq<Read>, c: nat)
    requires slot < MAX_TCP_CONNS
    ensures var fs := ReadConn(id, slot, inputs).0;
            NoEnd(fs, c) && InFlight(fs, c) == (if slot == c then BytesRead(inputs) else [])
    decreases |inputs|
  {
    hide InFlight, NoEnd, ChunkFrames;
    NothingInFlight(c);
    if inputs != [] && inputs[0].Data? && inputs[0].bytes != [] {
      ReadConnCarries(id, slot, inputs[1..], c);
      ChunksCarry(id, slot, inputs[0].bytes, c);
      var x, y := ChunkFrames(id, slot, inputs[0].bytes), ReadConn(id, slot, inputs[1..]).0;
      NoEndAppend(x, y, c);
      InFlightAppend(x, y, c);
    }
  }

  lemma CloseCarries(id: byte, slot: nat, notify: bool, c: nat)
    requires slot < MAX_TCP_CONNS
    ensures var fs := CloseFrames(id, slot, notify);
            InFlight(fs, c) == [] && (NoEnd(fs, c) <==> slot != c || !notify)
  {
    CidOfPacked(slot, []);
    var fs := CloseFrames(id, slot, notify);
    if notify {
      assert IsEnd(fs[0], c) <==> slot == c;
      assert fs[1..] == [];
    }
  }

  lemma ReadSlotCarries(conns: map<nat, Conn>, notify: bool, id: byte, slot: nat, inputs: seq<Read>, c: nat)
    requires slot < MAX_TCP_CONNS && slot in conns
    ensures var r := ReadSlot(conns, notify, id, slot, inputs);
            && SourceLaw(conns, r.ch, r.frames, if slot == c then BytesRead(inputs) else [], c)
            && (c in r.ch ==> c in conns)
            && (slot != c ==> NoEnd(r.frames, c) && (c in conns ==> c in r.ch))
  {
    var (fs, eof) := ReadConn(id, slot, inputs);
    ReadConnCarries(id, slot, inputs, c);
    CloseCarries(id, slot, eof && notify, c);
    InFlightAppend(fs, CloseFrames(id, slot, eof && notify), c);
    NoEndAppend(fs, CloseFrames(id, slot, eof && notify), c);
  }

  lemma WriteSlotCarries(conns: map<nat, Conn>, notify: bool, id: byte, slot: nat, w: Write, c: nat)
    requires slot < MAX_TCP_CONNS && slot in conns
    ensures var r := WriteSlot(conns, notify, id, slot, w);
            && SourceLaw(conns, r.ch, r.frames, [], c)
            && (c in r.ch ==> c in conns)
            && (slot != c ==> NoEnd(r.frames, c))
  {
    CloseCarries(id, slot, notify, c);
  }

  lemma SlotEventCarries(conns: map<nat, Conn>, notify: bool, id: byte, e: ChannelEvent, c: nat)
    requires e.Slot?
    ensures var r := SourceSlotEvent(conns, notify, id, e);
            SourceLaw(conns, r.ch, r.frames, Gets(conns, e, c), c)
  {
    hide ReadSlot, WriteSlot;
    if e.slot in conns && e.slot < MAX_TCP_CONNS {
      ReadSlotCarries(conns, notify, id, e.slot, e.inputs, c);
      var r := if e.readable && !conns[e.slot].closePending then ReadSlot(conns, notify, id, e.slot, e.inputs)
               else Quiet(conns);
      if e.writable && e.slot in r.ch {
        WriteSlotCarries(r.ch, notify, id, e.slot, e.write, c);
        var w := WriteSlot(r.ch, notify, id, e.slot, e.write);
        InFlightAppend(r.frames, w.frames, c);
        NoEndAppend(r.frames, w.frames, c);
      }
    }
  }

  lemma {:induction false} AcceptCarries(s: TcpSource, id: byte, registered: seq<bool>, c: nat)
    ensures var r := Accept(s, id, registered);
            && SourceLaw(s.conns, r.ch.conns, r.frames, [], c)
            && (c in s.conns ==> c in r.ch.conns)
    decreases |registered|
  {
    if registered != [] {
      var (slot, next) := AllocSlot(s.conns, s.nextSlot, MAX_TCP_CONNS);
      if !s.linkUp {
        AcceptCarries(s, id, registered[1..], c);
      } else if slot.None? || !registered[0] {
        AcceptCarries(s.(nextSlot := next), id, registered[1..], c);
      } else {
        var taken := s.(nextSlot := next, conns := s.conns[slot.value := Conn([], false, false)]);
        AcceptCarries(taken, id, registered[1..], c);
        CidOfPacked(slot.value, []);
        var first, more := Frame(F_TCONN, id, Pack16(slot.value)), Accept(taken, id, registered[1..]).frames;
        assert IsEnd(first, c) <==> slot.value == c;
        assert NoEnd([first], c) <==> slot.value != c by {
          assert [first][0] == first;
        }
        NoEndAppend([first], more, c);
        assert ([first] + more)[1..] == more;
      }
    }
  }

  lemma SourceEventCarries(s: TcpSource, id: byte, e: ChannelEvent, c: nat)
    ensures var r := SourceEvent(s, id, e);
            SourceLaw(s.conns, r.ch.conns, r.frames, Gets(s.conns, e, c), c)
  {
    hide SourceSlotEvent, Accept;
    match e
    case Listener(registered) => AcceptCarries(s, id, registered, c);
    case Slot(_, _, _, _, _, _) => SlotEventCarries(s.conns, s.linkUp, id, e, c);
    case Primary(_, _, _, _, _) =>
  }

  lemma SourceFrameCarries(conns: map<nat, Conn>, notify: bool, id: byte, f: Frame, c: nat)
    ensures var r := SlotOnFrame(conns, notify, id, f); SourceLaw(conns, r.ch, r.frames, [], c)
  {
    if CidOf(f.payload).Some? {
      CloseCarries(id, CidOf(f.payload).value, notify, c);
    }
  }

  // ---------------------------------------------------------------- steps of the monitored tunnel

  /** The bytes of connection `c` that an event at the destination hands to its socket. */
  function Puts(conns: map<nat, Conn>, e: ChannelEvent, c: nat): seq<byte> {
    if e.Slot? && e.slot == c && c in conns && c < MAX_TCP_CONNS && e.writable &&
       !(conns[c].connecting && !e.connected) && e.write.Wrote?
    then conns[c].txbuf[..Min(e.write.n, |conns[c].txbuf|)] else []
  }

  /** Whether an operation that removed a slot told the peer. */
  predicate TellsClose(fs: seq<Frame>, c: nat) {
    exists i :: 0 <= i < |fs| && fs[i].ftype == F_TCLOSE && CidOf(fs[i].payload) == Some(c)
  }

  function Gone(fs: seq<Frame>, c: nat): Phase {
    if TellsClose(fs, c) then Aborted else Drained
  }

  function AfterFrame(t: Tunnel, f: Frame, o: Out<map<nat, Conn>>, c: nat): Phase {
    match t.phase
    case Pending(k) =>
      if k > 0 then Pending(k - 1) else if c in t.dst then Missed else if c in o.ch then Live else Aborted
    case Live =>
      if c in t.dst && ((IsData(f, c) && t.dst[c].closePending) ||
                        (IsEnd(f, c) && (f.ftype == F_TCONN || t.dst[c].closePending)))
      then Overrun
      else if c in o.ch then Live
      else Gone(o.frames, c)
    case _ => t.phase
  }

  function Step(t: Tunnel, ev: Event, id: byte, c: nat): Tunnel {
    match ev
    case SourceDoes(e) =>
      var r := SourceEvent(t.src, id, e);
      t.(src := r.ch, fifo := t.fifo + r.frames, srcOpen := t.srcOpen && c in r.ch.conns,
         read := if t.srcOpen then t.read + Gets(t.src.conns, e, c) else t.read)
    case SourceGets(f) =>
      var r := SlotOnFrame(t.src.conns, t.src.linkUp, id, f);
      t.(src := t.src.(conns := r.ch), fifo := t.fifo + r.frames, srcOpen := t.srcOpen && c in r.ch)
    case DestGets(io) =>
      if t.fifo == [] then t
      else
        var o := DestOnFrame(t.dst, id, t.fifo[0], io);
        t.(dst := o.ch, fifo := t.fifo[1..], phase := AfterFrame(t, t.fifo[0], o, c))
    case DestDoes(e) =>
      if !e.Slot? then t
      else
        var o := DestSlotEvent(t.dst, id, e);
        t.(dst := o.ch,
           written := if t.phase == Live then t.written + Puts(t.dst, e, c) else t.written,
           phase := if t.phase == Live && c !in o.ch then Gone(o.frames, c) else t.phase)
  }

  function Exec(t: Tunnel, events: seq<Event>, id: byte, c: nat): Tunnel
    decreases |events|
  {
    if events == [] then t else Exec(Step(t, events[0], id, c), events[1..], id, c)
  }

  /** The connection has just been accepted in slot `c` and its announcement queued, behind any frames and
      before the announcements of connections accepted after it. */
  ghost predicate Accepted(t: Tunnel, c: nat) {
    && c in t.src.conns && t.srcOpen && t.read == [] && t.written == []
    && t.phase.Pending? && t.phase.ahead < |t.fifo|
    && t.fifo[t.phase.ahead].ftype == F_TCONN && CidOf(t.fifo[t.phase.ahead].payload) == Some(c)
    && NoEnd(t.fifo[t.phase.ahead + 1..], c) && InFlight(t.fifo[t.phase.ahead + 1..], c) == []
  }

  // ---------------------------------------------------------------- fidelity

  /** The frames behind the announcement belong to this incarnation for as long as its source slot is
      open, and an end separates them from those of a later one. */
  ghost predicate Separated(t: Tunnel, tail: seq<Frame>, c: nat) {
    && (t.srcOpen ==> c in t.src.conns && NoEnd(tail, c))
    && (!t.srcOpen && c in t.src.conns ==> !NoEnd(tail, c))
  }

  ghost predicate Inv(t: Tunnel, c: nat) {
    match t.phase
    case Pending(k) =>
      && k < |t.fifo| && t.fifo[k].ftype == F_TCONN && CidOf(t.fifo[k].payload) == Some(c)
      && t.written == [] && t.read == InFlight(t.fifo[k + 1..], c) && Separated(t, t.fifo[k + 1..], c)
    case Live =>
      && c in t.dst
      && (if t.dst[c].closePending
          then !t.srcOpen && t.read == t.written + t.dst[c].txbuf
          else t.read == t.written + t.dst[c].txbuf + InFlight(t.fifo, c) && Separated(t, t.fifo, c))
    case Drained => !t.srcOpen && t.read == t.written
    case _ => true
  }

  lemma SourceSide(t: Tunnel, t': Tunnel, tail: seq<Frame>, fs: seq<Frame>, got: seq<byte>, c: nat)
    requires Separated(t, tail, c) && SourceLaw(t.src.conns, t'.src.conns, fs, got, c)
    requires t'.srcOpen == (t.srcOpen && c in t'.src.conns)
    ensures Separated(t', tail + fs, c)
    ensures InFlight(tail + fs, c) == InFlight(tail, c) + if t.srcOpen then got else []
  {
    InFlightAppend(tail, fs, c);
    NoEndAppend(tail, fs, c);
  }

  /** Anything the source channel does keeps the invariant. */
  lemma SourceKeeps(t: Tunnel, src: TcpSource, fs: seq<Frame>, got: seq<byte>, c: nat)
    requires Inv(t, c) && SourceLaw(t.src.conns, src.conns, fs, got, c)
    ensures Inv(t.(src := src, fifo := t.fifo + fs, srcOpen := t.srcOpen && c in src.conns,
                   read := if t.srcOpen then t.read + got else t.read), c)
  {
    hide SourceLaw, Separated, InFlight, CidOf;
    var t' := t.(src := src, fifo := t.fifo + fs, srcOpen := t.srcOpen && c in src.conns,
                 read := if t.srcOpen then t.read + got else t.read);
    if t.phase.Pending? {
      var k := t.phase.ahead;
      SourceSide(t, t', t.fifo[k + 1..], fs, got, c);
      assert (t.fifo + fs)[k + 1..] == t.fifo[k + 1..] + fs;
    } else if t.phase.Live? && !t.dst[c].closePending {
      SourceSide(t, t', t.fifo, fs, got, c);
    }
  }

  /** A slot has room for more data: none is always taken, and some as long as neither mark is exceeded. */
  predicate TakesData(x: Conn, data: seq<byte>) {
    data == [] || (|x.txbuf| <= CONN_HIGH_WATER && |x.txbuf| + |data| <= CONN_HIGH_WATER + MAX_PAYLOAD)
  }

  /** The peer's close of connection `c`. */
  predicate IsClose(f: Frame, c: nat) {
    f.ftype == F_TCLOSE && CidOf(f.payload) == Some(c)
  }

  /** What one frame does to the destination slot of connection `c`. */
  lemma FrameAtSlot(conns: map<nat, Conn>, id: byte, f: Frame, io: Io, c: nat)
    requires c in conns
    ensures var o := DestOnFrame(conns, id, f, io);
            && (!IsData(f, c) && !IsClose(f, c) ==> c in o.ch && o.ch[c] == conns[c])
            && (IsData(f, c) ==> (c in o.ch <==> TakesData(conns[c], DataOf(f))))
            && (IsData(f, c) && c in o.ch ==> o.ch[c] == conns[c].(txbuf := conns[c].txbuf + DataOf(f)))
            && (IsData(f, c) && c !in o.ch ==> TellsClose(o.frames, c))
            && (IsClose(f, c) ==>
                  if conns[c].txbuf == [] then c !in o.ch && o.frames == []
                  else c in o.ch && o.ch[c] == conns[c].(closePending := true))
  {
    var o := DestOnFrame(conns, id, f, io);
    if IsData(f, c) {
      if c !in o.ch {
        CidOfPacked(c, []);
        assert o.frames[0] == CloseFrame(id, c);
      } else if DataOf(f) == [] {
        assert conns[c].txbuf + DataOf(f) == conns[c].txbuf;
      }
    }
  }

  lemma DestGetsKeeps(t: Tunnel, io: Io, id: byte, c: nat)
    requires Inv(t, c) && t.fifo != []
    ensures Inv(Step(t, DestGets(io), id, c), c)
  {
    hide CidOf, InFlight, NoEnd, DestOnFrame, DataOf, TellsClose;
    var f := t.fifo[0];
    var o := DestOnFrame(t.dst, id, f, io);
    if t.phase.Pending? {
      var k := t.phase.ahead;
      if k == 0 && c !in t.dst {
        Announced(t.dst, id, f, io, c);
        assert t.fifo[1..] == t.fifo[k + 1..];
      } else {
        assert t.fifo[1..][k..] == t.fifo[k + 1..];
      }
    } else if t.phase.Live? {
      FrameAtSlot(t.dst, id, f, io, c);
      InFlightCons(t.fifo, c);
      if !t.dst[c].closePending && IsData(f, c) && c in o.ch {
        Assoc(t.written + t.dst[c].txbuf, DataOf(f), InFlight(t.fifo[1..], c));
        Assoc(t.written, t.dst[c].txbuf, DataOf(f));
      }
    }
  }

  lemma Announced(conns: map<nat, Conn>, id: byte, f: Frame, io: Io, c: nat)
    requires f.ftype == F_TCONN && CidOf(f.payload) == Some(c) && c !in conns
    ensures var o := DestOnFrame(conns, id, f, io); c in o.ch ==> o.ch[c] == Conn([], true, false)
  {
  }

  /** What one readiness event does to the destination slot of connection `c`. */
  lemma EventAtSlot(conns: map<nat, Conn>, id: byte, e: ChannelEvent, c: nat)
    requires e.Slot? && c in conns
    ensures var o := DestSlotEvent(conns, id, e);
            && (c in o.ch ==>
                  o.ch[c].closePending == conns[c].closePending && conns[c].txbuf == Puts(conns, e, c) + o.ch[c].txbuf)
            && (c !in o.ch && !TellsClose(o.frames, c) ==> conns[c].closePending && conns[c].txbuf == Puts(conns, e, c))
  {
    hide ReadSlot, WriteSlot;
    if e.slot == c && c < MAX_TCP_CONNS {
      var d := conns[c];
      if d.connecting && e.writable && !e.connected {
        CidOfPacked(c, []);
        assert DestSlotEvent(conns, id, e).frames[0] == CloseFrame(id, c);
      } else {
        var joined := if e.writable then conns[c := d.(connecting := false)] else conns;
        var w := if e.writable then WriteSlot(joined, true, id, c, e.write) else Quiet(joined);
        if e.writable {
          WriteAtSlot(joined, id, c, e.write);
        }
        ReadAtSlot(w.ch, id, c, e.inputs);
        AppendTells(w.frames, ReadSlot(w.ch, true, id, c, e.inputs).frames, c);
      }
    } else {
      OtherSlots(conns, id, e, c);
    }
  }

  lemma AppendTells(p: seq<Frame>, q: seq<Frame>, c: nat)
    ensures TellsClose(q, c) ==> TellsClose(p + q, c)
    ensures TellsClose(p, c) ==> TellsClose(p + q, c)
  {
    if TellsClose(q, c) {
      var i :| 0 <= i < |q| && q[i].ftype == F_TCLOSE && CidOf(q[i].payload) == Some(c);
      assert (p + q)[|p| + i] == q[i];
    }
    if TellsClose(p, c) {
      var i :| 0 <= i < |p| && p[i].ftype == F_TCLOSE && CidOf(p[i].payload) == Some(c);
      assert (p + q)[i] == p[i];
    }
  }

  lemma WriteAtSlot(conns: map<nat, Conn>, id: byte, c: nat, w: Write)
    requires c in conns && c < MAX_TCP_CONNS && !conns[c].connecting
    ensures var o := WriteSlot(conns, true, id, c, w);
            var put := if w.Wrote? then conns[c].txbuf[..Min(w.n, |conns[c].txbuf|)] else [];
            && (c in o.ch ==>
                  && !o.ch[c].connecting && o.ch[c].closePending == conns[c].closePending
                  && conns[c].txbuf == put + o.ch[c].txbuf)
            && (c !in o.ch && !TellsClose(o.frames, c) ==> conns[c].closePending && conns[c].txbuf == put)
  {
    var o := WriteSlot(conns, true, id, c, w);
    if w == WriteFailed && c !in o.ch && conns[c].txbuf != [] {
      CidOfPacked(c, []);
      assert o.frames[0] == CloseFrame(id, c);
    }
  }

  lemma ReadAtSlot(conns: map<nat, Conn>, id: byte, c: nat, inputs: seq<Read>)
    requires c < MAX_TCP_CONNS
    ensures var o := ReadSlot(conns, true, id, c, inputs);
            && (c in o.ch ==> c in conns && o.ch[c] == conns[c])
            && (c in conns && c !in o.ch ==> TellsClose(o.frames, c))
  {
    var (fs, eof) := ReadConn(id, c, inputs);
    if eof {
      CidOfPacked(c, []);
      assert (fs + [CloseFrame(id, c)])[|fs|] == CloseFrame(id, c);
    }
  }

  lemma OtherSlots(conns: map<nat, Conn>, id: byte, e: ChannelEvent, c: nat)
    requires e.Slot? && c in conns && (e.slot != c || c >= MAX_TCP_CONNS)
    ensures var o := DestSlotEvent(conns, id, e); c in o.ch && o.ch[c] == conns[c]
  {
  }

  lemma DestDoesKeeps(t: Tunnel, e: ChannelEvent, id: byte, c: nat)
    requires Inv(t, c)
    ensures Inv(Step(t, DestDoes(e), id, c), c)
  {
    hide DestSlotEvent, InFlight, NoEnd, CidOf, Puts;
    if e.Slot? && t.phase.Live? {
      EventAtSlot(t.dst, id, e, c);
      var o := DestSlotEvent(t.dst, id, e);
      var put := Puts(t.dst, e, c);
      if c in o.ch {
        Assoc(t.written, put, o.ch[c].txbuf);
      }
    }
  }

  lemma StepKeeps(t: Tunnel, ev: Event, id: byte, c: nat)
    requires Inv(t, c)
    ensures Inv(Step(t, ev, id, c), c)
  {
    hide Inv, SourceLaw;
    match ev
    case SourceDoes(e) =>
      var r := SourceEvent(t.src, id, e);
      SourceEventCarries(t.src, id, e, c);
      SourceKeeps(t, r.ch, r.frames, Gets(t.src.conns, e, c), c);
    case SourceGets(f) =>
      var r := SlotOnFrame(t.src.conns, t.src.linkUp, id, f);
      SourceFrameCarries(t.src.conns, t.src.linkUp, id, f, c);
      SourceKeeps(t, t.src.(conns := r.ch), r.frames, [], c);
      assert t.read + [] == t.read;
    case DestGets(io) =>
      if t.fifo != [] {
        DestGetsKeeps(t, io, id, c);
      }
    case DestDoes(e) => DestDoesKeeps(t, e, id, c);
  }

  lemma {:induction false} ExecKeeps(t: Tunnel, events: seq<Event>, id: byte, c: nat)
    requires Inv(t, c)
    ensures Inv(Exec(t, events, id, c), c)
    decreases |events|
  {
    hide Inv, Step;
    if events != [] {
      StepKeeps(t, events[0], id, c);
      ExecKeeps(Step(t, events[0], id, c), events[1..], id, c);
    }
  }

  /** Stream fidelity: in every run from the acceptance of a connection, while its destination slot lives
      the bytes written, buffered and in flight are exactly the bytes read at the source, in order; and
      when the slot is freed by draining, every byte read had been written. */
  lemma StreamFidelity(t: Tunnel, events: seq<Event>, id: byte, c: nat)
    requires Accepted(t, c)
    ensures var u := Exec(t, events, id, c);
            && (u.phase == Live ==> c in u.dst && u.written + u.dst[c].txbuf <= u.read)
            && (u.phase == Live && !u.dst[c].closePending ==>
                  u.read == u.written + u.dst[c].txbuf + InFlight(u.fifo, c))
            && (u.phase == Live && u.dst[c].closePending ==> u.read == u.written + u.dst[c].txbuf && !u.srcOpen)
            && (u.phase == Drained ==> u.written == u.read && !u.srcOpen)
  {
    hide Exec, InFlight;
    assert Inv(t, c);
    ExecKeeps(t, events, id, c);
  }

  /** Accepting a batch of connections: each slot taken is announced exactly once, at `at`, and nothing
      else in the batch concerns it. */
  lemma {:induction false} AcceptAnnounces(s: TcpSource, id: byte, registered: seq<bool>, c: nat) returns (at: nat)
    requires c !in s.conns && c in Accept(s, id, registered).ch.conns
    ensures var fs := Accept(s, id, registered).frames;
            && at < |fs| && fs[at].ftype == F_TCONN && CidOf(fs[at].payload) == Some(c)
            && NoEnd(fs[..at], c) && NoEnd(fs[at + 1..], c) && InFlight(fs[at + 1..], c) == []
            && Accept(s, id, registered).ch.conns[c] == Conn([], false, false)
    decreases |registered|
  {
    hide CidOf, InFlight, NoEnd, AllocSlot;
    var (slot, next) := AllocSlot(s.conns, s.nextSlot, MAX_TCP_CONNS);
    if !s.linkUp {
      at := AcceptAnnounces(s, id, registered[1..], c);
    } else if slot.None? || !registered[0] {
      at := AcceptAnnounces(s.(nextSlot := next), id, registered[1..], c);
    } else {
      var taken := s.(nextSlot := next, conns := s.conns[slot.value := Conn([], false, false)]);
      var first, more := Frame(F_TCONN, id, Pack16(slot.value)), Accept(taken, id, registered[1..]).frames;
      var fs := [first] + more;
      CidOfPacked(slot.value, []);
      if slot.value == c {
        at := 0;
        AcceptSpares(taken, id, registered[1..], c);
        assert fs[..0] == [] && fs[1..] == more;
        NothingInFlight(c);
      } else {
        at := AcceptAnnounces(taken, id, registered[1..], c);
        assert fs[at + 1] == more[at] && fs[at + 2..] == more[at + 1..] && fs[..at + 1] == [first] + more[..at];
        OneFrame(first, c);
        NoEndAppend([first], more[..at], c);
        at := at + 1;
      }
    }
  }

  lemma OneFrame(f: Frame, c: nat)
    ensures NoEnd([f], c) <==> !IsEnd(f, c)
  {
    assert [f][0] == f;
  }

  /** A slot that is taken is left alone by later acceptances. */
  lemma {:induction false} AcceptSpares(s: TcpSource, id: byte, registered: seq<bool>, c: nat)
    requires c in s.conns
    ensures var o := Accept(s, id, registered);
            NoEnd(o.frames, c) && InFlight(o.frames, c) == [] && c in o.ch.conns && o.ch.conns[c] == s.conns[c]
    decreases |registered|
  {
    hide CidOf, InFlight, NoEnd, AllocSlot;
    NothingInFlight(c);
    if registered != [] {
      var (slot, next) := AllocSlot(s.conns, s.nextSlot, MAX_TCP_CONNS);
      if !s.linkUp {
        AcceptSpares(s, id, registered[1..], c);
      } else if slot.None? || !registered[0] {
        AcceptSpares(s.(nextSlot := next), id, registered[1..], c);
      } else {
        var taken := s.(nextSlot := next, conns := s.conns[slot.value := Conn([], false, false)]);
        AcceptSpares(taken, id, registered[1..], c);
        CidOfPacked(slot.value, []);
        var first, more := Frame(F_TCONN, id, Pack16(slot.value)), Accept(taken, id, registered[1..]).frames;
        OneFrame(first, c);
        NoEndAppend([first], more, c);
        InFlightCons([first] + more, c);
        assert ([first] + more)[1..] == more;
      }
    }
  }

  /** Every connection that a listener event accepts starts in the state from which fidelity is stated. */
  lemma AcceptStarts(t: Tunnel, registered: seq<bool>, id: byte, c: nat) returns (at: nat)
    requires c !in t.src.conns && c in Accept(t.src, id, registered).ch.conns
    ensures var r := Accept(t.src, id, registered);
            Accepted(t.(src := r.ch, fifo := t.fifo + r.frames, srcOpen := true, read := [], written := [],
                        phase := Pending(|t.fifo| + at)), c)
  {
    hide CidOf, InFlight, NoEnd, Accept;
    at := AcceptAnnounces(t.src, id, registered, c);
    var fs := Accept(t.src, id, registered).frames;
    assert (t.fifo + fs)[|t.fifo| + at] == fs[at];
    assert (t.fifo + fs)[|t.fifo| + at + 1..] == fs[at + 1..];
  }

  // ---------------------------------------------------------------- bounded buffers

  ghost predicate Bounded(conns: map<nat, Conn>) {
    forall c :: c in conns ==> |conns[c].txbuf| <= CONN_HIGH_WATER + MAX_PAYLOAD
  }

  /** Every operation on the slots keeps every buffer within its bound. */
  lemma BuffersStayBounded(conns: map<nat, Conn>, notify: bool, id: byte, f: Frame, io: Io, e: ChannelEvent)
    requires Bounded(conns)
    ensures Bounded(SlotOnFrame(conns, notify, id, f).ch) && Bounded(DestOnFrame(conns, id, f, io).ch)
    ensures e.Slot? ==> Bounded(SourceSlotEvent(conns, notify, id, e).ch) && Bounded(DestSlotEvent(conns, id, e).ch)
  {
    hide CidOf, ReadSlot, WriteSlot, SlotOnFrame;
    FrameBounded(conns, notify, id, f);
    FrameBounded(conns, true, id, f);
    if e.Slot? && e.slot in conns && e.slot < MAX_TCP_CONNS {
      var d := conns[e.slot];
      var read := if e.readable && !d.closePending then ReadSlot(conns, notify, id, e.slot, e.inputs) else Quiet(conns);
      ReadBounded(conns, notify, id, e.slot, e.inputs);
      WriteBounded(read.ch, notify, id, e.slot, e.write);
      var joined := if e.writable then conns[e.slot := d.(connecting := false)] else conns;
      WriteBounded(joined, true, id, e.slot, e.write);
      var w := if e.writable then WriteSlot(joined, true, id, e.slot, e.write) else Quiet(joined);
      ReadBounded(w.ch, true, id, e.slot, e.inputs);
    }
  }

  lemma {:induction false} AcceptBounded(s: TcpSource, id: byte, registered: seq<bool>)
    requires Bounded(s.conns)
    ensures Bounded(Accept(s, id, registered).ch.conns)
    decreases |registered|
  {
    if registered != [] {
      var (slot, next) := AllocSlot(s.conns, s.nextSlot, MAX_TCP_CONNS);
      if !s.linkUp {
        AcceptBounded(s, id, registered[1..]);
      } else if slot.None? || !registered[0] {
        AcceptBounded(s.(nextSlot := next), id, registered[1..]);
      } else {
        var taken := s.(nextSlot := next, conns := s.conns[slot.value := Conn([], false, false)]);
        AcceptBounded(taken, id, registered[1..]);
      }
    }
  }

  /** In every run no connection buffers more than CONN_HIGH_WATER + MAX_PAYLOAD bytes, at either end. */
  lemma {:induction false} RunsStayBounded(t: Tunnel, events: seq<Event>, id: byte, c: nat)
    requires Bounded(t.src.conns) && Bounded(t.dst)
    ensures var u := Exec(t, events, id, c); Bounded(u.src.conns) && Bounded(u.dst)
    decreases |events|
  {
    hide SourceSlotEvent, DestSlotEvent, SlotOnFrame, DestOnFrame, Accept, Bounded;
    if events != [] {
      var ev := events[0];
      var io := if ev.DestGets? then ev.io else Io(0, true, true, WouldBlock);
      var f := if ev.SourceGets? then ev.f else if t.fifo != [] then t.fifo[0] else Frame(0, 0, []);
      var e := if ev.SourceDoes? || ev.DestDoes? then ev.e else Listener([]);
      BuffersStayBounded(t.src.conns, t.src.linkUp, id, f, io, e);
      BuffersStayBounded(t.dst, true, id, f, io, e);
      if e.Listener? {
        AcceptBounded(t.src, id, e.registered);
      }
      RunsStayBounded(Step(t, ev, id, c), events[1..], id, c);
    }
  }

  lemma FrameBounded(conns: map<nat, Conn>, notify: bool, id: byte, f: Frame)
    requires Bounded(conns)
    ensures Bounded(SlotOnFrame(conns, notify, id, f).ch)
  {
  }

  lemma ReadBounded(conns: map<nat, Conn>, notify: bool, id: byte, slot: nat, inputs: seq<Read>)
    requires Bounded(conns) && slot < MAX_TCP_CONNS
    ensures Bounded(ReadSlot(conns, notify, id, slot, inputs).ch)
  {
  }

  lemma WriteBounded(conns: map<nat, Conn>, notify: bool, id: byte, slot: nat, w: Write)
    requires slot < MAX_TCP_CONNS
    ensures slot in conns && Bounded(conns) ==> Bounded(WriteSlot(conns, notify, id, slot, w).ch)
  {
  }

  /** For frames that passed the parser's length check the second overflow test never decides: a buffer
      at or below high water always has room, so the room left is computed without wrapping. */
  lemma ParserBoundsOverflow(buffered: nat, f: Frame)
    requires |f.payload| <= MAX_PAYLOAD && |f.payload| >= 2 && buffered <= CONN_HIGH_WATER + MAX_PAYLOAD
    ensures CONN_HIGH_WATER + MAX_PAYLOAD - buffered >= 0
    ensures (buffered > CONN_HIGH_WATER || |f.payload[2..]| > CONN_HIGH_WATER + MAX_PAYLOAD - buffered)
            <==> buffered > CONN_HIGH_WATER
  {
  }
}
