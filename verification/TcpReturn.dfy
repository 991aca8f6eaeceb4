/** The other direction of the TCP tunnel: bytes read at the destination come back to the connection at
    the source.  Both directions run together, since the close of one decides what the other may carry. */
module TcpReturn {
  import opened Bytes
  import opened LinkFrame
  import opened TxQueue
  import opened Channels
  import opened TcpTunnel

  /** The tunnel with the frames on their way back; `heard` are the bytes read at the destination for the
      followed connection, `handed` those its source socket has taken, `home` the fate of its source slot.
      It is `Overrun` once a frame of an earlier incarnation is on its way to it, or its announcement finds
      an earlier one's slot still taken. */
  datatype Duplex = Duplex(t: Tunnel, back: seq<Frame>, heard: seq<byte>, handed: seq<byte>, home: Phase)

  datatype Move =
    | AtSource(e: ChannelEvent)
    | SourceTakes               // the next frame on its way back
    | DestTakes(io: Io)         // the next frame on its way out
    | AtDest(e: ChannelEvent)

  /** The bytes of connection `c` that an event at the source hands to its socket: reading comes first, and
      the end of the input closes the slot. */
  function HandsOver(conns: map<nat, Conn>, e: ChannelEvent, c: nat): seq<byte> {
    if e.Slot? && e.slot == c && c in conns && c < MAX_TCP_CONNS && e.writable && !conns[c].connecting &&
       !(e.readable && !conns[c].closePending && ReadConn(0, c, e.inputs).1) && e.write.Wrote?
    then conns[c].txbuf[..Min(e.write.n, |conns[c].txbuf|)] else []
  }

  /** The bytes of connection `c` that an event at the destination reads: only once connected, not while
      closing, and not after a failed write. */
  function Hears(conns: map<nat, Conn>, e: ChannelEvent, c: nat): seq<byte> {
    if e.Slot? && e.slot == c && c in conns && c < MAX_TCP_CONNS && e.readable && !conns[c].closePending &&
       (conns[c].connecting ==> e.writable && e.connected) &&
       !(e.writable && e.write == WriteFailed && conns[c].txbuf != [])
    then BytesRead(e.inputs) else []
  }

  function HomeAfter(d: Duplex, conns: map<nat, Conn>, fs: seq<Frame>, c: nat): Phase {
    if d.home == Live && c !in conns then Gone(fs, c) else d.home
  }

  /** An earlier incarnation of the connection at the destination has sent `fs`, or is still in the way. */
  function HomeCrossed(d: Duplex, crossed: bool): Phase {
    if d.home == Live && d.t.phase.Pending? && crossed then Overrun else d.home
  }

  function Move1(d: Duplex, m: Move, id: byte, c: nat): Duplex {
    match m
    case AtSource(e) =>
      var r := SourceEvent(d.t.src, id, e);
      d.(t := Step(d.t, SourceDoes(e), id, c), home := HomeAfter(d, r.ch.conns, r.frames, c),
         handed := if d.home == Live then d.handed + HandsOver(d.t.src.conns, e, c) else d.handed)
    case SourceTakes =>
      if d.back == [] then d
      else
        var r := SlotOnFrame(d.t.src.conns, d.t.src.linkUp, id, d.back[0]);
        d.(t := Step(d.t, SourceGets(d.back[0]), id, c), back := d.back[1..], home := HomeAfter(d, r.ch, r.frames, c))
    case DestTakes(io) =>
      if d.t.fifo == [] then d
      else
        var fs := DestOnFrame(d.t.dst, id, d.t.fifo[0], io).frames;
        d.(t := Step(d.t, DestGets(io), id, c), back := d.back + fs,
           home := HomeCrossed(d, if d.t.phase == Pending(0) then c in d.t.dst else !Clean(fs, c)))
    case AtDest(e) =>
      if !e.Slot? then d
      else
        var fs := DestSlotEvent(d.t.dst, id, e).frames;
        d.(t := Step(d.t, DestDoes(e), id, c), back := d.back + fs, home := HomeCrossed(d, !Clean(fs, c)),
           heard := if d.t.phase == Live then d.heard + Hears(d.t.dst, e, c) else d.heard)
  }

  function Moves(d: Duplex, ms: seq<Move>, id: byte, c: nat): Duplex
    decreases |ms|
  {
    if ms == [] then d else Moves(Move1(d, ms[0], id, c), ms[1..], id, c)
  }

  // ---------------------------------------------------------------- frames on their way back

  /** Nothing in `q` concerns connection `c`. */
  predicate Clean(q: seq<Frame>, c: nat) {
    forall i :: 0 <= i < |q| ==> !IsEnd(q[i], c) && !IsData(q[i], c)
  }

  /** `q` closes connection `c` once, and nothing after that concerns it. */
  predicate EndsOnce(q: seq<Frame>, c: nat)
    decreases |q|
  {
    q != [] && if IsEnd(q[0], c) then q[0].ftype == F_TCLOSE && Clean(q[1..], c) else EndsOnce(q[1..], c)
  }

  lemma {:induction false} CleanMeans(q: seq<Frame>, c: nat)
    requires Clean(q, c)
    ensures NoEnd(q, c) && InFlight(q, c) == []
    decreases |q|
  {
    hide IsEnd, IsData;
    if q != [] {
      CleanMeans(q[1..], c);
    }
  }

  lemma CleanAppend(p: seq<Frame>, q: seq<Frame>, c: nat)
    requires Clean(p, c) && Clean(q, c)
    ensures Clean(p + q, c)
  {
    hide IsEnd, IsData;
  }

  lemma {:induction false} EndsAppend(p: seq<Frame>, q: seq<Frame>, c: nat)
    requires (NoEnd(p, c) && EndsOnce(q, c)) || (EndsOnce(p, c) && Clean(q, c))
    ensures EndsOnce(p + q, c)
    decreases |p|
  {
    hide IsEnd, IsData;
    if p == [] {
      assert p + q == q;
    } else {
      assert (p + q)[0] == p[0] && (p + q)[1..] == p[1..] + q;
      if IsEnd(p[0], c) {
        CleanAppend(p[1..], q, c);
      } else {
        EndsAppend(p[1..], q, c);
      }
    }
  }

  lemma {:induction false} EndsMeans(q: seq<Frame>, c: nat)
    requires EndsOnce(q, c)
    ensures !NoEnd(q, c)
    decreases |q|
  {
    hide IsEnd, IsData;
    if !IsEnd(q[0], c) {
      EndsMeans(q[1..], c);
      var i :| 0 <= i < |q[1..]| && IsEnd(q[1..][i], c);
      assert IsEnd(q[i + 1], c);
    }
  }

  // ---------------------------------------------------------------- what the destination sends back

  lemma CloseEnds(id: byte, slot: nat, c: nat)
    requires slot < MAX_TCP_CONNS
    ensures var fs := [CloseFrame(id, slot)];
            && (slot == c ==> EndsOnce(fs, c) && InFlight(fs, c) == [] && TellsClose(fs, c))
            && (slot != c ==> Clean(fs, c))
  {
    CidOfPacked(slot, []);
    var fs := [CloseFrame(id, slot)];
    assert fs[1..] == [];
    assert fs[0].ftype == F_TCLOSE && CidOf(fs[0].payload) == Some(slot);
  }

  lemma {:induction false} ChunksClean(id: byte, slot: nat, data: seq<byte>, c: nat)
    requires slot < MAX_TCP_CONNS && slot != c
    ensures Clean(ChunkFrames(id, slot, data), c)
    decreases |data|
  {
    hide CidOf;
    if data != [] {
      var end := Min(MAX_PAYLOAD - 2, |data|);
      ChunksClean(id, slot, data[end..], c);
      CidOfPacked(slot, data[..end]);
    }
  }

  lemma {:induction false} ReadConnClean(id: byte, slot: nat, inputs: seq<Read>, c: nat)
    requires slot < MAX_TCP_CONNS && slot != c
    ensures Clean(ReadConn(id, slot, inputs).0, c)
    decreases |inputs|
  {
    hide ChunkFrames, Clean;
    NothingClean(c);
    if inputs != [] && inputs[0].Data? && inputs[0].bytes != [] {
      ReadConnClean(id, slot, inputs[1..], c);
      ChunksClean(id, slot, inputs[0].bytes, c);
      CleanAppend(ChunkFrames(id, slot, inputs[0].bytes), ReadConn(id, slot, inputs[1..]).0, c);
    }
  }

  lemma NothingClean(c: nat)
    ensures Clean([], c)
  {
  }

  /** Reading slot `slot`: the frames carry what was read, and close the connection if its input ended. */
  lemma ReadSends(conns: map<nat, Conn>, id: byte, slot: nat, inputs: seq<Read>, c: nat)
    requires slot < MAX_TCP_CONNS && slot in conns
    ensures var o := ReadSlot(conns, true, id, slot, inputs);
            && (slot != c ==> Clean(o.frames, c) && (c in o.ch <==> c in conns))
            && (slot == c ==> InFlight(o.frames, c) == BytesRead(inputs))
            && (slot == c ==> if c in o.ch then NoEnd(o.frames, c) else EndsOnce(o.frames, c))
  {
    hide Clean, EndsOnce, InFlight, NoEnd, ReadConn;
    var (fs, eof) := ReadConn(id, slot, inputs);
    var close := CloseFrames(id, slot, eof);
    CloseEnds(id, slot, c);
    NothingClean(c);
    NothingInFlight(c);
    if slot != c {
      ReadConnClean(id, slot, inputs, c);
      CleanAppend(fs, close, c);
    } else {
      ReadConnCarries(id, slot, inputs, c);
      InFlightAppend(fs, close, c);
      NoEndAppend(fs, close, c);
      if eof {
        EndsAppend(fs, close, c);
      }
    }
  }

  /** Writing slot `slot`: only a failed write tells the source. */
  lemma WriteSends(conns: map<nat, Conn>, id: byte, slot: nat, w: Write, c: nat)
    requires slot < MAX_TCP_CONNS && slot in conns
    ensures var o := WriteSlot(conns, true, id, slot, w);
            && (slot != c || c in o.ch ==> Clean(o.frames, c))
            && (slot != c ==> (c in o.ch <==> c in conns))
            && (slot == c && !conns[c].closePending && c !in o.ch ==> o.frames == [CloseFrame(id, c)])
            && (slot == c && !conns[c].closePending && !conns[c].connecting ==>
                  (c !in o.ch <==> w == WriteFailed && conns[c].txbuf != []))
            && (c in o.ch && slot == c ==>
                  o.ch[c].closePending == conns[c].closePending && o.ch[c].connecting == conns[c].connecting)
  {
    hide Clean;
    CloseEnds(id, slot, c);
    NothingClean(c);
  }

  /** What a readiness event at the destination sends back for connection `c`. */
  lemma DestEventSends(conns: map<nat, Conn>, id: byte, e: ChannelEvent, c: nat)
    requires e.Slot?
    ensures var o := DestSlotEvent(conns, id, e);
            && (c !in conns ==> c !in o.ch && Clean(o.frames, c))
            && (c in conns && !conns[c].closePending ==>
                  && InFlight(o.frames, c) == Hears(conns, e, c)
                  && if c in o.ch then NoEnd(o.frames, c) else EndsOnce(o.frames, c))
  {
    hide ReadSlot, WriteSlot, Clean, EndsOnce, InFlight, NoEnd, BytesRead;
    NothingClean(c);
    NothingInFlight(c);
    if e.slot in conns && e.slot < MAX_TCP_CONNS {
      var s, x := e.slot, conns[e.slot];
      CloseEnds(id, s, c);
      if x.connecting && e.writable && !e.connected {
        if s != c {
          CleanMeans([CloseFrame(id, s)], c);
        }
      } else {
        var joined := if e.writable then conns[s := x.(connecting := false)] else conns;
        var w := if e.writable then WriteSlot(joined, true, id, s, e.write) else Quiet(joined);
        if e.writable {
          WriteSends(joined, id, s, e.write, c);
        }
        if Clean(w.frames, c) {
          CleanMeans(w.frames, c);
        }
        if s in w.ch && e.readable && !w.ch[s].connecting && !w.ch[s].closePending {
          ReadSends(w.ch, id, s, e.inputs, c);
          var r := ReadSlot(w.ch, true, id, s, e.inputs);
          JoinSends(w.frames, r.frames, c);
          if s != c {
            CleanMeans(w.frames + r.frames, c);
          }
        }
      }
    }
  }

  lemma JoinSends(p: seq<Frame>, q: seq<Frame>, c: nat)
    requires Clean(p, c)
    ensures Clean(q, c) ==> Clean(p + q, c)
    ensures InFlight(p + q, c) == InFlight(q, c)
    ensures NoEnd(q, c) ==> NoEnd(p + q, c)
    ensures EndsOnce(q, c) ==> EndsOnce(p + q, c)
  {
    hide Clean, EndsOnce, InFlight, NoEnd;
    CleanMeans(p, c);
    InFlightAppend(p, q, c);
    NoEndAppend(p, q, c);
    if Clean(q, c) {
      CleanAppend(p, q, c);
    }
    if EndsOnce(q, c) {
      EndsAppend(p, q, c);
    }
  }

  /** What handling a frame at the destination sends back for connection `c`. */
  lemma DestFrameSends(conns: map<nat, Conn>, id: byte, f: Frame, io: Io, c: nat)
    requires c < MAX_TCP_CONNS
    ensures var o := DestOnFrame(conns, id, f, io);
            && (!IsEnd(f, c) && c !in conns ==> c !in o.ch && Clean(o.frames, c))
            && (!IsEnd(f, c) && c in conns ==>
                  if c in o.ch then Clean(o.frames, c) else EndsOnce(o.frames, c) && InFlight(o.frames, c) == [])
            && (IsEnd(f, c) && f.ftype == F_TCONN && c !in conns ==>
                  if c in o.ch then Clean(o.frames, c) else EndsOnce(o.frames, c) && InFlight(o.frames, c) == [])
            && (IsEnd(f, c) && (f.ftype == F_TCLOSE || c in conns) ==> o.frames == [])
  {
    hide Clean, EndsOnce, InFlight;
    NothingClean(c);
    if CidOf(f.payload).Some? {
      CloseEnds(id, CidOf(f.payload).value, c);
    }
  }

  // ---------------------------------------------------------------- what happens to the source slot

  /** What a readiness event at the source does to the slot of connection `c`. */
  lemma SourceEventAt(s: TcpSource, id: byte, e: ChannelEvent, c: nat)
    requires s.linkUp && c in s.conns
    ensures var o := SourceEvent(s, id, e);
            && o.ch.linkUp
            && (c in o.ch.conns ==>
                  && o.ch.conns[c].closePending == s.conns[c].closePending
                  && s.conns[c].txbuf == HandsOver(s.conns, e, c) + o.ch.conns[c].txbuf)
            && (c !in o.ch.conns && !TellsClose(o.frames, c) ==>
                  s.conns[c].closePending && s.conns[c].txbuf == HandsOver(s.conns, e, c))
  {
    hide ReadSlot, WriteSlot, Accept, TellsClose;
    if e.Listener? {
      AcceptSpares(s, id, e.registered, c);
      AcceptLinked(s, id, e.registered);
    } else if e.Slot? && e.slot == c && c < MAX_TCP_CONNS {
      var first := e.readable && !s.conns[c].closePending;
      var r := if first then ReadSlot(s.conns, true, id, c, e.inputs) else Quiet(s.conns);
      ReadAtSlot(s.conns, id, c, e.inputs);
      ReadEnds(s.conns, id, c, e.inputs);
      if e.writable && c in r.ch {
        HomeWrite(r.ch, id, c, e.write);
        AppendTells(r.frames, WriteSlot(r.ch, true, id, c, e.write).frames, c);
      }
    } else if e.Slot? {
      OtherSourceSlots(s.conns, s.linkUp, id, e, c);
    }
  }

  lemma {:induction false} AcceptLinked(s: TcpSource, id: byte, registered: seq<bool>)
    ensures Accept(s, id, registered).ch.linkUp == s.linkUp
    decreases |registered|
  {
    if registered != [] {
      var (slot, next) := AllocSlot(s.conns, s.nextSlot, MAX_TCP_CONNS);
      if !s.linkUp {
        AcceptLinked(s, id, registered[1..]);
      } else if slot.None? || !registered[0] {
        AcceptLinked(s.(nextSlot := next), id, registered[1..]);
      } else {
        AcceptLinked(s.(nextSlot := next, conns := s.conns[slot.value := Conn([], false, false)]), id, registered[1..]);
      }
    }
  }

  /** Whether a read ends does not depend on the channel. */
  lemma {:induction false} ReadFlag(id: byte, slot: nat, inputs: seq<Read>)
    requires slot < MAX_TCP_CONNS
    ensures ReadConn(id, slot, inputs).1 == ReadConn(0, slot, inputs).1
    decreases |inputs|
  {
    if inputs != [] {
      ReadFlag(id, slot, inputs[1..]);
    }
  }

  lemma ReadEnds(conns: map<nat, Conn>, id: byte, c: nat, inputs: seq<Read>)
    requires c < MAX_TCP_CONNS && c in conns
    ensures c in ReadSlot(conns, true, id, c, inputs).ch <==> !ReadConn(0, c, inputs).1
  {
    hide ReadConn;
    ReadFlag(id, c, inputs);
  }

  lemma HomeWrite(conns: map<nat, Conn>, id: byte, c: nat, w: Write)
    requires c in conns && c < MAX_TCP_CONNS
    ensures var o := WriteSlot(conns, true, id, c, w);
            var put := if w.Wrote? && !conns[c].connecting then conns[c].txbuf[..Min(w.n, |conns[c].txbuf|)] else [];
            && (c in o.ch ==> o.ch[c].closePending == conns[c].closePending && conns[c].txbuf == put + o.ch[c].txbuf)
            && (c !in o.ch && !TellsClose(o.frames, c) ==> conns[c].closePending && conns[c].txbuf == put)
  {
    CloseEnds(id, c, c);
  }

  lemma OtherSourceSlots(conns: map<nat, Conn>, notify: bool, id: byte, e: ChannelEvent, c: nat)
    requires e.Slot? && c in conns && (e.slot != c || c >= MAX_TCP_CONNS)
    ensures var o := SourceSlotEvent(conns, notify, id, e); c in o.ch && o.ch[c] == conns[c]
  {
  }

  /** What a frame does to the source slot of connection `c`. */
  lemma FrameAtHome(conns: map<nat, Conn>, id: byte, f: Frame, c: nat)
    requires c in conns && c < MAX_TCP_CONNS
    ensures var o := SlotOnFrame(conns, true, id, f);
            && (!IsData(f, c) && !IsClose(f, c) ==> c in o.ch && o.ch[c] == conns[c])
            && (IsData(f, c) ==> (c in o.ch <==> TakesData(conns[c], DataOf(f))))
            && (IsData(f, c) && c in o.ch ==> o.ch[c] == conns[c].(txbuf := conns[c].txbuf + DataOf(f)))
            && (IsData(f, c) && c !in o.ch ==> TellsClose(o.frames, c))
            && (IsClose(f, c) ==>
                  if conns[c].txbuf == [] then c !in o.ch && !TellsClose(o.frames, c)
                  else c in o.ch && o.ch[c] == conns[c].(closePending := true))
  {
    CloseEnds(id, c, c);
    if IsData(f, c) && DataOf(f) == [] {
      assert conns[c].txbuf + DataOf(f) == conns[c].txbuf;
    }
  }

  // ---------------------------------------------------------------- fidelity

  /** While the source slot is open, by the fate of the destination slot. */
  ghost predicate Homeward(d: Duplex, c: nat)
    requires c in d.t.src.conns
  {
    var x := d.t.src.conns[c];
    match d.t.phase
    case Pending(k) =>
      Clean(d.back, c) && d.heard == [] && d.handed == [] && x.txbuf == [] && !x.closePending
    case Live => !x.closePending && NoEnd(d.back, c) && d.heard == d.handed + x.txbuf + InFlight(d.back, c)
    case Aborted =>
      && c !in d.t.dst && NoEnd(d.t.fifo, c)
      && (if x.closePending then Clean(d.back, c) && d.heard == d.handed + x.txbuf
          else EndsOnce(d.back, c) && d.heard == d.handed + x.txbuf + InFlight(d.back, c))
    case _ => false
  }

  ghost predicate Keeps(d: Duplex, c: nat) {
    && c < MAX_TCP_CONNS && TcpTunnel.Inv(d.t, c) && d.t.src.linkUp
    && (d.home == Live ==> d.t.srcOpen && c in d.t.src.conns && Homeward(d, c))
    && (d.home == Drained ==> d.t.phase == Aborted && d.handed == d.heard)
  }

  lemma AtSourceKeeps(d: Duplex, e: ChannelEvent, id: byte, c: nat)
    requires Keeps(d, c)
    ensures Keeps(Move1(d, AtSource(e), id, c), c)
  {
    hide TcpTunnel.Inv, SourceEvent, TellsClose, InFlight, NoEnd, Clean, EndsOnce, HandsOver;
    TcpTunnel.StepKeeps(d.t, SourceDoes(e), id, c);
    SourceEventLinked(d.t.src, id, e);
    if d.home == Live {
      SourceEventAt(d.t.src, id, e, c);
      SourceEventCarries(d.t.src, id, e, c);
      var o := SourceEvent(d.t.src, id, e);
      var put := HandsOver(d.t.src.conns, e, c);
      if c in o.ch.conns {
        var x, y := d.t.src.conns[c], o.ch.conns[c];
        assert d.handed + x.txbuf == d.handed + put + y.txbuf;
        NoEndAppend(d.t.fifo, o.frames, c);
      }
    }
  }

  lemma SourceEventLinked(s: TcpSource, id: byte, e: ChannelEvent)
    ensures SourceEvent(s, id, e).ch.linkUp == s.linkUp
  {
    hide Accept, SourceSlotEvent;
    if e.Listener? {
      AcceptLinked(s, id, e.registered);
    }
  }

  lemma SourceTakesKeeps(d: Duplex, id: byte, c: nat)
    requires Keeps(d, c) && d.back != []
    ensures Keeps(Move1(d, SourceTakes, id, c), c)
  {
    hide TcpTunnel.Inv, SlotOnFrame, TellsClose, InFlight, NoEnd, CidOf, DataOf;
    var f := d.back[0];
    TcpTunnel.StepKeeps(d.t, SourceGets(f), id, c);
    if d.home == Live {
      FrameAtHome(d.t.src.conns, id, f, c);
      SourceFrameCarries(d.t.src.conns, true, id, f, c);
      var o := SlotOnFrame(d.t.src.conns, true, id, f);
      var x := d.t.src.conns[c];
      InFlightCons(d.back, c);
      NoEndAppend(d.t.fifo, o.frames, c);
      Assoc(d.handed + x.txbuf, DataOf(f), InFlight(d.back[1..], c));
      Assoc(d.handed, x.txbuf, DataOf(f));
    }
  }

  lemma DestTakesKeeps(d: Duplex, io: Io, id: byte, c: nat)
    requires Keeps(d, c) && d.t.fifo != []
    ensures Keeps(Move1(d, DestTakes(io), id, c), c)
  {
    hide DestOnFrame, TellsClose, InFlight, NoEnd, CidOf, EndsOnce, Clean;
    var f := d.t.fifo[0];
    var o := DestOnFrame(d.t.dst, id, f, io);
    TcpTunnel.StepKeeps(d.t, DestGets(io), id, c);
    if d.home == Live {
      DestFrameSends(d.t.dst, id, f, io, c);
      InFlightCons(d.t.fifo, c);
      BackGrows(d.back, o.frames, c);
      if d.t.phase == Pending(0) {
        assert d.t.fifo[0 + 1..] == d.t.fifo[1..];
      } else if d.t.phase.Live? {
        FrameAtSlot(d.t.dst, id, f, io, c);
      }
    }
  }

  /** How frames sent back extend what is on its way. */
  lemma BackGrows(p: seq<Frame>, q: seq<Frame>, c: nat)
    ensures Clean(p, c) ==> NoEnd(p, c) && InFlight(p, c) == []
    ensures Clean(q, c) ==> NoEnd(q, c) && InFlight(q, c) == []
    ensures Clean(p, c) && Clean(q, c) ==> Clean(p + q, c)
    ensures NoEnd(p, c) && NoEnd(q, c) ==> NoEnd(p + q, c)
    ensures NoEnd(p, c) ==> InFlight(p + q, c) == InFlight(p, c) + InFlight(q, c)
    ensures NoEnd(p, c) && EndsOnce(q, c) ==> EndsOnce(p + q, c)
    ensures EndsOnce(p, c) ==> InFlight(p + q, c) == InFlight(p, c)
    ensures EndsOnce(p, c) && Clean(q, c) ==> EndsOnce(p + q, c)
  {
    hide Clean, EndsOnce, InFlight, NoEnd;
    if Clean(p, c) {
      CleanMeans(p, c);
    }
    if Clean(q, c) {
      CleanMeans(q, c);
    }
    if Clean(p, c) && Clean(q, c) {
      CleanAppend(p, q, c);
    }
    NoEndAppend(p, q, c);
    InFlightAppend(p, q, c);
    if EndsOnce(p, c) {
      EndsMeans(p, c);
    }
    if (NoEnd(p, c) && EndsOnce(q, c)) || (EndsOnce(p, c) && Clean(q, c)) {
      EndsAppend(p, q, c);
    }
  }

  lemma AtDestKeeps(d: Duplex, e: ChannelEvent, id: byte, c: nat)
    requires Keeps(d, c) && e.Slot?
    ensures Keeps(Move1(d, AtDest(e), id, c), c)
  {
    hide DestSlotEvent, TellsClose, InFlight, NoEnd, EndsOnce, Clean, Hears;
    var o := DestSlotEvent(d.t.dst, id, e);
    TcpTunnel.StepKeeps(d.t, DestDoes(e), id, c);
    if d.home == Live {
      DestEventSends(d.t.dst, id, e, c);
      BackGrows(d.back, o.frames, c);
      if d.t.phase.Live? {
        EventAtSlot(d.t.dst, id, e, c);
        Assoc(d.handed + d.t.src.conns[c].txbuf, InFlight(d.back, c), InFlight(o.frames, c));
      }
    }
  }

  lemma MoveKeeps(d: Duplex, m: Move, id: byte, c: nat)
    requires Keeps(d, c)
    ensures Keeps(Move1(d, m, id, c), c)
  {
    hide Keeps;
    match m
    case AtSource(e) => AtSourceKeeps(d, e, id, c);
    case SourceTakes =>
      if d.back != [] {
        SourceTakesKeeps(d, id, c);
      }
    case DestTakes(io) =>
      if d.t.fifo != [] {
        DestTakesKeeps(d, io, id, c);
      }
    case AtDest(e) =>
      if e.Slot? {
        AtDestKeeps(d, e, id, c);
      }
  }

  lemma {:induction false} MovesKeep(d: Duplex, ms: seq<Move>, id: byte, c: nat)
    requires Keeps(d, c)
    ensures Keeps(Moves(d, ms, id, c), c)
    decreases |ms|
  {
    hide Keeps, Move1;
    if ms != [] {
      MoveKeeps(d, ms[0], id, c);
      MovesKeep(Move1(d, ms[0], id, c), ms[1..], id, c);
    }
  }

  /** A connection has just been accepted. */
  ghost predicate Begins(d: Duplex, c: nat) {
    && c < MAX_TCP_CONNS && Accepted(d.t, c) && d.t.src.linkUp && d.t.src.conns[c] == Conn([], false, false)
    && d.heard == [] && d.handed == [] && d.home == if Clean(d.back, c) then Live else Overrun
  }

  /** Fidelity of the way back: in every run from the acceptance of a connection, until an earlier incarnation
      of its id gets in the way, the bytes written at the source, buffered there and on their way are exactly
      the bytes read at the destination, in order; nothing else is ever written; and when the destination
      has closed and the source slot goes by draining, every byte read had been written. */
  lemma ReturnFidelity(d: Duplex, ms: seq<Move>, id: byte, c: nat)
    requires Begins(d, c)
    ensures var u := Moves(d, ms, id, c);
            && (u.home == Live ==> c in u.t.src.conns && u.handed + u.t.src.conns[c].txbuf <= u.heard)
            && (u.home == Live && !u.t.src.conns[c].closePending ==>
                  u.heard == u.handed + u.t.src.conns[c].txbuf + InFlight(u.back, c))
            && (u.home == Live && u.t.src.conns[c].closePending ==> u.heard == u.handed + u.t.src.conns[c].txbuf)
            && (u.home == Drained ==> u.handed == u.heard)
  {
    hide Moves, InFlight, Clean, EndsOnce;
    assert Keeps(d, c);
    MovesKeep(d, ms, id, c);
    var u := Moves(d, ms, id, c);
    if u.home == Live && u.t.phase.Pending? {
      CleanMeans(u.back, c);
    }
  }

  /** The caution is needed: data of an earlier incarnation that is still on its way when its id is taken
      again ends up in the new connection, which never read it. */
  lemma OldDataCrosses(d: Duplex, id: byte, c: nat)
    requires c < MAX_TCP_CONNS && c in d.t.src.conns && d.t.src.conns[c] == Conn([], false, false) && d.t.src.linkUp
    requires d.back != [] && IsData(d.back[0], c) && 0 < |DataOf(d.back[0])| <= MAX_PAYLOAD
    ensures var u := Move1(d, SourceTakes, id, c);
            c in u.t.src.conns && u.t.src.conns[c].txbuf == DataOf(d.back[0])
  {
    FrameAtHome(d.t.src.conns, id, d.back[0], c);
    assert [] + DataOf(d.back[0]) == DataOf(d.back[0]);
  }

  // ---------------------------------------------------------------- ids without a past

  /** A connection has just been accepted under an id of which no trace is left on either side. */
  ghost predicate FreshlyAccepted(d: Duplex, c: nat) {
    Begins(d, c) && c !in d.t.dst && NoEnd(d.t.fifo[..d.t.phase.ahead], c) && Clean(d.back, c)
  }

  /** No earlier incarnation is left that could get in the way. */
  ghost predicate Sheltered(d: Duplex, c: nat) {
    && d.home != Overrun
    && (d.home == Live && d.t.phase.Pending? ==>
          c !in d.t.dst && d.t.phase.ahead <= |d.t.fifo| && NoEnd(d.t.fifo[..d.t.phase.ahead], c))
  }

  lemma MoveShelters(d: Duplex, m: Move, id: byte, c: nat)
    requires Sheltered(d, c) && c < MAX_TCP_CONNS && TcpTunnel.Inv(d.t, c)
    ensures Sheltered(Move1(d, m, id, c), c)
  {
    hide SourceEvent, SlotOnFrame, DestOnFrame, DestSlotEvent, TellsClose, InFlight, NoEnd, Clean, HandsOver, Hears;
    if d.home == Live && d.t.phase.Pending? {
      var k := d.t.phase.ahead;
      match m
      case AtSource(e) =>
        assert (d.t.fifo + SourceEvent(d.t.src, id, e).frames)[..k] == d.t.fifo[..k];
      case SourceTakes =>
        if d.back != [] {
          var fs := SlotOnFrame(d.t.src.conns, d.t.src.linkUp, id, d.back[0]).frames;
          assert (d.t.fifo + fs)[..k] == d.t.fifo[..k];
        }
      case DestTakes(io) =>
        if k > 0 {
          InFlightCons(d.t.fifo[..k], c);
          DestFrameSends(d.t.dst, id, d.t.fifo[0], io, c);
          assert d.t.fifo[..k][1..] == d.t.fifo[1..][..k - 1];
        }
      case AtDest(e) =>
        if e.Slot? {
          DestEventSends(d.t.dst, id, e, c);
        }
    }
  }

  /** A connection accepted under such an id is never disturbed by an earlier one. */
  lemma {:induction false} FreshNeverCrossed(d: Duplex, ms: seq<Move>, id: byte, c: nat)
    requires Sheltered(d, c) && Keeps(d, c)
    ensures Moves(d, ms, id, c).home != Overrun
    decreases |ms|
  {
    hide Sheltered, Keeps, Move1;
    if ms == [] {
      ShelteredMeans(d, c);
    } else {
      KeepsTunnel(d, c);
      MoveShelters(d, ms[0], id, c);
      MoveKeeps(d, ms[0], id, c);
      FreshNeverCrossed(Move1(d, ms[0], id, c), ms[1..], id, c);
    }
  }

  lemma ShelteredMeans(d: Duplex, c: nat)
    requires Sheltered(d, c)
    ensures d.home != Overrun
  {
  }

  lemma KeepsTunnel(d: Duplex, c: nat)
    requires Keeps(d, c)
    ensures c < MAX_TCP_CONNS && TcpTunnel.Inv(d.t, c)
  {
  }

  /** So from an unused id the fidelity of the way back is unconditional. */
  lemma FreshReturns(d: Duplex, ms: seq<Move>, id: byte, c: nat)
    requires FreshlyAccepted(d, c)
    ensures Moves(d, ms, id, c).home != Overrun
  {
    hide Moves, InFlight, EndsOnce;
    assert Keeps(d, c);
    FreshNeverCrossed(d, ms, id, c);
  }

  /** The state right after a listener event has accepted a batch, followed for slot `c`. */
  function AfterAccept(d: Duplex, registered: seq<bool>, id: byte, c: nat, at: nat): Duplex {
    var r := Accept(d.t.src, id, registered);
    Duplex(d.t.(src := r.ch, fifo := d.t.fifo + r.frames, srcOpen := true, read := [], written := [],
                phase := Pending(|d.t.fifo| + at)),
           d.back, [], [], if Clean(d.back, c) then Live else Overrun)
  }

  /** Every connection that a listener event accepts starts in the state from which fidelity is stated, and
      if its id was unused in the undisturbed one. */
  lemma AcceptBegins(d: Duplex, registered: seq<bool>, id: byte, c: nat) returns (at: nat)
    requires c !in d.t.src.conns && c in Accept(d.t.src, id, registered).ch.conns && d.t.src.linkUp
    requires c < MAX_TCP_CONNS
    ensures var b := AfterAccept(d, registered, id, c, at);
            && Begins(b, c)
            && (c !in d.t.dst && NoEnd(d.t.fifo, c) && Clean(d.back, c) ==> FreshlyAccepted(b, c))
  {
    hide CidOf, InFlight, NoEnd, Accept, Clean;
    at := AcceptAnnounces(d.t.src, id, registered, c);
    AcceptLinked(d.t.src, id, registered);
    var fs := Accept(d.t.src, id, registered).frames;
    assert (d.t.fifo + fs)[|d.t.fifo| + at] == fs[at];
    assert (d.t.fifo + fs)[|d.t.fifo| + at + 1..] == fs[at + 1..];
    assert (d.t.fifo + fs)[..|d.t.fifo| + at] == d.t.fifo + fs[..at];
    NoEndAppend(d.t.fifo, fs[..at], c);
  }
}
