/** The byte stream of a session: what the daemon puts on the link between opening and closing it is
    HELLO followed by exactly the frames its handlers produced, so a peer that starts from a reset parser
    receives exactly those frames. */
module Outbound {
  import opened Bytes
  import opened Streaming
  import opened LinkFrame
  import opened TxQueue
  import opened Channels
  import opened Session
  import opened Daemon

  // ---------------------------------------------------------------- no handler builds an oversize frame

  lemma {:induction false} ChunksFit(id: byte, slot: nat, data: seq<byte>)
    requires slot < MAX_TCP_CONNS
    ensures Fit(ChunkFrames(id, slot, data))
    decreases |data|
  {
    if data != [] {
      ChunksFit(id, slot, data[Min(MAX_PAYLOAD - 2, |data|)..]);
    }
  }

  lemma {:induction false} ReadConnFits(id: byte, slot: nat, inputs: seq<Read>)
    requires slot < MAX_TCP_CONNS
    ensures Fit(ReadConn(id, slot, inputs).0)
    decreases |inputs|
  {
    if inputs != [] && inputs[0].Data? && inputs[0].bytes != [] {
      ReadConnFits(id, slot, inputs[1..]);
      ChunksFit(id, slot, inputs[0].bytes);
      FitAppend(ChunkFrames(id, slot, inputs[0].bytes), ReadConn(id, slot, inputs[1..]).0);
    }
  }

  lemma {:induction false} AcceptFits(s: TcpSource, id: byte, registered: seq<bool>)
    ensures Fit(Accept(s, id, registered).frames)
    decreases |registered|
  {
    if registered != [] {
      var (slot, next) := AllocSlot(s.conns, s.nextSlot, MAX_TCP_CONNS);
      if !s.linkUp {
        AcceptFits(s, id, registered[1..]);
      } else if slot.None? || !registered[0] {
        AcceptFits(s.(nextSlot := next), id, registered[1..]);
      } else {
        AcceptFits(s.(nextSlot := next, conns := s.conns[slot.value := Conn([], false, false)]), id, registered[1..]);
      }
    }
  }

  lemma ReadSlotFits(conns: map<nat, Conn>, notify: bool, id: byte, slot: nat, inputs: seq<Read>)
    requires slot < MAX_TCP_CONNS
    ensures Fit(ReadSlot(conns, notify, id, slot, inputs).frames)
  {
    ReadConnFits(id, slot, inputs);
  }

  lemma WriteSlotFits(conns: map<nat, Conn>, notify: bool, id: byte, slot: nat, w: Write)
    requires slot in conns && slot < MAX_TCP_CONNS
    ensures Fit(WriteSlot(conns, notify, id, slot, w).frames)
  {
  }

  lemma SlotFits(conns: map<nat, Conn>, notify: bool, id: byte, e: ChannelEvent)
    requires e.Slot?
    ensures Fit(SourceSlotEvent(conns, notify, id, e).frames) && Fit(DestSlotEvent(conns, id, e).frames)
  {
    hide ReadSlot, WriteSlot;
    if e.slot in conns && e.slot < MAX_TCP_CONNS {
      var c := conns[e.slot];
      ReadSlotFits(conns, notify, id, e.slot, e.inputs);
      var r := if e.readable && !c.closePending then ReadSlot(conns, notify, id, e.slot, e.inputs) else Quiet(conns);
      if e.slot in r.ch {
        WriteSlotFits(r.ch, notify, id, e.slot, e.write);
      }
      var joined := if e.writable then conns[e.slot := c.(connecting := false)] else conns;
      WriteSlotFits(joined, true, id, e.slot, e.write);
      var w := if e.writable then WriteSlot(joined, true, id, e.slot, e.write) else Quiet(joined);
      ReadSlotFits(w.ch, true, id, e.slot, e.inputs);
    }
  }

  lemma EventFits(ch: Channel, id: byte, e: ChannelEvent)
    ensures Fit(HandleEvent(ch, id, e).frames)
  {
    hide SourceSlotEvent, DestSlotEvent, Accept;
    if ch.SourceCh? && e.Listener? {
      AcceptFits(ch.src, id, e.registered);
    } else if e.Slot? && ch.SourceCh? {
      SlotFits(ch.src.conns, ch.src.linkUp, id, e);
    } else if e.Slot? && ch.DestCh? {
      SlotFits(ch.dst.conns, true, id, e);
    }
  }

  lemma {:induction false} BroadcastFits(chans: map<byte, Channel>, ids: seq<byte>)
    ensures Fit(Broadcast(chans, ids).frames)
    decreases |ids|
  {
    if ids != [] {
      if ids[0] !in chans {
        BroadcastFits(chans, ids[1..]);
      } else {
        BroadcastFits(chans[ids[0] := OnLinkConnect(chans[ids[0]], ids[0]).ch], ids[1..]);
      }
    }
  }

  lemma ReceiveFits(n: Node, f: Frame, io: Io)
    ensures Fit(Receive(n, f, io).frames)
  {
    hide Broadcast;
    BroadcastFits(n.chans, n.order);
  }

  // ---------------------------------------------------------------- the frames of a step

  function Checked(d: Daemon, f: Frame): Daemon {
    if f.ftype == F_DATA || f.ftype == F_TDATA then CheckBpHigh(d) else d
  }

  /** On an open link, dispatching a frame is the frame-level reaction of the session, its replies queued
      one after the other. */
  lemma DispatchIsReceive(d: Daemon, f: Frame, io: Io)
    requires d.fd && !d.disconnected
    ensures var r, e := Receive(Checked(d, f).node, f, io), DispatchFrame(d, f, io);
            && e.node == r.node && e.txq == PushAll(d.txq, r.frames)
            && e.sent == d.sent && e.fd && !e.disconnected
  {
    hide Build, LinkUp, OnFrame;
    PushOne(d.txq, PONG);
    if f.ftype == F_HELLO {
      PushOne(d.txq, ACK);
      PushAllAppend(d.txq, [ACK], LinkUp(d.node).frames);
    }
  }

  lemma PushOne(q: seq<byte>, f: Frame)
    ensures PushAll(q, [f]) == Push(q, Build(f)) && PushAll(q, []) == q
  {
    hide Build;
    assert [f][1..] == [];
  }

  lemma {:induction false} PushAllAppend(q: seq<byte>, a: seq<Frame>, b: seq<Frame>)
    ensures PushAll(q, a + b) == PushAll(PushAll(q, a), b)
    decreases |a|
  {
    hide Build;
    if a == [] {
      assert a + b == b;
    } else {
      assert (a + b)[0] == a[0] && (a + b)[1..] == a[1..] + b;
      PushAllAppend(Push(q, Build(a[0])), a[1..], b);
    }
  }

  function IoOf(ios: seq<Io>, now: int): Io {
    if ios == [] then Io(now, true, true, WouldBlock) else ios[0]
  }

  function Rest(ios: seq<Io>): seq<Io> {
    if ios == [] then [] else ios[1..]
  }

  function DispatchEmits(d: Daemon, fs: seq<Frame>, ios: seq<Io>): seq<Frame>
    decreases |fs|
  {
    if fs == [] then []
    else
      Receive(Checked(d, fs[0]).node, fs[0], IoOf(ios, 0)).frames +
      DispatchEmits(DispatchFrame(d, fs[0], IoOf(ios, 0)), fs[1..], Rest(ios))
  }

  function TickEmits(d: Daemon, ids: seq<byte>, now: int, ios: seq<Io>): seq<Frame>
    decreases |ids|
  {
    if ids == [] then []
    else
      var r := TickOne(d.node, ids[0], now, IoOf(ios, now));
      r.frames + TickEmits(d.(node := r.node, txq := PushAll(d.txq, r.frames)), ids[1..], now, Rest(ios))
  }

  predicate Pings(d: Daemon, now: int) {
    d.node.up && d.lastTx.Some? && now - d.lastTx.value >= KA_INTERVAL && d.txq == []
  }

  /** The frames that a handler of a connected daemon offers to the transmit queue. */
  function Emits(d: Daemon, e: Event): seq<Frame> {
    match e
    case Timers(t) =>
      var kept := TickKeepalive(d, t.now, t.later);
      (if Pings(d, t.now) then [PING] else []) + TickEmits(kept, kept.node.order, t.now, t.ios)
    case Readable(read, ios, now) =>
      if read.Data? && read.bytes != [] then
        var r := Scan(d.parser + read.bytes);
        DispatchEmits(d.(lastRx := Some(now), parser := r.rest), r.out, ios)
      else []
    case Writable(_, _) => []
    case Channel(id, ce, _) => Happens(d.node, id, ce).frames
  }

  lemma {:induction false} DispatchAllQueues(d: Daemon, fs: seq<Frame>, ios: seq<Io>)
    requires d.fd && !d.disconnected
    ensures var e := DispatchAll(d, fs, ios);
            e.txq == PushAll(d.txq, DispatchEmits(d, fs, ios)) && e.sent == d.sent && Fit(DispatchEmits(d, fs, ios))
    decreases |fs|
  {
    hide DispatchFrame, Receive, PushAll, Fit;
    if fs == [] {
      PushOne(d.txq, PONG);
      NothingFits();
    } else {
      var io := IoOf(ios, 0);
      var r := Receive(Checked(d, fs[0]).node, fs[0], io);
      var next := DispatchFrame(d, fs[0], io);
      DispatchIsReceive(d, fs[0], io);
      ReceiveFits(Checked(d, fs[0]).node, fs[0], io);
      DispatchAllQueues(next, fs[1..], Rest(ios));
      PushAllAppend(d.txq, r.frames, DispatchEmits(next, fs[1..], Rest(ios)));
      FitAppend(r.frames, DispatchEmits(next, fs[1..], Rest(ios)));
    }
  }

  lemma TickFits(n: Node, id: byte, now: int, io: Io)
    ensures Fit(TickOne(n, id, now, io).frames)
  {
  }

  lemma {:induction false} TicksQueue(d: Daemon, ids: seq<byte>, now: int, ios: seq<Io>)
    ensures var e := TickChannels(d, ids, now, ios);
            e.txq == PushAll(d.txq, TickEmits(d, ids, now, ios)) && e.sent == d.sent && Fit(TickEmits(d, ids, now, ios))
    decreases |ids|
  {
    hide TickOne, PushAll, Fit;
    if ids == [] {
      PushOne(d.txq, PONG);
      NothingFits();
    } else {
      var io := IoOf(ios, now);
      var r := TickOne(d.node, ids[0], now, io);
      var next := d.(node := r.node, txq := PushAll(d.txq, r.frames));
      TickFits(d.node, ids[0], now, io);
      TicksQueue(next, ids[1..], now, Rest(ios));
      PushAllAppend(d.txq, r.frames, TickEmits(next, ids[1..], now, Rest(ios)));
      FitAppend(r.frames, TickEmits(next, ids[1..], now, Rest(ios)));
    }
  }

  // ---------------------------------------------------------------- the stream of a session

  /** Everything handed over for the link since it was opened. */
  function Stream(d: Daemon): seq<byte> {
    d.sent + d.txq
  }

  lemma ReadStream(d: Daemon, read: Read, ios: seq<Io>, now: int)
    requires !d.disconnected && d.fd && !LinkRead(d, read, ios, now).disconnected
    ensures var e, out := LinkRead(d, read, ios, now), Emits(d, Readable(read, ios, now));
            e.sent == d.sent && e.txq == PushAll(d.txq, out) && Fit(out)
  {
    hide Build, Scan, DispatchAll, DispatchEmits, PushAll;
    PushOne(d.txq, PONG);
    if read.Data? && read.bytes != [] {
      var r := Scan(d.parser + read.bytes);
      DispatchAllQueues(d.(lastRx := Some(now), parser := r.rest), r.out, ios);
    }
  }

  lemma TimerStream(d: Daemon, t: TickIo)
    requires !d.disconnected && d.fd && !TickPhase(d, t).disconnected
    ensures var e, out := TickPhase(d, t), Emits(d, Timers(t));
            e.sent == d.sent && e.txq == PushAll(d.txq, out) && Fit(out)
  {
    hide Build, TickChannels, TickEmits, PushAll, Fit;
    var kept := TickKeepalive(d, t.now, t.later);
    var ticks := TickEmits(kept, kept.node.order, t.now, t.ios);
    TicksQueue(kept, kept.node.order, t.now, t.ios);
    TicksFill(kept, kept.node.order, t.now, t.ios);
    PushOne(d.txq, PING);
    if Pings(d, t.now) {
      PushAllAppend(d.txq, [PING], ticks);
      EmptyFits(PING);
      FitAppend([PING], ticks);
    } else {
      assert [] + ticks == ticks;
    }
  }

  lemma EmptyFits(f: Frame)
    requires f.payload == []
    ensures Fit([f])
  {
  }

  /** Every handler that leaves the link open only appends its own frames to the stream, each whole or
      not at all, and none of them oversize. */
  lemma StepStream(d: Daemon, e: Event)
    requires !d.disconnected && d.fd && !Step(d, e).disconnected
    ensures Stream(Step(d, e)) == d.sent + PushAll(d.txq, Emits(d, e)) && Fit(Emits(d, e))
  {
    hide Build, TickPhase, LinkRead, Happens, PushAll, Fit, CloseLink;
    match e
    case Timers(t) => TimerStream(d, t);
    case Readable(read, ios, now) => ReadStream(d, read, ios, now);
    case Writable(w, now) =>
      NothingFits();
      PushOne(d.txq, PONG);
      WriteStream(d, w, now);
    case Channel(id, ce, now) => HappensFits(d.node, id, ce);
  }

  lemma WriteStream(d: Daemon, w: Write, now: int)
    requires !d.disconnected && !LinkWrite(d, w, now).disconnected
    ensures Stream(LinkWrite(d, w, now)) == Stream(d)
  {
    var k := if w.Wrote? then Min(w.n, |d.txq|) else 0;
    assert d.sent + d.txq[..k] + d.txq[k..] == d.sent + d.txq;
  }

  lemma HappensFits(n: Node, id: byte, e: ChannelEvent)
    ensures Fit(Happens(n, id, e).frames)
  {
    hide HandleEvent;
    if id in n.chans {
      EventFits(n.chans[id], id, e);
    }
  }

  /** The link stays open throughout, and each handler's frames fit the queue together. */
  predicate OpenRun(d: Daemon, events: seq<Event>)
    decreases |events|
  {
    && !d.disconnected && d.fd
    && (events != [] ==>
          && |d.txq| + |Flat(BuildAll(Emits(d, events[0])))| <= QUEUE_CAP
          && OpenRun(Step(d, events[0]), events[1..]))
  }

  function After(d: Daemon, events: seq<Event>): Daemon
    decreases |events|
  {
    if events == [] then d else After(Step(d, events[0]), events[1..])
  }

  function AllEmits(d: Daemon, events: seq<Event>): seq<Frame>
    decreases |events|
  {
    if events == [] then [] else Emits(d, events[0]) + AllEmits(Step(d, events[0]), events[1..])
  }

  lemma {:induction false} RunStream(d: Daemon, events: seq<Event>)
    requires OpenRun(d, events) && |d.txq| <= QUEUE_CAP
    ensures Stream(After(d, events)) == Stream(d) + Flat(BuildAll(AllEmits(d, events))) && Fit(AllEmits(d, events))
    decreases |events|
  {
    hide Step, Emits, Build, PushAll, BuildAll, Fit;
    if events == [] {
      NothingFits();
      NothingFlat();
      assert Stream(d) + [] == Stream(d);
    } else {
      var next, out, more := Step(d, events[0]), Emits(d, events[0]), AllEmits(Step(d, events[0]), events[1..]);
      OpenRunStays(next, events[1..]);
      StepStream(d, events[0]);
      NothingDroppedIffRoom(d.txq, out);
      Assoc(d.sent, d.txq, Flat(BuildAll(out)));
      StepBound(d, events[0]);
      RunStream(next, events[1..]);
      FlatBuildAppend(out, more);
      Assoc(Stream(d), Flat(BuildAll(out)), Flat(BuildAll(more)));
      FitAppend(out, more);
    }
  }

  lemma OpenRunStays(d: Daemon, events: seq<Event>)
    requires OpenRun(d, events)
    ensures !d.disconnected && d.fd
  {
  }

  /** The queue never outgrows the ring. */
  lemma StepBound(d: Daemon, e: Event)
    requires |d.txq| <= QUEUE_CAP && !d.disconnected && d.fd && !Step(d, e).disconnected
    ensures |Step(d, e).txq| <= QUEUE_CAP
  {
    hide Build, TickPhase, LinkRead, Happens, PushAll, Emits;
    PushAllGrows(d.txq, Emits(d, e));
    match e
    case Timers(t) => TimerStream(d, t);
    case Readable(read, ios, now) => ReadStream(d, read, ios, now);
    case Writable(w, now) =>
    case Channel(id, ce, now) => PushAllGrows(d.txq, Happens(d.node, id, ce).frames);
  }

  /** The stream of a session, as a peer sees it: from opening the link on, and for as long as it stays
      open and the frames fit the queue, a reset parser fed the whole stream emits HELLO and then exactly
      the frames the handlers produced, in order. */
  lemma SessionStream(d: Daemon, now: int, events: seq<Event>)
    requires OpenRun(OpenLink(d, true, now), events)
    ensures var start := OpenLink(d, true, now);
            Scan(Stream(After(start, events))) == Result([HELLO] + AllEmits(start, events), (), [])
  {
    hide Build, Scan, After, AllEmits, OpenRun, Step, BuildAll;
    var start := OpenLink(d, true, now);
    HelloFirst(d, now);
    RunStream(start, events);
    var all := [HELLO] + AllEmits(start, events);
    EmptyFits(HELLO);
    FitAppend([HELLO], AllEmits(start, events));
    FlatBuildAppend([HELLO], AllEmits(start, events));
    ScanInvertsBuild(all, []);
    assert Flat(BuildAll(all)) + [] == Flat(BuildAll(all));
    EmptyScan();
    assert all + [] == all;
  }

  lemma HelloFirst(d: Daemon, now: int)
    ensures var start := OpenLink(d, true, now);
            Stream(start) == Flat(BuildAll([HELLO])) && |start.txq| <= QUEUE_CAP
  {
    hide Checksum;
    assert BuildAll([HELLO]) == [Build(HELLO)];
    assert [Build(HELLO)][1..] == [];
    assert [] + Build(HELLO) == Build(HELLO) && Build(HELLO) + [] == Build(HELLO);
  }
}
