/** When connections are accepted and when their slots go, said without the code that does it. */
module TcpLaws {
  import opened Bytes
  import opened LinkFrame
  import opened TxQueue
  import opened Channels
  import opened TcpTunnel
  import opened TcpReturn

  // ---------------------------------------------------------------- reading

  /** A connection is read until it would block; its input ends there if end of file or an error comes before. */
  ghost predicate InputEnds(inputs: seq<Read>) {
    exists i :: 0 <= i < |inputs| && EndsAt(inputs, i)
  }

  predicate EndsAt(inputs: seq<Read>, i: nat)
    requires i < |inputs|
  {
    && (inputs[i].ReadFailed? || inputs[i] == Data([]))
    && forall j :: 0 <= j < i ==> inputs[j].Data? && inputs[j].bytes != []
  }

  lemma {:induction false} ReadConnEnds(id: byte, slot: nat, inputs: seq<Read>)
    requires slot < MAX_TCP_CONNS
    ensures ReadConn(id, slot, inputs).1 <==> InputEnds(inputs)
    decreases |inputs|
  {
    hide ChunkFrames;
    if inputs != [] {
      ReadConnEnds(id, slot, inputs[1..]);
      if inputs[0].ReadFailed? || inputs[0] == Data([]) {
        assert EndsAt(inputs, 0);
      } else if inputs[0].Data? {
        EndsLater(inputs);
      } else {
        assert forall i :: 0 <= i < |inputs| ==> !EndsAt(inputs, i);
      }
    }
  }

  lemma EndsLater(inputs: seq<Read>)
    requires inputs != [] && inputs[0].Data? && inputs[0].bytes != []
    ensures InputEnds(inputs) <==> InputEnds(inputs[1..])
  {
    if InputEnds(inputs) {
      var i :| 0 <= i < |inputs| && EndsAt(inputs, i);
      assert EndsAt(inputs[1..], i - 1);
    }
    if InputEnds(inputs[1..]) {
      var i :| 0 <= i < |inputs[1..]| && EndsAt(inputs[1..], i);
      assert EndsAt(inputs, i + 1);
    }
  }

  /** What is read is cut into as few frames as possible: all but the last are full. */
  lemma {:induction false} ChunksFull(id: byte, slot: nat, data: seq<byte>)
    requires slot < MAX_TCP_CONNS
    ensures var fs := ChunkFrames(id, slot, data);
            && |fs| == (|data| + MAX_PAYLOAD - 3) / (MAX_PAYLOAD - 2)
            && forall i :: 0 <= i < |fs| - 1 ==> |fs[i].payload| == MAX_PAYLOAD
    decreases |data|
  {
    hide Pack16;
    if data != [] {
      ChunksFull(id, slot, data[Min(MAX_PAYLOAD - 2, |data|)..]);
    }
  }

  // ---------------------------------------------------------------- the fate of a slot

  /** What is left of the buffer after the event's write, if it makes one. */
  function LeftOver(x: Conn, e: ChannelEvent, writes: bool): seq<byte>
    requires e.Slot?
  {
    if writes then AfterWrite(x.txbuf, e.write) else x.txbuf
  }

  /** At the destination a slot goes exactly when the connection could not be made, its write failed, its
      input ended, or everything was written after the peer had closed; the source is told except in the
      last case.  Otherwise only what was written leaves the buffer. */
  lemma DestFate(conns: map<nat, Conn>, id: byte, e: ChannelEvent)
    requires e.Slot? && e.slot in conns && e.slot < MAX_TCP_CONNS
    ensures var c, x, o := e.slot, conns[e.slot], DestSlotEvent(conns, id, e);
            var refused := x.connecting && e.writable && !e.connected;
            var broken := !refused && e.writable && x.txbuf != [] && e.write == WriteFailed;
            var left := LeftOver(x, e, e.writable);
            var drained := !refused && !broken && e.writable && x.closePending && left == [];
            var joined := x.connecting ==> e.writable;
            var ended := !refused && !broken && e.readable && joined && !x.closePending && InputEnds(e.inputs);
            && (c !in o.ch <==> refused || broken || drained || ended)
            && (c !in o.ch ==> (TellsClose(o.frames, c) <==> !drained))
            && (c in o.ch ==> o.ch[c] == Conn(left, x.connecting && !e.writable, x.closePending))
  {
    hide ReadSlot, WriteSlot, AfterWrite, InputEnds, TellsClose;
    var c, x := e.slot, conns[e.slot];
    CloseEnds(id, c, c);
    NothingTells(c);
    if !(x.connecting && e.writable && !e.connected) {
      var joined := if e.writable then conns[c := x.(connecting := false)] else conns;
      var w := if e.writable then WriteSlot(joined, true, id, c, e.write) else Quiet(joined);
      if e.writable {
        WriteFate(joined, id, c, e.write);
      }
      if c in w.ch {
        ReadFate(w.ch, id, c, e.inputs);
        AppendTells(w.frames, ReadSlot(w.ch, true, id, c, e.inputs).frames, c);
      }
    }
  }

  /** The writing half. */
  lemma WriteFate(conns: map<nat, Conn>, id: byte, c: nat, w: Write)
    requires c in conns && c < MAX_TCP_CONNS && !conns[c].connecting
    ensures var x, o := conns[c], WriteSlot(conns, true, id, c, w);
            var broken := x.txbuf != [] && w == WriteFailed;
            var drained := !broken && x.closePending && AfterWrite(x.txbuf, w) == [];
            && (c !in o.ch <==> broken || drained)
            && (c !in o.ch ==> (TellsClose(o.frames, c) <==> broken))
            && (c in o.ch ==> o.ch[c] == Conn(AfterWrite(x.txbuf, w), false, x.closePending) && o.frames == [])
  {
    CloseEnds(id, c, c);
    NothingTells(c);
  }

  /** The reading half. */
  lemma ReadFate(conns: map<nat, Conn>, id: byte, c: nat, inputs: seq<Read>)
    requires c in conns && c < MAX_TCP_CONNS
    ensures var o := ReadSlot(conns, true, id, c, inputs);
            && (c !in o.ch <==> InputEnds(inputs))
            && (c !in o.ch ==> TellsClose(o.frames, c))
            && (c in o.ch ==> o.ch[c] == conns[c])
  {
    hide ReadConn, InputEnds, TellsClose;
    ReadConnEnds(id, c, inputs);
    ReadAtSlot(conns, id, c, inputs);
  }

  lemma NothingTells(c: nat)
    ensures !TellsClose([], c)
  {
  }

  /** At the source, where reading comes first, a slot goes exactly when its input ended, its write failed, or
      everything was written after the peer had closed; the destination is told except in the last case. */
  lemma SourceFate(conns: map<nat, Conn>, id: byte, e: ChannelEvent)
    requires e.Slot? && e.slot in conns && e.slot < MAX_TCP_CONNS
    ensures var c, x, o := e.slot, conns[e.slot], SourceSlotEvent(conns, true, id, e);
            var ended := e.readable && !x.closePending && InputEnds(e.inputs);
            var writes := e.writable && !x.connecting;
            var broken := !ended && writes && x.txbuf != [] && e.write == WriteFailed;
            var left := LeftOver(x, e, writes);
            var drained := !ended && !broken && e.writable && x.closePending && left == [];
            && (c !in o.ch <==> ended || broken || drained)
            && (c !in o.ch ==> (drained ==> o.frames == []) && (!drained ==> TellsClose(o.frames, c)))
            && (c in o.ch ==> o.ch[c] == Conn(left, x.connecting, x.closePending))
  {
    hide ReadConn, InputEnds;
    var c, x := e.slot, conns[e.slot];
    CloseEnds(id, c, c);
    ReadConnEnds(id, c, e.inputs);
    ReadAtSlot(conns, id, c, e.inputs);
    var r := if e.readable && !x.closePending then ReadSlot(conns, true, id, c, e.inputs) else Quiet(conns);
    if e.writable && c in r.ch {
      AppendTells(r.frames, WriteSlot(r.ch, true, id, c, e.write).frames, c);
    }
  }

  /** An announcement for a free slot starts a connection there, or is refused with a close if that fails. */
  lemma AnnouncementConnects(conns: map<nat, Conn>, id: byte, f: Frame, io: Io, c: nat)
    requires f.ftype == F_TCONN && CidOf(f.payload) == Some(c) && c !in conns
    ensures DestOnFrame(conns, id, f, io) ==
            if io.connects then Out(conns[c := Conn([], true, false)], [])
            else Out(conns, [Frame(F_TCLOSE, id, Pack16(c))])
  {
  }

  // ---------------------------------------------------------------- accepting

  function Registered(registered: seq<bool>): nat {
    if registered == [] then 0 else (if registered[0] then 1 else 0) + Registered(registered[1..])
  }

  predicate InPool(conns: map<nat, Conn>) {
    forall c :: c in conns ==> c < MAX_TCP_CONNS
  }

  /** The numbers below `n`. */
  function Below(n: nat): set<nat> {
    if n == 0 then {} else Below(n - 1) + {n - 1}
  }

  lemma {:induction false} BelowIs(n: nat)
    ensures |Below(n)| == n && forall c: nat :: c in Below(n) <==> c < n
    decreases n
  {
    if n > 0 {
      BelowIs(n - 1);
    }
  }

  /** A slot is found exactly while fewer are taken than there are. */
  lemma SlotFound(conns: map<nat, Conn>, next: nat, tries: nat)
    requires InPool(conns) && tries == MAX_TCP_CONNS
    ensures |conns| <= MAX_TCP_CONNS
    ensures AllocSlot(conns, next, tries).0.Some? <==> |conns| < MAX_TCP_CONNS
  {
    hide AllocSlot, Below;
    BelowIs(tries);
    var pool := Below(tries);
    assert conns.Keys <= pool;
    Smaller(conns.Keys, pool);
    var slot := AllocSlot(conns, next, tries).0;
    if slot.Some? {
      AllocFree(conns, next, tries);
      Smaller(conns.Keys + {slot.value}, pool);
    } else {
      forall c: nat | c < MAX_TCP_CONNS ensures c in conns {
        RefusedOnlyWhenFull(conns, next, tries, c);
      }
      assert conns.Keys == pool;
    }
  }

  lemma {:induction false} Smaller(a: set<nat>, b: set<nat>)
    requires a <= b
    ensures |a| <= |b|
    decreases |a|
  {
    if a != {} {
      var x :| x in a;
      Smaller(a - {x}, b - {x});
    }
  }

  /** While the link is up, a batch of connections is accepted as far as there are free slots: as many slots
      are taken, and announced, as connections were registered, up to the size of the pool.  While the link
      is down none is. */
  lemma {:induction false} AcceptsWhatFits(s: TcpSource, id: byte, registered: seq<bool>)
    requires InPool(s.conns)
    ensures var o := Accept(s, id, registered);
            && InPool(o.ch.conns) && (!s.linkUp ==> o == Quiet(s))
            && (s.linkUp ==> |o.ch.conns| == Min(|s.conns| + Registered(registered), MAX_TCP_CONNS))
            && |o.frames| == |o.ch.conns| - |s.conns|
    decreases |registered|
  {
    hide AllocSlot, Pack16;
    var tries := MAX_TCP_CONNS;
    var (slot, next) := AllocSlot(s.conns, s.nextSlot, tries);
    SlotFound(s.conns, s.nextSlot, tries);
    if registered != [] {
      if !s.linkUp {
        AcceptsWhatFits(s, id, registered[1..]);
      } else if slot.None? || !registered[0] {
        AcceptsWhatFits(s.(nextSlot := next), id, registered[1..]);
      } else {
        var taken := s.(nextSlot := next, conns := s.conns[slot.value := Conn([], false, false)]);
        AllocFree(s.conns, s.nextSlot, tries);
        assert taken.conns.Keys == s.conns.Keys + {slot.value};
        AcceptsWhatFits(taken, id, registered[1..]);
      }
    }
  }

  lemma AllocFree(conns: map<nat, Conn>, next: nat, tries: nat)
    ensures var slot := AllocSlot(conns, next, tries).0;
            slot.Some? ==> slot.value < MAX_TCP_CONNS && slot.value !in conns
  {
  }

  /** The first registered connection takes the slot that the search finds. */
  lemma FirstAccepted(s: TcpSource, id: byte, registered: seq<bool>, tries: nat)
    requires s.linkUp && registered != [] && registered[0] && tries == MAX_TCP_CONNS
    requires AllocSlot(s.conns, s.nextSlot, tries).0.Some?
    ensures var slot := AllocSlot(s.conns, s.nextSlot, tries).0.value;
            var o := Accept(s, id, registered);
            && slot in o.ch.conns && o.ch.conns[slot] == Conn([], false, false)
            && o.frames != [] && o.frames[0] == Frame(F_TCONN, id, Pack16(slot))
  {
    hide AllocSlot, Pack16;
    var (slot, next) := AllocSlot(s.conns, s.nextSlot, tries);
    var taken := s.(nextSlot := next, conns := s.conns[slot.value := Conn([], false, false)]);
    AcceptSpares(taken, id, registered[1..], slot.value);
  }

  /** Every connection that comes up moves the cursor past the slot found for it, also one that cannot be
      registered; so a slot is not given out again before the others were tried. */
  lemma CursorAdvances(s: TcpSource, id: byte, registered: bool, tries: nat)
    requires s.linkUp && tries == MAX_TCP_CONNS && AllocSlot(s.conns, s.nextSlot, tries).0.Some?
    ensures var o := Accept(s, id, [registered]);
            && o.ch.nextSlot > s.nextSlot
            && o.ch.nextSlot % MAX_TCP_CONNS == (AllocSlot(s.conns, s.nextSlot, tries).0.value + 1) % MAX_TCP_CONNS
  {
    hide AllocSlot, Pack16;
    var (slot, next) := AllocSlot(s.conns, s.nextSlot, tries);
    var k := AllocFindsNext(s.conns, s.nextSlot, tries);
    assert [registered][1..] == [];
    Successor(s.nextSlot + k);
  }

  lemma Successor(n: nat)
    ensures (n + 1) % MAX_TCP_CONNS == (n % MAX_TCP_CONNS + 1) % MAX_TCP_CONNS
  {
  }
}
