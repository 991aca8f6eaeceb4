/** Two daemons left alone with the bytes under way between them: moving those bytes, in pieces of any size,
    comes to an end, and at the end both daemons agree, unless a parser is still held up by old bytes that
    look like the beginning of a frame. */
module Convergence {
  import opened Bytes
  import opened Streaming
  import opened LinkFrame
  import opened TxQueue
  import opened Channels
  import opened Session
  import opened Resync
  import opened Outbound
  import opened TwoDaemons
  import D = Daemon
  import N = TwoNode

  // ---------------------------------------------------------------- replies

  /** Replies carry at most a connection id. */
  predicate Small(fs: seq<Frame>) {
    forall i :: 0 <= i < |fs| ==> |fs[i].payload| <= 2
  }

  /** The size of the largest reply. */
  const REPLY := HDR_SIZE + 2 + CRC_SIZE

  lemma SmallAppend(p: seq<Frame>, q: seq<Frame>)
    requires Small(p) && Small(q)
    ensures Small(p + q)
  {
  }

  lemma {:induction false} BroadcastSmall(chans: map<byte, Channel>, ids: seq<byte>)
    ensures Small(Broadcast(chans, ids).frames)
    decreases |ids|
  {
    if ids != [] {
      if ids[0] !in chans {
        BroadcastSmall(chans, ids[1..]);
      } else {
        BroadcastSmall(chans[ids[0] := OnLinkConnect(chans[ids[0]], ids[0]).ch], ids[1..]);
      }
    }
  }

  lemma ReceiveSmall(n: Node, f: Frame, io: Io)
    ensures Small(Receive(n, f, io).frames)
  {
    hide Broadcast;
    BroadcastSmall(n.chans, n.order);
  }

  lemma {:induction false} SmallBytes(fs: seq<Frame>)
    requires Small(fs)
    ensures |Flat(BuildAll(fs))| <= REPLY * |fs|
    decreases |fs|
  {
    hide Checksum;
    if fs == [] {
      NothingFlat();
    } else {
      FirstBuilt(fs);
      SmallBytes(fs[1..]);
    }
  }

  /** Everything that dispatching frames makes a daemon send weighs less than the frames. */
  lemma {:induction false} DispatchWeighs(d: D.Daemon, fs: seq<Frame>, ios: seq<Io>, n: nat)
    requires |d.node.order| <= n && d.fd && !d.disconnected
    ensures var out := DispatchEmits(d, fs, ios); N.Weight(out, n) + |fs| <= N.Weight(fs, n) && Small(out)
    ensures D.DispatchAll(d, fs, ios).node.order == d.node.order
    decreases |fs|
  {
    hide D.DispatchFrame, Receive, N.Cost, Small;
    if fs == [] {
      NothingSmall();
    } else {
      var f, io := fs[0], IoOf(ios, 0);
      var next := D.DispatchFrame(d, f, io);
      var r := Receive(Checked(d, f).node, f, io);
      DispatchIsReceive(d, f, io);
      N.ReceiveWeight(Checked(d, f).node, f, io, n);
      ReceiveSmall(Checked(d, f).node, f, io);
      DispatchWeighs(next, fs[1..], Rest(ios), n);
      N.WeightAppend(r.frames, DispatchEmits(next, fs[1..], Rest(ios)), n);
      SmallAppend(r.frames, DispatchEmits(next, fs[1..], Rest(ios)));
    }
  }

  lemma NothingSmall()
    ensures Small([])
  {
  }

  lemma {:induction false} WeightBounds(q: seq<Frame>, n: nat)
    ensures |q| <= N.Weight(q, n) <= (2 * n + 2) * |q|
    decreases |q|
  {
    if q != [] {
      WeightBounds(q[1..], n);
      assert (2 * n + 2) * |q| == (2 * n + 2) * |q[1..]| + (2 * n + 2);
    }
  }

  // ---------------------------------------------------------------- what is left to do

  /** Replies that frames can still give rise to. */
  function Offspring(q: seq<Frame>, n: nat): int {
    N.Weight(q, n) - |q|
  }

  /** An upper bound on the bytes that can still be moved in one direction: a queued byte is written and
      read, and replies to the frames under way, or to anything the old bytes may be taken for, are queued,
      written and read at the other end. */
  function WayLeft(txq: nat, wire: nat, stale: nat, pend: seq<Frame>, n: nat): int {
    2 * txq + wire + 2 * REPLY * (Offspring(pend, n) + (2 * n + 1) * stale)
  }

  function Remaining(m: Net, s: N.System, n: nat): int {
    WayLeft(|m.a.txq|, |m.ab|, m.abOld, s.ab, n) + WayLeft(|m.b.txq|, |m.ba|, m.baOld, s.ba, n)
  }

  /** An event that moves at least one byte. */
  predicate Transfers(m: Net, e: D.Event) {
    && !m.a.disconnected
    && (|| (e.Readable? && e.read.Data? && e.read.bytes != [])
        || (e.Writable? && e.write.Wrote? && e.write.n > 0 && m.a.txq != []))
  }

  /** The arithmetic of a read: what the replies cost was set aside for the frames they answer. */
  lemma ReadLowers(fs: seq<Frame>, k: nat, m: nat, out: seq<Frame>, ab: seq<Frame>, ba: seq<Frame>, n: nat)
    requires k <= |fs| && m <= |ba| && |fs| - k == m && fs[k..] == ba[..m]
    requires N.Weight(out, n) + |fs| <= N.Weight(fs, n)
    ensures Offspring(ab + out, n) + Offspring(ba[m..], n) + |out|
            <= Offspring(ab, n) + Offspring(ba, n) + (2 * n + 1) * k
  {
    hide N.Weight;
    assert fs == fs[..k] + fs[k..] && ba == ba[..m] + ba[m..];
    N.WeightAppend(fs[..k], fs[k..], n);
    N.WeightAppend(ba[..m], ba[m..], n);
    N.WeightAppend(ab, out, n);
    WeightBounds(fs[..k], n);
    assert (2 * n + 2) * k == (2 * n + 1) * k + k;
  }

  lemma OldLowers(n: nat, k: nat, left: nat, stale: nat)
    requires k + left <= stale
    ensures (2 * n + 1) * k + (2 * n + 1) * left <= (2 * n + 1) * stale
  {
    assert (2 * n + 1) * k + (2 * n + 1) * left == (2 * n + 1) * (k + left);
    assert (2 * n + 1) * stale == (2 * n + 1) * (k + left) + (2 * n + 1) * (stale - k - left);
    assert (2 * n + 1) * (stale - k - left) >= 0;
  }

  lemma ReadTransfers(m: Net, s: N.System, e: D.Event, out: seq<byte>, back: seq<byte>, n: nat)
    returns (acts: seq<N.Move>, t: N.System)
    requires Rel(m, s) && Allowed(m, e) && Transfers(m, e) && e.Readable? && |s.a.order| <= n
    ensures var u := Happen(m, e, out, back);
            && Does(s, acts, t, m.baOld == 0) && Rel(u, t) && Remaining(u, t, n) < Remaining(m, s, n)
            && u.a.node.order == m.a.node.order && u.b == m.b && !u.a.disconnected
  {
    hide D.Inv, Flow, Scan, BuildAll, D.Step, NotOverlapped, Less, HasRoom, Fit, Does;
    hide N.Weight, Offspring, Emits, Small;
    InvMeans(m.a);
    var k, r;
    acts, t, k, r := InputStep(m, s, e, out, back);
    var fs, sent, u := Scan(m.a.parser + e.read.bytes).out, Emits(m.a, e), Happen(m, e, out, back);
    ReadWeighs(m.a, e, n);
    ReadLowers(fs, k, r, sent, s.ab, s.ba, n);
    OldLowers(n, k, u.baOld, m.baOld);
    SmallBytes(sent);
    InputNet(m, e, out, back, D.Step(m.a, e));
  }

  lemma ReadWeighs(d: D.Daemon, e: D.Event, n: nat)
    requires e.Readable? && e.read.Data? && e.read.bytes != [] && d.fd && !d.disconnected && |d.node.order| <= n
    ensures var fs := Scan(d.parser + e.read.bytes).out;
            && N.Weight(Emits(d, e), n) + |fs| <= N.Weight(fs, n) && Small(Emits(d, e))
            && D.Step(d, e).node.order == d.node.order
  {
    hide Scan, D.DispatchAll, DispatchEmits, D.Step, Emits, N.Weight, Small;
    ReadIs(d, e);
    var r := Scan(d.parser + e.read.bytes);
    DispatchWeighs(d.(lastRx := Some(e.now), parser := r.rest), r.out, e.ios, n);
  }

  lemma WriteTransfers(m: Net, s: N.System, e: D.Event, out: seq<byte>, back: seq<byte>, n: nat)
    returns (acts: seq<N.Move>, t: N.System)
    requires Rel(m, s) && Allowed(m, e) && Transfers(m, e) && e.Writable?
    ensures var u := Happen(m, e, out, back);
            && Does(s, acts, t, Steadily(m, e)) && Rel(u, t) && Remaining(u, t, n) < Remaining(m, s, n)
            && u.a.node.order == m.a.node.order && u.b == m.b && !u.a.disconnected
  {
    hide D.Inv, Flow, BuildAll, NotOverlapped, HasRoom, Fit, Does, N.Weight, Paused, D.CloseLink;
    InvMeans(m.a);
    acts, t := WritableStep(m, s, e, out, back);
    var resumed := Drains(m.a, e.write, e.now);
    PausedOrder(m.a.node, false);
    WriteMoves(m.a, e.write, e.now);
    assert m.ba[0..] == m.ba;
  }

  lemma PausedOrder(node: Node, b: bool)
    ensures Paused(node, b).order == node.order
  {
  }

  lemma WriteMoves(d: D.Daemon, w: Write, now: int)
    requires D.Inv(d) && d.fd && w.Wrote? && w.n > 0 && d.txq != []
    ensures var e := D.LinkWrite(d, w, now);
            !e.disconnected && |Output(d, e)| > 0 && |e.txq| + |Output(d, e)| == |d.txq|
  {
    hide Build, Paused, D.Inv;
    InvMeans(d);
    var k := Min(w.n, |d.txq|);
    assert (d.sent + d.txq[..k])[|d.sent|..] == d.txq[..k];
  }

  // ---------------------------------------------------------------- runs

  predicate MoveTransfers(m: Net, mv: Move) {
    if mv.Left? then Transfers(m, mv.e) else Transfers(Swap(m), mv.e)
  }

  predicate AllTransfer(m: Net, moves: seq<Move>)
    decreases |moves|
  {
    moves == [] || (MoveTransfers(m, moves[0]) && AllTransfer(Step(m, moves[0]), moves[1..]))
  }

  /** Both links are open and neither daemon visits more than `n` channels. */
  ghost predicate Linked(m: Net, n: nat) {
    !m.a.disconnected && !m.b.disconnected && |m.a.node.order| <= n && |m.b.node.order| <= n
  }

  lemma EventTransfers(m: Net, s: N.System, e: D.Event, out: seq<byte>, back: seq<byte>, n: nat)
    returns (acts: seq<N.Move>, t: N.System)
    requires Rel(m, s) && Allowed(m, e) && Transfers(m, e) && Linked(m, n)
    ensures var u := Happen(m, e, out, back);
            && Does(s, acts, t, false) && Rel(u, t) && Remaining(u, t, n) < Remaining(m, s, n) && Linked(u, n)
  {
    hide Happen, Remaining, Does, Way;
    if e.Readable? {
      acts, t := ReadTransfers(m, s, e, out, back, n);
      DoesWeak(s, acts, t, m.baOld == 0, false);
    } else {
      acts, t := WriteTransfers(m, s, e, out, back, n);
      DoesWeak(s, acts, t, Steadily(m, e), false);
    }
  }

  lemma StepTransfers(m: Net, s: N.System, mv: Move, n: nat) returns (acts: seq<N.Move>, t: N.System)
    requires Rel(m, s) && MayStep(m, mv) && MoveTransfers(m, mv) && Linked(m, n)
    ensures var u := Step(m, mv);
            && Does(s, acts, t, false) && Rel(u, t) && Remaining(u, t, n) < Remaining(m, s, n) && Linked(u, n)
  {
    hide Rel, Happen, Allowed, Does, WayLeft, Transfers;
    if mv.Left? {
      acts, t := EventTransfers(m, s, mv.e, mv.out, mv.back, n);
    } else {
      SwapRel(m, s);
      acts, t := EventTransfers(Swap(m), N.Swap(s), mv.e, mv.out, mv.back, n);
      var there := Happen(Swap(m), mv.e, mv.out, mv.back);
      assert Swap(Swap(there)) == there && N.Swap(N.Swap(t)) == t;
      SwapRel(Swap(there), N.Swap(t));
      DoesMirrored(s, acts, t, false);
      acts, t := N.Mirror(acts), N.Swap(t);
    }
  }

  lemma RemainingNat(m: Net, s: N.System, n: nat)
    ensures Remaining(m, s, n) >= 0
  {
    hide N.Weight;
    WeightBounds(s.ab, n);
    WeightBounds(s.ba, n);
    assert (2 * n + 1) * m.abOld >= 0 && (2 * n + 1) * m.baOld >= 0;
  }

  lemma {:induction false} TransfersEnd(m: Net, s: N.System, moves: seq<Move>, n: nat)
    returns (acts: seq<N.Move>, t: N.System)
    requires Rel(m, s) && MayExec(m, moves) && AllTransfer(m, moves) && Linked(m, n)
    ensures |moves| <= Remaining(m, s, n)
    ensures Does(s, acts, t, false) && Rel(Exec(m, moves), t) && Linked(Exec(m, moves), n)
    decreases |moves|
  {
    hide Rel, Step, MayStep, MoveTransfers, Does, Remaining, Linked;
    if moves == [] {
      acts, t := [], s;
      DoesNothing(s);
      DoesWeak(s, acts, t, true, false);
      RemainingNat(m, s, n);
    } else {
      var acts1, s1 := StepTransfers(m, s, moves[0], n);
      acts, t := TransfersEnd(Step(m, moves[0]), s1, moves[1..], n);
      DoesBoth(s, acts1, s1, acts, t, false);
      acts := acts1 + acts;
    }
  }

  /** The same bound from the bytes under way alone. */
  function Bound(m: Net, n: nat): int {
    2 * (|m.a.txq| + |m.b.txq|) + |m.ab| + |m.ba| +
    2 * REPLY * ((2 * n + 1) * (|UnderWay(m.a, m.ab, m.b)| + |UnderWay(m.b, m.ba, m.a)|))
  }

  lemma {:induction false} FramesTakeBytes(pend: seq<Frame>)
    requires Fit(pend)
    ensures |pend| <= |Flat(BuildAll(pend))|
    decreases |pend|
  {
    hide Checksum;
    if pend != [] {
      FirstBuilt(pend);
      FramesTakeBytes(pend[1..]);
    }
  }

  lemma WayBound(bytes: seq<byte>, stale: nat, pend: seq<Frame>, n: nat)
    requires Flow(bytes, stale, pend)
    ensures Offspring(pend, n) + (2 * n + 1) * stale <= (2 * n + 1) * |bytes|
  {
    hide N.Weight, BuildAll;
    WeightBounds(pend, n);
    FramesTakeBytes(pend);
    assert |pend| + stale <= |bytes|;
    OldLowers(n, |pend|, stale, |bytes|);
    assert (2 * n + 2) * |pend| == (2 * n + 1) * |pend| + |pend|;
  }

  lemma RemainingBound(m: Net, s: N.System, n: nat)
    requires Rel(m, s)
    ensures Remaining(m, s, n) <= Bound(m, n)
  {
    hide Flow, Offspring, D.Inv;
    var x, y := |UnderWay(m.a, m.ab, m.b)|, |UnderWay(m.b, m.ba, m.a)|;
    WayBound(UnderWay(m.a, m.ab, m.b), m.abOld, s.ab, n);
    WayBound(UnderWay(m.b, m.ba, m.a), m.baOld, s.ba, n);
    assert (2 * n + 1) * (x + y) == (2 * n + 1) * x + (2 * n + 1) * y;
  }

  // ---------------------------------------------------------------- parsers at rest

  /** Nothing can be decided yet about the bytes a parser holds. */
  ghost predicate Settled(d: D.Daemon) {
    Scan(d.parser) == Result([], (), d.parser)
  }

  /** Every event leaves the parser's bytes alone, replaces them by what a scan leaves, or drops them. */
  lemma ParserAfter(d: D.Daemon, e: D.Event)
    ensures var p := D.Step(d, e).parser;
            || p == d.parser || p == []
            || (e.Readable? && e.read.Data? && p == Scan(d.parser + e.read.bytes).rest)
  {
    hide Scan, D.DispatchAll, Happens, D.PushAll, D.TickChannels, Paused, Build, Session.Disconnect;
    match e
    case Timers(t) =>
      var kept := Kept(d, t);
      TicksStay(kept, kept.node.order, t.now, t.ios);
    case Readable(read, ios, now) =>
      if read.Data? {
        var r := Scan(d.parser + read.bytes);
        DispatchStays(d.(lastRx := Some(now), parser := r.rest), r.out, ios);
      }
    case Writable(_, _) =>
    case Channel(_, _, _) =>
  }

  lemma StepSettles(d: D.Daemon, e: D.Event)
    requires Settled(d)
    ensures Settled(D.Step(d, e))
  {
    hide Scan, D.Step;
    ParserAfter(d, e);
    EmptyScan();
    if e.Readable? && e.read.Data? {
      ResidualBound(d.parser + e.read.bytes);
    }
  }

  lemma {:induction false} ExecSettles(m: Net, moves: seq<Move>)
    requires Settled(m.a) && Settled(m.b)
    ensures Settled(Exec(m, moves).a) && Settled(Exec(m, moves).b)
    decreases |moves|
  {
    hide Settled, D.Step;
    if moves != [] {
      StepSettles(if moves[0].Left? then m.a else m.b, moves[0].e);
      ExecSettles(Step(m, moves[0]), moves[1..]);
    }
  }

  /** No byte is left to move. */
  predicate Idle(m: Net) {
    m.a.txq == [] && m.b.txq == [] && m.ab == [] && m.ba == []
  }

  /** A parser is held up: old bytes begin what may become a frame, of which fewer than MAX_FRAME bytes have
      arrived. */
  predicate HeldUp(d: D.Daemon, stale: nat) {
    0 < stale <= |d.parser| < MAX_FRAME
  }

  /** With no byte left to move, a parser that is not held up is empty. */
  lemma IdleWay(from: D.Daemon, to: D.Daemon, stale: nat, pend: seq<Frame>, dirty: bool)
    requires Way(from, [], to, stale, pend, dirty) && from.txq == [] && Settled(to)
    ensures HeldUp(to, stale) || (to.parser == [] && pend == [] && stale == 0)
  {
    hide Scan, BuildAll;
    var p := UnderWay(from, [], to);
    assert p == to.parser;
    ResidualBound(to.parser);
    if stale == 0 {
      assert p[0..] == p;
      var all := Flat(BuildAll(pend));
      ScanInvertsBuild(pend, []);
      assert all + [] == all;
      EmptyScan();
      assert pend + [] == pend;
      assert to.parser == all;
      NothingFlat();
    }
  }

  /** Convergence of two daemons over byte wires.  Take any reachable state with both links open, also just
      after a reopening, and then only move bytes: the number of moves is bounded by the bytes under way,
      both links stay open, and when no byte is left to move both daemons agree, unless a parser is held up
      by old bytes. */
  lemma BytesConverge(start: Net, before: seq<Move>, moves: seq<Move>)
    requires Initial(start) && MayExec(start, before)
    requires var m := Exec(start, before);
             !m.a.disconnected && !m.b.disconnected && MayExec(m, moves) && AllTransfer(m, moves)
    ensures var m := Exec(start, before);
            var u := Exec(m, moves);
            && |moves| <= Bound(m, |m.a.node.order| + |m.b.node.order|)
            && !u.a.disconnected && !u.b.disconnected
            && (Idle(u) ==>
                  || HeldUp(u.a, u.baOld) || HeldUp(u.b, u.abOld)
                  || N.Agreed(N.System(u.a.node, true, u.b.node, true, [], [], false, false)))
  {
    hide Exec, MayExec, AllTransfer, N.Exec, N.Inv, N.Agreed, Settled, Bound, Way, D.Inv, D.Initial;
    var m := Exec(start, before);
    var n := |m.a.node.order| + |m.b.node.order|;
    var s0 := InitialRel(start);
    var acts1, s := Refines(start, s0, before);
    N.Agreement(s0, acts1);
    var acts2, t := TransfersEnd(m, s, moves, n);
    RemainingBound(m, s, n);
    N.ExecKeeps(s, acts2);
    InitialSettled(start);
    ExecSettles(start, before);
    ExecSettles(m, moves);
    var u := Exec(m, moves);
    if Idle(u) && !HeldUp(u.a, u.baOld) && !HeldUp(u.b, u.abOld) {
      IdleWay(u.a, u.b, u.abOld, t.ab, t.abOld);
      IdleWay(u.b, u.a, u.baOld, t.ba, t.baOld);
      N.InvAgrees(t);
      SameAgreement(t, N.System(u.a.node, true, u.b.node, true, [], [], false, false));
    }
  }

  lemma InitialSettled(m: Net)
    requires Initial(m)
    ensures Settled(m.a) && Settled(m.b)
  {
    hide Scan;
    EmptyScan();
  }

  /** A parser that is held up lets go once MAX_FRAME bytes behind the old ones have arrived. */
  lemma HoldUpEnds(m: Net, s: N.System, e: D.Event, out: seq<byte>, back: seq<byte>)
    requires Rel(m, s) && Allowed(m, e) && Transfers(m, e) && e.Readable?
    requires |m.a.parser| + |e.read.bytes| >= m.baOld + MAX_FRAME
    ensures Happen(m, e, out, back).baOld == 0
  {
    hide D.Inv, Way, Scan, NotOverlapped, HasRoom, D.Step, Less, D.DispatchAll;
    InvMeans(m.a);
    ReadIs(m.a, e);
    var r := Scan(m.a.parser + e.read.bytes);
    DispatchStays(m.a.(lastRx := Some(e.now), parser := r.rest), r.out, e.ios);
    OldBytesPassed(m.a.parser + e.read.bytes, m.baOld);
  }
}
