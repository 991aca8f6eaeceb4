/** Two whole daemons joined by wires that carry bytes.  Opening or closing the link may leave anything on
    the wires, and closing cuts the frame that was being sent; the receiver's parser has to find the frames
    again.  The frame-level system of `TwoNode` describes what the daemons then do. */
module TwoDaemons {
  import opened Bytes
  import opened LinkFrame
  import opened TxQueue
  import opened Channels
  import opened Session
  import opened Resync
  import opened Outbound
  import D = Daemon
  import N = TwoNode

  /** Two daemons and the bytes on the wires.  `abOld` counts the bytes that were already under way from `a`
      to `b`, on the wire or in the buffers at its ends, when the link was last opened or closed. */
  datatype Net = Net(a: D.Daemon, b: D.Daemon, ab: seq<byte>, ba: seq<byte>, abOld: nat, baOld: nat)

  function Swap(n: Net): Net {
    Net(n.b, n.a, n.ba, n.ab, n.baOld, n.abOld)
  }

  /** The bytes an event takes from the wire. */
  function Input(d: D.Daemon, e: D.Event): seq<byte> {
    if d.fd && e.Readable? && e.read.Data? then e.read.bytes else []
  }

  /** The bytes an event that does not open or close the link puts on the wire. */
  function Output(before: D.Daemon, after: D.Daemon): seq<byte> {
    if |before.sent| <= |after.sent| then after.sent[|before.sent|..] else []
  }

  /** Everything under way from one daemon to the other. */
  function UnderWay(from: D.Daemon, wire: seq<byte>, to: D.Daemon): seq<byte> {
    to.parser + wire + from.txq
  }

  /** An event of daemon `a`.  If it opens or closes the link, the wires hold `out` and `back` afterwards. */
  function Happen(n: Net, e: D.Event, out: seq<byte>, back: seq<byte>): Net {
    var d := D.Step(n.a, e);
    if d.disconnected != n.a.disconnected then
      Net(d, n.b, out, back, |n.b.parser| + |out|, |UnderWay(n.b, back, d)|)
    else
      var k := |Input(n.a, e)|;
      Net(d, n.b, n.ab + Output(n.a, d), n.ba[Min(k, |n.ba|)..], n.abOld, Less(n.baOld, |n.a.parser| + k - |d.parser|))
  }

  datatype Move = Left(e: D.Event, out: seq<byte>, back: seq<byte>) | Right(e: D.Event, out: seq<byte>, back: seq<byte>)

  function Step(n: Net, m: Move): Net {
    match m
    case Left(e, out, back) => Happen(n, e, out, back)
    case Right(e, out, back) => Swap(Happen(Swap(n), e, out, back))
  }

  function Exec(n: Net, moves: seq<Move>): Net
    decreases |moves|
  {
    if moves == [] then n else Exec(Step(n, moves[0]), moves[1..])
  }

  /** A daemon reads what is on its wire, and its clock does not run backwards. */
  predicate Possible(n: Net, e: D.Event) {
    Input(n.a, e) <= n.ba && (e.Timers? ==> D.ClockRuns(e.t))
  }

  /** Opening a PTY succeeds, and no PTY reports that its last reader has gone. */
  predicate Benign(e: D.Event) {
    match e
    case Readable(_, ios, _) => forall i :: 0 <= i < |ios| ==> ios[i].ok
    case Channel(_, ce, _) => ce.Primary? ==> ce.read != ReadFailed(true)
    case _ => true
  }

  /** The frames of one handler fit the transmit queue together. */
  predicate HasRoom(d: D.Daemon, e: D.Event) {
    |d.txq| + |Flat(BuildAll(Emits(d, e)))| <= QUEUE_CAP
  }

  /** No frame is accepted that was put together from old bytes and later ones. */
  ghost predicate NoChimera(n: Net, e: D.Event) {
    NotOverlapped(n.a.parser + Input(n.a, e), n.baOld)
  }

  ghost predicate Allowed(n: Net, e: D.Event) {
    Possible(n, e) && Benign(e) && HasRoom(n.a, e) && NoChimera(n, e)
  }

  ghost predicate MayStep(n: Net, m: Move) {
    if m.Left? then Allowed(n, m.e) else Allowed(Swap(n), m.e)
  }

  ghost predicate MayExec(n: Net, moves: seq<Move>)
    decreases |moves|
  {
    moves == [] || (MayStep(n, moves[0]) && MayExec(Step(n, moves[0]), moves[1..]))
  }

  // ---------------------------------------------------------------- the frame-level view

  /** Frames are under way behind the old bytes as the frame-level system says. */
  ghost predicate Way(from: D.Daemon, wire: seq<byte>, to: D.Daemon, stale: nat, pend: seq<Frame>, dirty: bool) {
    Flow(UnderWay(from, wire, to), stale, pend) && dirty == (stale > 0)
  }

  /** One end of the net is the end of the frame-level system. */
  ghost predicate SameEnd(d: D.Daemon, node: Node, open: bool) {
    D.Inv(d) && node == d.node && open == !d.disconnected
  }

  ghost predicate Rel(n: Net, s: N.System) {
    && SameEnd(n.a, s.a, s.aOpen) && SameEnd(n.b, s.b, s.bOpen)
    && Way(n.a, n.ab, n.b, n.abOld, s.ab, s.abOld) && Way(n.b, n.ba, n.a, n.baOld, s.ba, s.baOld)
  }

  lemma SwapRel(n: Net, s: N.System)
    ensures Rel(Swap(n), N.Swap(s)) <==> Rel(n, s)
  {
    hide Way, SameEnd;
  }

  /** No move opens or closes the link or takes old bytes for a frame. */
  predicate Steady(moves: seq<N.Move>) {
    forall i :: 0 <= i < |moves| ==> !(moves[i].act.Open? || moves[i].act.Close? || moves[i].act.Stale?)
  }

  /** The frame-level moves lead from `s` to `t`, without any event of a channel. */
  ghost predicate Does(s: N.System, moves: seq<N.Move>, t: N.System, steady: bool) {
    && (forall i :: 0 <= i < |moves| ==> N.Benign(moves[i].act) && !moves[i].act.Happen?)
    && (steady ==> Steady(moves)) && N.Exec(s, moves) == t
  }

  lemma DoesNothing(s: N.System)
    ensures Does(s, [], s, true)
  {
  }

  lemma DoesOne(s: N.System, act: N.Act, steady: bool)
    requires N.Benign(act) && !act.Happen? && (steady ==> !(act.Open? || act.Close? || act.Stale?))
    ensures Does(s, [N.Left(act)], N.Act1(s, act), steady)
  {
    hide N.Act1, N.Benign;
    assert [N.Left(act)][1..] == [];
    assert N.Exec(N.Step(s, N.Left(act)), []) == N.Step(s, N.Left(act));
  }

  lemma DoesBoth(s: N.System, p: seq<N.Move>, t: N.System, q: seq<N.Move>, u: N.System, steady: bool)
    requires Does(s, p, t, steady) && Does(t, q, u, steady)
    ensures Does(s, p + q, u, steady)
  {
    hide N.Exec, N.Benign;
    N.ExecAppend(s, p, q);
  }

  lemma DoesAlso(s: N.System, p: seq<N.Move>, act: N.Act, t: N.System, steady: bool)
    requires Does(s, p, t, steady) && N.Benign(act) && !act.Happen?
    requires steady ==> !(act.Open? || act.Close? || act.Stale?)
    ensures Does(s, p + [N.Left(act)], N.Act1(t, act), steady)
  {
    hide Does, N.Act1, N.Benign;
    DoesOne(t, act, steady);
    DoesBoth(s, p, t, [N.Left(act)], N.Act1(t, act), steady);
  }

  /** The `a` end moved to `node`, having sent `out` and handled some of the frames in flight. */
  ghost predicate Moved(s: N.System, t: N.System, node: Node, out: seq<Frame>, ba: seq<Frame>) {
    t == s.(a := node, ab := s.ab + out, ba := ba, baOld := t.baOld)
  }

  // ---------------------------------------------------------------- handlers as frame-level acts

  lemma CheckMoves(s: N.System, d: D.Daemon) returns (acts: seq<N.Move>, t: N.System)
    requires s.a == d.node
    ensures Does(s, acts, t, true) && t == s.(a := D.CheckBpHigh(d).node)
  {
    hide Does;
    t := s.(a := D.CheckBpHigh(d).node);
    if D.CheckBpHigh(d).node == d.node {
      acts := [];
      DoesNothing(s);
    } else {
      acts := [N.Left(N.Pause(true))];
      DoesOne(s, N.Pause(true), true);
    }
  }

  /** Dispatching one frame: a stale one, or the next in flight. */
  lemma DispatchMove(s: N.System, d: D.Daemon, f: Frame, io: Io, stale: bool) returns (acts: seq<N.Move>, t: N.System)
    requires s.aOpen && s.a == d.node && d.fd && !d.disconnected && io.ok
    requires if stale then s.baOld else s.ba != [] && s.ba[0] == f
    ensures var next := D.DispatchFrame(d, f, io);
            && Does(s, acts, t, !stale)
            && Moved(s, t, next.node, Receive(Checked(d, f).node, f, io).frames, if stale then s.ba else s.ba[1..])
            && next.fd && !next.disconnected && (stale ==> t.baOld == s.baOld)
  {
    hide D.DispatchFrame, Receive, D.CheckBpHigh, Does, D.PushAll;
    acts, t := [], s;
    DoesNothing(s);
    if f.ftype == F_DATA || f.ftype == F_TDATA {
      acts, t := CheckMoves(s, d);
    }
    assert t == s.(a := Checked(d, f).node);
    DoesLess(s, acts, t, !stale);
    if !stale {
      DoesAlso(s, acts, N.Settle, t, true);
      acts, t := acts + [N.Left(N.Settle)], N.Act1(t, N.Settle);
    }
    var act := if stale then N.Stale(f, io) else N.Deliver(io);
    DoesAlso(s, acts, act, t, !stale);
    acts, t := acts + [N.Left(act)], N.Act1(t, act);
    DispatchIsReceive(d, f, io);
  }

  lemma DoesLess(s: N.System, acts: seq<N.Move>, t: N.System, steady: bool)
    requires Does(s, acts, t, true)
    ensures Does(s, acts, t, steady)
  {
  }

  /** Dispatching `k` stale frames and then the next ones in flight. */
  lemma {:induction false} DispatchMoves(s: N.System, d: D.Daemon, fs: seq<Frame>, ios: seq<Io>, k: nat)
    returns (acts: seq<N.Move>, t: N.System)
    requires s.aOpen && s.a == d.node && d.fd && !d.disconnected
    requires k <= |fs| <= k + |s.ba| && (k > 0 ==> s.baOld) && fs[k..] == s.ba[..|fs| - k]
    requires forall i :: 0 <= i < |ios| ==> ios[i].ok
    ensures Does(s, acts, t, k == 0)
    ensures Moved(s, t, D.DispatchAll(d, fs, ios).node, DispatchEmits(d, fs, ios), s.ba[|fs| - k..])
    ensures k == |fs| ==> t.baOld == s.baOld
    decreases |fs|
  {
    hide D.DispatchFrame, Receive, Checked, Does, Moved;
    if fs == [] {
      acts, t := [], s;
      DoesNothing(s);
      MovedNot(s);
    } else {
      var f, io := fs[0], IoOf(ios, 0);
      NextInLine(fs, k, s.ba);
      var acts1, s1 := DispatchMove(s, d, f, io, k > 0);
      var next, rest := D.DispatchFrame(d, f, io), if k > 0 then k - 1 else 0;
      var sent := Receive(Checked(d, f).node, f, io).frames;
      MovedMeans(s, s1, next.node, sent, if k > 0 then s.ba else s.ba[1..]);
      acts, t := DispatchMoves(s1, next, fs[1..], Rest(ios), rest);
      DoesWeak(s1, acts, t, rest == 0, k == 0);
      DoesBoth(s, acts1, s1, acts, t, k == 0);
      acts := acts1 + acts;
      MovedTwice(s, s1, t, next.node, sent, D.DispatchAll(d, fs, ios).node, DispatchEmits(next, fs[1..], Rest(ios)),
                 s1.ba, s.ba[|fs| - k..]);
    }
  }

  /** The first of `k` stale frames and some frames in flight, and what follows it. */
  lemma NextInLine(fs: seq<Frame>, k: nat, ba: seq<Frame>)
    requires fs != [] && k <= |fs| <= k + |ba| && fs[k..] == ba[..|fs| - k]
    ensures k > 0 ==> fs[1..][k - 1..] == ba[..|fs| - k]
    ensures k == 0 ==> ba != [] && fs[0] == ba[0]
    ensures k == 0 ==> fs[1..][0..] == ba[1..][..|fs| - 1] && ba[1..][|fs| - 1..] == ba[|fs|..]
  {
    if k == 0 {
      assert fs == ba[..|fs|];
    }
  }

  lemma MovedNot(s: N.System)
    ensures Moved(s, s, s.a, [], s.ba[0..])
  {
    assert s.ab + [] == s.ab && s.ba[0..] == s.ba;
  }

  lemma MovedMeans(s: N.System, t: N.System, node: Node, fs: seq<Frame>, ba: seq<Frame>)
    requires Moved(s, t, node, fs, ba)
    ensures t == s.(a := node, ab := s.ab + fs, ba := ba, baOld := t.baOld)
  {
  }

  lemma MovedTwice(s: N.System, t: N.System, u: N.System, x: Node, p: seq<Frame>, y: Node, q: seq<Frame>,
                   ba: seq<Frame>, ba': seq<Frame>)
    requires Moved(s, t, x, p, ba) && Moved(t, u, y, q, ba')
    ensures Moved(s, u, y, p + q, ba')
  {
    Assoc(s.ab, p, q);
  }

  lemma DoesWeak(s: N.System, acts: seq<N.Move>, t: N.System, x: bool, y: bool)
    requires Does(s, acts, t, x) && (y ==> x)
    ensures Does(s, acts, t, y)
  {
  }

  /** Ticking channels one after the other. */
  lemma {:induction false} TickMoves(s: N.System, d: D.Daemon, ids: seq<byte>, now: int, ios: seq<Io>)
    returns (acts: seq<N.Move>, t: N.System)
    requires s.a == d.node
    ensures Does(s, acts, t, true) && t.baOld == s.baOld
    ensures Moved(s, t, D.TickChannels(d, ids, now, ios).node, TickEmits(d, ids, now, ios), s.ba)
    decreases |ids|
  {
    hide TickOne, D.PushAll, Does;
    if ids == [] {
      acts, t := [], s;
      DoesNothing(s);
      assert s.ab + [] == s.ab;
    } else {
      var io := IoOf(ios, now);
      var act := N.TickOf(ids[0], now, io);
      var r := TickOne(d.node, ids[0], now, io);
      var next := d.(node := r.node, txq := D.PushAll(d.txq, r.frames));
      var s1 := N.Act1(s, act);
      DoesOne(s, act, true);
      acts, t := TickMoves(s1, next, ids[1..], now, Rest(ios));
      DoesBoth(s, [N.Left(act)], s1, acts, t, true);
      acts := [N.Left(act)] + acts;
      Assoc(s.ab, r.frames, TickEmits(next, ids[1..], now, Rest(ios)));
    }
  }

  /** Idle channels send nothing when ticked. */
  lemma {:induction false} IdleTicks(d: D.Daemon, ids: seq<byte>, now: int, ios: seq<Io>)
    requires D.AllIdle(d.node)
    ensures TickEmits(d, ids, now, ios) == [] && D.AllIdle(D.TickChannels(d, ids, now, ios).node)
    ensures D.TickChannels(d, ids, now, ios).txq == d.txq
    decreases |ids|
  {
    hide Tick, Build;
    if ids != [] {
      var io := IoOf(ios, now);
      if ids[0] in d.node.chans {
        TickKeeps(d.node.chans[ids[0]], ids[0], now, io, false);
      }
      var r := TickOne(d.node, ids[0], now, io);
      IdleTicks(d.(node := r.node, txq := D.PushAll(d.txq, r.frames)), ids[1..], now, Rest(ios));
    }
  }

  /** A handler leaves these alone. */
  lemma {:induction false} TicksStay(d: D.Daemon, ids: seq<byte>, now: int, ios: seq<Io>)
    ensures var e := D.TickChannels(d, ids, now, ios); e == d.(node := e.node, txq := e.txq)
    decreases |ids|
  {
    hide TickOne, D.PushAll;
    if ids != [] {
      var r := TickOne(d.node, ids[0], now, IoOf(ios, now));
      TicksStay(d.(node := r.node, txq := D.PushAll(d.txq, r.frames)), ids[1..], now, Rest(ios));
    }
  }

  lemma {:induction false} DispatchStays(d: D.Daemon, fs: seq<Frame>, ios: seq<Io>)
    ensures var e := D.DispatchAll(d, fs, ios);
            e.parser == d.parser && e.sent == d.sent && e.disconnected == d.disconnected
    decreases |fs|
  {
    hide Receive, LinkUp, D.PushAll, Build;
    if fs != [] {
      DispatchStays(D.DispatchFrame(d, fs[0], IoOf(ios, 0)), fs[1..], Rest(ios));
    }
  }

  // ---------------------------------------------------------------- bytes under way

  lemma FlowGrows(bytes: seq<byte>, stale: nat, pend: seq<Frame>, fs: seq<Frame>)
    requires Flow(bytes, stale, pend) && Fit(fs)
    ensures Flow(bytes + Flat(BuildAll(fs)), stale, pend + fs)
  {
    hide BuildAll;
    FlatBuildAppend(pend, fs);
    assert (bytes + Flat(BuildAll(fs)))[stale..] == bytes[stale..] + Flat(BuildAll(fs));
  }

  /** Queueing frames extends what is under way. */
  lemma WaySends(from: D.Daemon, to: D.Daemon, wire: seq<byte>, stale: nat, pend: seq<Frame>, dirty: bool,
                 from': D.Daemon, fs: seq<Frame>)
    requires Way(from, wire, to, stale, pend, dirty) && Fit(fs) && from'.txq == from.txq + Flat(BuildAll(fs))
    ensures Way(from', wire, to, stale, pend + fs, dirty)
  {
    hide Flow, BuildAll;
    FlowGrows(UnderWay(from, wire, to), stale, pend, fs);
    Assoc(to.parser + wire, from.txq, Flat(BuildAll(fs)));
  }

  /** Old bytes that have been passed need no caution any more. */
  lemma Normalise(s: N.System, x: bool, y: bool) returns (acts: seq<N.Move>, t: N.System)
    ensures Does(s, acts, t, true) && t == s.(abOld := s.abOld && x, baOld := s.baOld && y)
  {
    acts, t := [], s;
    if !y {
      acts, t := acts + [N.Left(N.Settle)], N.Act1(t, N.Settle);
    }
    if !x {
      var before := acts;
      N.ExecAppend(s, before, [N.Right(N.Settle)]);
      acts, t := before + [N.Right(N.Settle)], N.Swap(N.Act1(N.Swap(t), N.Settle));
    }
  }

  /** After opening or closing, whatever was under way is old. */
  lemma Turned(n: Net, s: N.System, d: D.Daemon, out: seq<byte>, back: seq<byte>, pend: seq<Frame>, t: N.System)
    returns (acts: seq<N.Move>, u: N.System)
    requires Rel(n, s) && D.Inv(d) && Fit(pend) && d.txq == Flat(BuildAll(pend))
    requires t == N.System(d.node, !d.disconnected, s.b, s.bOpen, pend, [], true, true)
    ensures Does(t, acts, u, true)
    ensures Rel(Net(d, n.b, out, back, |n.b.parser| + |out|, |UnderWay(n.b, back, d)|), u)
  {
    hide D.Inv, BuildAll, Flat, Does;
    var x, y := |n.b.parser| + |out|, |UnderWay(n.b, back, d)|;
    acts, u := Normalise(t, x > 0, y > 0);
    NothingFlat();
    assert UnderWay(d, out, n.b)[x..] == d.txq;
    assert UnderWay(n.b, back, d)[y..] == [];
  }

  /** A handler that leaves the link as it is and reads nothing. */
  lemma Stayed(n: Net, s: N.System, d: D.Daemon, fs: seq<Frame>, t: N.System)
    requires Rel(n, s) && D.Inv(d) && Moved(s, t, d.node, fs, s.ba) && t.baOld == s.baOld
    requires Fit(fs) && d.txq == n.a.txq + Flat(BuildAll(fs)) && d.parser == n.a.parser
    requires d.disconnected == n.a.disconnected
    ensures Rel(n.(a := d), t)
  {
    hide D.Inv, BuildAll, Flow;
    WaySends(n.a, n.b, n.ab, n.abOld, s.ab, s.abOld, d, fs);
  }

  // ---------------------------------------------------------------- every event

  /** The event leaves the link as it is, and no old bytes are left to read. */
  predicate Steadily(n: Net, e: D.Event) {
    D.Step(n.a, e).disconnected == n.a.disconnected && n.baOld == 0
  }

  lemma CloseMoves(s: N.System, d: D.Daemon, now: int) returns (acts: seq<N.Move>, t: N.System)
    requires s.aOpen && s.a == d.node && !d.disconnected
    ensures Does(s, acts, t, false)
    ensures t == N.System(D.CloseLink(d, now).node, false, s.b, s.bOpen, [], [], true, true)
  {
    hide Does;
    acts, t := [], s;
    DoesNothing(s);
    DoesLess(s, acts, t, false);
    if d.bp {
      DoesAlso(s, acts, N.Pause(false), t, false);
      acts, t := acts + [N.Left(N.Pause(false))], N.Act1(t, N.Pause(false));
    }
    DoesAlso(s, acts, N.Close, t, false);
    acts, t := acts + [N.Left(N.Close)], N.Act1(t, N.Close);
  }

  lemma CloseStep(n: Net, s: N.System, d: D.Daemon, now: int, out: seq<byte>, back: seq<byte>)
    returns (acts: seq<N.Move>, t: N.System)
    requires Rel(n, s) && !n.a.disconnected && d == D.CloseLink(n.a, now) && D.Inv(d) && d.disconnected
    ensures Does(s, acts, t, false)
    ensures Rel(Net(d, n.b, out, back, |n.b.parser| + |out|, |UnderWay(n.b, back, d)|), t)
  {
    hide D.Inv, Does, D.CloseLink;
    var acts1, s1 := CloseMoves(s, n.a, now);
    ClosedQueue(d);
    acts, t := Turned(n, s, d, out, back, [], s1);
    DoesLess(s1, acts, t, false);
    DoesBoth(s, acts1, s1, acts, t, false);
    acts := acts1 + acts;
  }

  lemma WritableStep(n: Net, s: N.System, e: D.Event, out: seq<byte>, back: seq<byte>)
    returns (acts: seq<N.Move>, t: N.System)
    requires Rel(n, s) && e.Writable?
    ensures Does(s, acts, t, Steadily(n, e)) && Rel(Happen(n, e, out, back), t)
    ensures D.Step(n.a, e).disconnected == n.a.disconnected ==> t.ab == s.ab && t.ba == s.ba && t.b == s.b
  {
    hide D.Inv, Flow, D.CloseLink, Does;
    var d := D.Step(n.a, e);
    D.StepKeeps(n.a, e);
    InvMeans(n.a);
    if d.disconnected != n.a.disconnected {
      acts, t := CloseStep(n, s, d, e.now, out, back);
    } else {
      var resumed := Drains(n.a, e.write, e.now);
      acts, t := ResumeMoves(s, d.node, resumed);
      DoesLess(s, acts, t, Steadily(n, e));
      assert UnderWay(d, n.ab + Output(n.a, d), n.b) == UnderWay(n.a, n.ab, n.b);
      assert n.ba[0..] == n.ba;
    }
  }

  lemma InvMeans(d: D.Daemon)
    requires D.Inv(d)
    ensures (d.disconnected <==> !d.fd) && |d.txq| <= QUEUE_CAP
    ensures d.disconnected ==> D.AllIdle(d.node) && d.txq == []
  {
  }

  lemma ClosedQueue(d: D.Daemon)
    requires D.Inv(d) && d.disconnected
    ensures d.txq == Flat(BuildAll([])) && Fit([])
  {
    hide D.Inv;
    InvMeans(d);
    NothingFlat();
  }

  lemma ResumeMoves(s: N.System, node: Node, resumed: bool) returns (acts: seq<N.Move>, t: N.System)
    requires node == if resumed then Paused(s.a, false) else s.a
    ensures Does(s, acts, t, true) && t == s.(a := node)
  {
    hide Does;
    if resumed {
      acts, t := [N.Left(N.Pause(false))], N.Act1(s, N.Pause(false));
      DoesOne(s, N.Pause(false), true);
    } else {
      acts, t := [], s;
      DoesNothing(s);
    }
  }

  lemma Drains(d: D.Daemon, w: Write, now: int)
    returns (resumed: bool)
    requires D.Inv(d) && D.LinkWrite(d, w, now).disconnected == d.disconnected
    ensures var e := D.LinkWrite(d, w, now);
            && e.parser == d.parser && |d.sent| <= |e.sent| && Output(d, e) + e.txq == d.txq
            && e.node == if resumed then Paused(d.node, false) else d.node
  {
    hide Build, Session.Disconnect, D.Inv;
    InvMeans(d);
    var e := D.LinkWrite(d, w, now);
    resumed := d.bp && !e.bp;
    if d.fd && !(w == WriteFailed && d.txq != []) {
      var k := if w.Wrote? then Min(w.n, |d.txq|) else 0;
      assert (d.sent + d.txq[..k])[|d.sent|..] == d.txq[..k];
      assert d.txq[..k] + d.txq[k..] == d.txq;
    } else {
      assert e.sent[|d.sent|..] == [];
    }
  }

  lemma ChannelStep(n: Net, s: N.System, e: D.Event, out: seq<byte>, back: seq<byte>)
    returns (acts: seq<N.Move>, t: N.System)
    requires Rel(n, s) && e.Channel? && Allowed(n, e)
    ensures Does(N.Act1(s, N.Happen(e.id, e.e)), acts, t, true) && Rel(Happen(n, e, out, back), t)
  {
    hide D.Inv, Flow, Happens, D.PushAll, BuildAll, N.Act1, Does;
    var d := D.Step(n.a, e);
    D.StepKeeps(n.a, e);
    InvMeans(n.a);
    var r := Happens(n.a.node, e.id, e.e);
    var moved := n.a.(node := r.node, txq := D.PushAll(n.a.txq, r.frames));
    HappenIs(s, e.id, e.e);
    acts, t := CheckMoves(N.Act1(s, N.Happen(e.id, e.e)), moved);
    HappensFits(n.a.node, e.id, e.e);
    D.NothingDroppedIffRoom(n.a.txq, r.frames);
    Stayed(n, s, d, r.frames, t);
    SameNet(n, e, out, back);
  }

  lemma HappenIs(s: N.System, id: byte, e: ChannelEvent)
    ensures var r := Happens(s.a, id, e);
            N.Act1(s, N.Happen(id, e)) == s.(a := r.node, ab := s.ab + r.frames)
  {
  }

  /** An event without input or output that leaves the link as it is changes only its daemon. */
  lemma SameNet(n: Net, e: D.Event, out: seq<byte>, back: seq<byte>)
    requires var d := D.Step(n.a, e);
             d.disconnected == n.a.disconnected && d.sent == n.a.sent && d.parser == n.a.parser && Input(n.a, e) == []
    ensures Happen(n, e, out, back) == n.(a := D.Step(n.a, e))
  {
    hide D.Step;
    assert n.ab + [] == n.ab && n.ba[0..] == n.ba;
  }

  /** What is under way to `a` behind the bytes it reads. */
  function Behind(n: Net, e: D.Event): seq<byte>
    requires |Input(n.a, e)| <= |n.ba|
  {
    n.ba[|Input(n.a, e)|..] + n.b.txq
  }

  /** The frames read: the parser passes old bytes, then reads frames in flight in order. */
  lemma InputFrames(n: Net, s: N.System, e: D.Event) returns (k: nat, m: nat)
    requires Rel(n, s) && Input(n.a, e) <= n.ba && NoChimera(n, e)
    ensures var p := n.a.parser + Input(n.a, e);
            var r := Scan(p);
            && k <= |r.out| && m <= |s.ba| && |r.out| - k == m && r.out[k..] == s.ba[..m] && (k > 0 ==> s.baOld)
            && |r.rest| <= |p| && Flow(r.rest + Behind(n, e), Less(n.baOld, |p| - |r.rest|), s.ba[m..])
            && (Less(n.baOld, |p| - |r.rest|) > 0 ==> s.baOld && m == 0)
            && k + Less(n.baOld, |p| - |r.rest|) <= n.baOld
  {
    hide N.Inv, D.Inv, Flow, Scan, Less, NotOverlapped, SameEnd;
    var p := n.a.parser + Input(n.a, e);
    assert UnderWay(n.b, n.ba, n.a) == p + Behind(n, e);
    k, m := ScanCrosses(p, Behind(n, e), n.baOld, s.ba);
    LessMeans(n.baOld, |p| - |Scan(p).rest|);
    CountsMatch(Scan(p).out, k, s.ba, m);
  }

  /** What `a` does with them. */
  lemma InputMoves(n: Net, s: N.System, e: D.Event, k: nat) returns (acts: seq<N.Move>, t: N.System)
    requires SameEnd(n.a, s.a, s.aOpen) && n.a.fd && HasRoom(n.a, e) && Benign(e)
    requires e.Readable? && e.read.Data? && e.read.bytes != []
    requires var out := Scan(n.a.parser + e.read.bytes).out;
             k <= |out| <= k + |s.ba| && (k > 0 ==> s.baOld) && out[k..] == s.ba[..|out| - k]
    ensures var d, r := D.Step(n.a, e), Scan(n.a.parser + e.read.bytes);
            && Does(s, acts, t, k == 0)
            && Moved(s, t, d.node, Emits(n.a, e), s.ba[|r.out| - k..]) && (k == |r.out| ==> t.baOld == s.baOld)
            && Fit(Emits(n.a, e)) && d.txq == n.a.txq + Flat(BuildAll(Emits(n.a, e)))
            && d.parser == r.rest && d.sent == n.a.sent && !d.disconnected
  {
    hide D.Inv, Scan, D.DispatchAll, D.PushAll, BuildAll, DispatchEmits, D.Step, Moved, Emits, Fit, Does;
    ReadIs(n.a, e);
    InvMeans(n.a);
    var r := Scan(n.a.parser + e.read.bytes);
    var ready := n.a.(lastRx := Some(e.now), parser := r.rest);
    DispatchStays(ready, r.out, e.ios);
    acts, t := DispatchMoves(s, ready, r.out, e.ios, k);
    DispatchAllQueues(ready, r.out, e.ios);
    D.NothingDroppedIffRoom(n.a.txq, Emits(n.a, e));
  }

  /** Reading: `k` stale frames and the first `m` in flight are handled. */
  lemma InputStep(n: Net, s: N.System, e: D.Event, out: seq<byte>, back: seq<byte>)
    returns (acts: seq<N.Move>, t: N.System, k: nat, m: nat)
    requires Rel(n, s) && e.Readable? && e.read.Data? && e.read.bytes != [] && n.a.fd && Allowed(n, e)
    ensures Does(s, acts, t, n.baOld == 0) && Rel(Happen(n, e, out, back), t)
    ensures var fs := Scan(n.a.parser + e.read.bytes).out;
            && k <= |fs| && m <= |s.ba| && |fs| - k == m && fs[k..] == s.ba[..m]
            && t.ab == s.ab + Emits(n.a, e) && t.ba == s.ba[m..] && t.b == s.b
            && k + Happen(n, e, out, back).baOld <= n.baOld
            && !D.Step(n.a, e).disconnected && D.Step(n.a, e).txq == n.a.txq + Flat(BuildAll(Emits(n.a, e)))
            && D.Step(n.a, e).sent == n.a.sent
  {
    hide D.Inv, Flow, Scan, BuildAll, D.Step, NotOverlapped, Less, HasRoom, Emits, Fit, Happen, Does;
    D.StepKeeps(n.a, e);
    InvMeans(n.a);
    var d, p := D.Step(n.a, e), n.a.parser + e.read.bytes;
    k, m := InputFrames(n, s, e);
    var acts1, s1 := InputMoves(n, s, e, k);
    DoesWeak(s, acts1, s1, k == 0, n.baOld == 0);
    WaySends(n.a, n.b, n.ab, n.abOld, s.ab, s.abOld, d, Emits(n.a, e));
    var left := Less(n.baOld, |p| - |d.parser|);
    acts, t := Normalise(s1, true, left > 0);
    DoesLess(s1, acts, t, n.baOld == 0);
    DoesBoth(s, acts1, s1, acts, t, n.baOld == 0);
    acts := acts1 + acts;
    assert UnderWay(n.b, n.ba[|e.read.bytes|..], d) == d.parser + Behind(n, e);
    InputNet(n, e, out, back, d);
  }

  lemma LessMeans(stale: nat, n: nat)
    ensures Less(stale, n) > 0 ==> stale > 0
  {
  }

  /** The number of frames read is that of the stale ones and of those in flight. */
  lemma CountsMatch(fs: seq<Frame>, k: nat, pend: seq<Frame>, m: nat)
    requires k <= |fs| && m <= |pend| && fs[k..] == pend[..m]
    ensures |fs| - k == m && fs[k..] == pend[..|fs| - k]
  {
    assert |fs[k..]| == |pend[..m]|;
  }

  lemma ReadIs(d: D.Daemon, e: D.Event)
    requires e.Readable? && e.read.Data? && e.read.bytes != [] && d.fd
    ensures var r := Scan(d.parser + e.read.bytes);
            var ready := d.(lastRx := Some(e.now), parser := r.rest);
            && D.Step(d, e) == D.DispatchAll(ready, r.out, e.ios)
            && Emits(d, e) == DispatchEmits(ready, r.out, e.ios)
  {
    hide Scan, D.DispatchAll, DispatchEmits;
  }

  lemma InputNet(n: Net, e: D.Event, out: seq<byte>, back: seq<byte>, d: D.Daemon)
    requires d == D.Step(n.a, e) && d.disconnected == n.a.disconnected && d.sent == n.a.sent && Input(n.a, e) <= n.ba
    ensures var k := |Input(n.a, e)|;
            Happen(n, e, out, back)
            == Net(d, n.b, n.ab, n.ba[k..], n.abOld, Less(n.baOld, |n.a.parser| + k - |d.parser|))
  {
    hide D.Step, Less;
    assert n.ab + [] == n.ab;
  }

  lemma ReadableStep(n: Net, s: N.System, e: D.Event, out: seq<byte>, back: seq<byte>)
    returns (acts: seq<N.Move>, t: N.System)
    requires Rel(n, s) && e.Readable? && Allowed(n, e)
    ensures Does(s, acts, t, Steadily(n, e)) && Rel(Happen(n, e, out, back), t)
  {
    hide D.Inv, Flow, Scan, D.DispatchAll, D.CloseLink, NotOverlapped, HasRoom, Does;
    D.StepKeeps(n.a, e);
    InvMeans(n.a);
    if n.a.fd && e.read.Data? && e.read.bytes != [] {
      var k, m;
      acts, t, k, m := InputStep(n, s, e, out, back);
      DoesWeak(s, acts, t, n.baOld == 0, Steadily(n, e));
    } else if n.a.fd && e.read.ReadFailed? {
      ReadFails(n.a, e.now);
      acts, t := CloseStep(n, s, D.Step(n.a, e), e.now, out, back);
    } else {
      acts, t := [], s;
      DoesNothing(s);
      DoesLess(s, acts, t, Steadily(n, e));
      SameNet(n, e, out, back);
      assert n.(a := n.a) == n;
    }
  }

  lemma ReadFails(d: D.Daemon, now: int)
    requires !d.disconnected
    ensures D.CloseLink(d, now).disconnected
  {
  }

  /** The timer phase of a connected daemon that stays connected. */
  lemma TimersOpen(n: Net, s: N.System, e: D.Event) returns (acts: seq<N.Move>, t: N.System)
    requires Rel(n, s) && e.Timers? && Allowed(n, e) && !n.a.disconnected && !D.Step(n.a, e).disconnected
    ensures Does(s, acts, t, true)
    ensures Rel(n.(a := D.Step(n.a, e)), t) && D.Step(n.a, e).parser == n.a.parser && D.Step(n.a, e).sent == n.a.sent
  {
    hide D.Inv, Flow, D.TickChannels, TickEmits, D.PushAll, BuildAll, Build, N.Act1, Fit, Does;
    var d, now := D.Step(n.a, e), e.t.now;
    D.StepKeeps(n.a, e);
    InvMeans(n.a);
    var kept := D.TickKeepalive(n.a, now, e.t.later);
    TicksStay(kept, kept.node.order, now, e.t.ios);
    var acts1, s1 := PingMoves(s, n.a, now);
    acts, t := TickMoves(s1, kept, kept.node.order, now, e.t.ios);
    DoesBoth(s, acts1, s1, acts, t, true);
    acts := acts1 + acts;
    TimerStream(n.a, e.t);
    var sent, ticks := Emits(n.a, e), TickEmits(kept, kept.node.order, now, e.t.ios);
    D.NothingDroppedIffRoom(n.a.txq, sent);
    if Pings(n.a, now) {
      Assoc(s.ab, [PING], ticks);
    } else {
      assert [] + ticks == ticks;
    }
    Stayed(n, s, d, sent, t);
  }

  lemma PingMoves(s: N.System, d: D.Daemon, now: int) returns (acts: seq<N.Move>, t: N.System)
    requires s.aOpen && s.a == d.node
    ensures Does(s, acts, t, true) && t == if Pings(d, now) then s.(ab := s.ab + [PING]) else s
  {
    hide Does;
    if Pings(d, now) {
      acts, t := [N.Left(N.Keepalive)], N.Act1(s, N.Keepalive);
      DoesOne(s, N.Keepalive, true);
    } else {
      acts, t := [], s;
      DoesNothing(s);
    }
  }

  /** The first half of the timer phase of a daemon that was, or becomes, disconnected. */
  lemma KeptMoves(s: N.System, d: D.Daemon, t: D.TickIo) returns (acts: seq<N.Move>, u: N.System)
    requires SameEnd(d, s.a, s.aOpen) && D.ClockRuns(t) && (d.disconnected || D.TickPhase(d, t).disconnected)
    ensures var k := Kept(d, t);
            && Does(s, acts, u, k.disconnected == d.disconnected)
            && var pend := if k.disconnected then [] else [HELLO];
               u == if k.disconnected == d.disconnected then s
                    else N.System(k.node, !k.disconnected, s.b, s.bOpen, pend, [], true, true)
  {
    hide D.Inv, D.TickPhase, D.AllIdle, Does, D.TickKeepalive, D.OpenLink, D.CloseLink, BuildAll;
    var k := Kept(d, t);
    KeptIs(d, t);
    if k.disconnected == d.disconnected {
      acts, u := [], s;
      DoesNothing(s);
    } else if k.disconnected {
      acts, u := CloseMoves(s, d, t.later);
    } else {
      acts, u := [N.Left(N.Open)], N.Act1(s, N.Open);
      DoesOne(s, N.Open, false);
    }
  }

  /** The timer phase of such a daemon: its idle channels send nothing. */
  lemma TimersClosed(n: Net, s: N.System, e: D.Event, out: seq<byte>, back: seq<byte>)
    returns (acts: seq<N.Move>, t: N.System)
    requires Rel(n, s) && e.Timers? && Allowed(n, e) && (n.a.disconnected || D.Step(n.a, e).disconnected)
    ensures Does(s, acts, t, Steadily(n, e)) && Rel(Happen(n, e, out, back), t)
  {
    hide D.Inv, Flow, D.TickChannels, TickEmits, BuildAll, Build, HasRoom, NotOverlapped, D.AllIdle, N.Act1, Does;
    hide D.TickKeepalive, D.OpenLink, D.CloseLink;
    var d, tick := D.Step(n.a, e), e.t;
    D.StepKeeps(n.a, e);
    InvMeans(n.a);
    var kept := Kept(n.a, tick);
    KeptIs(n.a, tick);
    TicksStay(kept, kept.node.order, tick.now, tick.ios);
    IdleTicks(kept, kept.node.order, tick.now, tick.ios);
    var turned := kept.disconnected != n.a.disconnected;
    var acts1, s1 := KeptMoves(s, n.a, tick);
    var acts2, s2 := TickMoves(s1, kept, kept.node.order, tick.now, tick.ios);
    assert s1.ab + [] == s1.ab;
    DoesLess(s1, acts2, s2, !turned);
    DoesBoth(s, acts1, s1, acts2, s2, !turned);
    acts, t := acts1 + acts2, s2;
    if turned {
      var pend := s1.ab;
      EmptyFits(HELLO);
      NothingFits();
      if kept.disconnected {
        ClosedQueue(kept);
      }
      var acts3, s3 := Turned(n, s, d, out, back, pend, s2);
      DoesLess(s2, acts3, s3, false);
      DoesBoth(s, acts, s2, acts3, s3, false);
      acts, t := acts + acts3, s3;
    } else {
      NothingFits();
      NothingFlat();
      assert n.a.txq + [] == n.a.txq;
      Stayed(n, s, d, [], t);
      SameNet(n, e, out, back);
      DoesWeak(s, acts, t, true, Steadily(n, e));
    }
  }

  function Kept(d: D.Daemon, t: D.TickIo): D.Daemon {
    D.TickKeepalive(
      if d.disconnected && t.now >= d.reopenAt then D.OpenLink(d, t.openOk, t.openNow) else d, t.now, t.later)
  }

  /** Where the timer phase stands before it ticks the channels, if the link is closed before or after it. */
  lemma KeptIs(d: D.Daemon, t: D.TickIo)
    requires D.Inv(d) && D.ClockRuns(t) && (d.disconnected || D.TickPhase(d, t).disconnected)
    ensures var k := Kept(d, t);
            && D.Inv(k) && D.AllIdle(k.node)
            && (d.disconnected && k.disconnected ==>
                  k.node == d.node && k.txq == d.txq && k.parser == d.parser && k.sent == d.sent)
            && (d.disconnected && !k.disconnected ==> k.node == d.node && k.txq == Flat(BuildAll([HELLO])))
            && (!d.disconnected ==> k == D.CloseLink(d, t.later) && k.disconnected)
  {
    hide Build, D.TickChannels;
    var reopened := if d.disconnected && t.now >= d.reopenAt then D.OpenLink(d, t.openOk, t.openNow) else d;
    if d.disconnected {
      D.OpenKeeps(d, t.openOk, t.openNow);
    }
    D.KeepaliveKeeps(reopened, t.now, t.later);
    HelloFirst(d, t.openNow);
    var k := Kept(d, t);
    TicksStay(k, k.node.order, t.now, t.ios);
  }

  /** Where an event starts from: an event of a channel is one act of the frame-level system. */
  function Began(s: N.System, e: D.Event): N.System {
    if e.Channel? then N.Act1(s, N.Happen(e.id, e.e)) else s
  }

  /** Every event of a daemon is a sequence of frame-level acts. */
  lemma EventStep(n: Net, s: N.System, e: D.Event, out: seq<byte>, back: seq<byte>)
    returns (acts: seq<N.Move>, t: N.System)
    requires Rel(n, s) && Allowed(n, e)
    ensures Does(Began(s, e), acts, t, Steadily(n, e)) && Rel(Happen(n, e, out, back), t)
  {
    hide Rel, D.Step, Happen, Does, N.Act1;
    match e
    case Timers(_) =>
      if n.a.disconnected || D.Step(n.a, e).disconnected {
        acts, t := TimersClosed(n, s, e, out, back);
      } else {
        acts, t := TimersOpen(n, s, e);
        SameNet(n, e, out, back);
        DoesLess(s, acts, t, Steadily(n, e));
      }
    case Readable(_, _, _) => acts, t := ReadableStep(n, s, e, out, back);
    case Writable(_, _) => acts, t := WritableStep(n, s, e, out, back);
    case Channel(_, _, _) =>
      acts, t := ChannelStep(n, s, e, out, back);
      DoesLess(Began(s, e), acts, t, Steadily(n, e));
  }

  // ---------------------------------------------------------------- runs

  /** An event of channel `id` at the left or the right end. */
  datatype Occurrence = Occurrence(left: bool, id: byte, e: ChannelEvent)

  function Occurred(moves: seq<N.Move>): seq<Occurrence>
    decreases |moves|
  {
    if moves == [] then []
    else
      var act := moves[0].act;
      (if act.Happen? then [Occurrence(moves[0].Left?, act.id, act.e)] else []) + Occurred(moves[1..])
  }

  function Occurs(m: Move): seq<Occurrence> {
    if m.e.Channel? then [Occurrence(m.Left?, m.e.id, m.e.e)] else []
  }

  function AllOccur(moves: seq<Move>): seq<Occurrence>
    decreases |moves|
  {
    if moves == [] then [] else Occurs(moves[0]) + AllOccur(moves[1..])
  }

  /** The frame-level moves lead from `s` to `t`, with these events of channels. */
  ghost predicate Runs(s: N.System, moves: seq<N.Move>, t: N.System, steady: bool, events: seq<Occurrence>) {
    && (forall i :: 0 <= i < |moves| ==> N.Benign(moves[i].act)) && (steady ==> Steady(moves))
    && N.Exec(s, moves) == t && Occurred(moves) == events
  }

  lemma {:induction false} OccurredAppend(p: seq<N.Move>, q: seq<N.Move>)
    ensures Occurred(p + q) == Occurred(p) + Occurred(q)
    decreases |p|
  {
    if p == [] {
      assert p + q == q;
    } else {
      assert (p + q)[0] == p[0] && (p + q)[1..] == p[1..] + q;
      OccurredAppend(p[1..], q);
      var act := p[0].act;
      Assoc(if act.Happen? then [Occurrence(p[0].Left?, act.id, act.e)] else [], Occurred(p[1..]), Occurred(q));
    }
  }

  lemma {:induction false} NoneOccurred(moves: seq<N.Move>)
    requires forall i :: 0 <= i < |moves| ==> !moves[i].act.Happen?
    ensures Occurred(moves) == []
    decreases |moves|
  {
    if moves != [] {
      NoneOccurred(moves[1..]);
    }
  }

  lemma RunsBoth(s: N.System, p: seq<N.Move>, t: N.System, q: seq<N.Move>, u: N.System, steady: bool,
                 x: seq<Occurrence>, y: seq<Occurrence>)
    requires Runs(s, p, t, steady, x) && Runs(t, q, u, steady, y)
    ensures Runs(s, p + q, u, steady, x + y)
  {
    hide N.Exec, N.Benign, Occurred;
    N.ExecAppend(s, p, q);
    OccurredAppend(p, q);
  }

  lemma RunsWeak(s: N.System, p: seq<N.Move>, t: N.System, x: bool, y: bool, events: seq<Occurrence>)
    requires Runs(s, p, t, x, events) && (y ==> x)
    ensures Runs(s, p, t, y, events)
  {
  }

  lemma DoesRuns(s: N.System, acts: seq<N.Move>, t: N.System, steady: bool)
    requires Does(s, acts, t, steady)
    ensures Runs(s, acts, t, steady, [])
  {
    hide N.Exec, N.Benign, Occurred;
    NoneOccurred(acts);
  }

  lemma DoesMirrored(s: N.System, acts: seq<N.Move>, t: N.System, steady: bool)
    requires Does(N.Swap(s), acts, t, steady)
    ensures Does(s, N.Mirror(acts), N.Swap(t), steady)
  {
    hide N.Exec, N.Benign;
    N.MirrorExec(N.Swap(s), acts);
    assert N.Swap(N.Swap(s)) == s;
    assert forall i :: 0 <= i < |acts| ==> N.Mirror(acts)[i].act == acts[i].act;
  }

  predicate StepSteadily(n: Net, m: Move) {
    if m.Left? then Steadily(n, m.e) else Steadily(Swap(n), m.e)
  }

  /** The channel event with which a move starts, as a move of the frame-level system. */
  function First(m: Move): seq<N.Move> {
    if !m.e.Channel? then []
    else if m.Left? then [N.Left(N.Happen(m.e.id, m.e.e))]
    else [N.Right(N.Happen(m.e.id, m.e.e))]
  }

  lemma FirstRuns(s: N.System, m: Move)
    requires Benign(m.e)
    ensures var t := if m.Left? then Began(s, m.e) else N.Swap(Began(N.Swap(s), m.e));
            Runs(s, First(m), t, true, Occurs(m))
  {
    hide N.Act1;
    assert N.Swap(N.Swap(s)) == s;
    if m.e.Channel? {
      assert First(m)[1..] == [];
      assert N.Exec(N.Step(s, First(m)[0]), []) == N.Step(s, First(m)[0]);
      assert Occurred([]) == [];
    }
  }

  lemma MoveStep(n: Net, s: N.System, m: Move) returns (acts: seq<N.Move>, t: N.System)
    requires Rel(n, s) && MayStep(n, m)
    ensures Runs(s, acts, t, StepSteadily(n, m), Occurs(m)) && Rel(Step(n, m), t)
  {
    hide Rel, Happen, Does, Steadily, Runs, Began, Possible, HasRoom, NoChimera;
    var began;
    if m.Left? {
      began := Began(s, m.e);
      acts, t := EventStep(n, s, m.e, m.out, m.back);
    } else {
      SwapRel(n, s);
      began := N.Swap(Began(N.Swap(s), m.e));
      acts, t := EventStep(Swap(n), N.Swap(s), m.e, m.out, m.back);
      var there := Happen(Swap(n), m.e, m.out, m.back);
      assert Swap(Swap(there)) == there && N.Swap(N.Swap(t)) == t && N.Swap(began) == Began(N.Swap(s), m.e);
      SwapRel(Swap(there), N.Swap(t));
      DoesMirrored(began, acts, t, StepSteadily(n, m));
      acts, t := N.Mirror(acts), N.Swap(t);
    }
    DoesRuns(began, acts, t, StepSteadily(n, m));
    FirstRuns(s, m);
    RunsWeak(s, First(m), began, true, StepSteadily(n, m), Occurs(m));
    RunsBoth(s, First(m), began, acts, t, StepSteadily(n, m), Occurs(m), []);
    acts := First(m) + acts;
    assert Occurs(m) + [] == Occurs(m);
  }

  predicate AllSteadily(n: Net, moves: seq<Move>)
    decreases |moves|
  {
    moves == [] || (StepSteadily(n, moves[0]) && AllSteadily(Step(n, moves[0]), moves[1..]))
  }

  /** Refinement: every run of the daemons and wires is a run of the frame-level system with the same channel
      events, one in which no stale frame is handled for as long as no link is opened or closed and no old
      bytes are left. */
  lemma {:induction false} Refines(n: Net, s: N.System, moves: seq<Move>) returns (acts: seq<N.Move>, t: N.System)
    requires Rel(n, s) && MayExec(n, moves)
    ensures Runs(s, acts, t, AllSteadily(n, moves), AllOccur(moves)) && Rel(Exec(n, moves), t)
    decreases |moves|
  {
    hide Rel, Step, MayStep, Runs, StepSteadily, Occurs;
    if moves == [] {
      acts, t := [], s;
      DoesNothing(s);
      DoesRuns(s, acts, t, true);
    } else {
      var steady, next := AllSteadily(n, moves), Step(n, moves[0]);
      var acts1, s1 := MoveStep(n, s, moves[0]);
      RunsWeak(s, acts1, s1, StepSteadily(n, moves[0]), steady, Occurs(moves[0]));
      acts, t := Refines(next, s1, moves[1..]);
      RunsWeak(s1, acts, t, AllSteadily(next, moves[1..]), steady, AllOccur(moves[1..]));
      RunsBoth(s, acts1, s1, acts, t, steady, Occurs(moves[0]), AllOccur(moves[1..]));
      acts := acts1 + acts;
    }
  }

  /** Two new daemons; anything may be on the wires. */
  ghost predicate Initial(n: Net) {
    D.Initial(n.a) && D.Initial(n.b) && n.abOld == |n.ab| && n.baOld == |n.ba|
  }

  lemma InitialRel(n: Net) returns (s: N.System)
    requires Initial(n)
    ensures Rel(n, s) && N.Initial(s)
  {
    hide Build;
    s := N.System(n.a.node, false, n.b.node, false, [], [], n.abOld > 0, n.baOld > 0);
    NothingFlat();
    assert UnderWay(n.a, n.ab, n.b) == n.ab && UnderWay(n.b, n.ba, n.a) == n.ba;
  }

  /** Nothing is queued, on a wire or held by a parser, in either direction. */
  predicate Quiet(n: Net) {
    UnderWay(n.a, n.ab, n.b) == [] && UnderWay(n.b, n.ba, n.a) == []
  }

  /** Agreement of two daemons joined by byte wires: in every run with free closing and reopening, frames cut
      in half and anything left on the wires, once both links are open and nothing is under way both
      handshakes are complete and each PTY is open exactly when its MCU is active. */
  lemma BytesAgree(n: Net, moves: seq<Move>)
    requires Initial(n) && MayExec(n, moves)
    ensures var u := Exec(n, moves);
            !u.a.disconnected && !u.b.disconnected && Quiet(u) ==>
              N.Agreed(N.System(u.a.node, true, u.b.node, true, [], [], false, false))
  {
    hide Exec, MayExec, Initial, N.Initial, N.Exec, N.Inv;
    var s0 := InitialRel(n);
    var acts, s := Refines(n, s0, moves);
    N.Agreement(s0, acts);
    var u := Exec(n, moves);
    if !u.a.disconnected && !u.b.disconnected && Quiet(u) {
      NothingPends(s.ab);
      NothingPends(s.ba);
      SameAgreement(s, N.System(u.a.node, true, u.b.node, true, [], [], false, false));
    }
  }

  lemma NothingPends(pend: seq<Frame>)
    requires Fit(pend)
    ensures Flat(BuildAll(pend)) == [] ==> pend == []
  {
    hide Checksum;
    if pend != [] {
      FirstBuilt(pend);
    }
  }

  lemma SameAgreement(s: N.System, t: N.System)
    requires s.a == t.a && s.b == t.b && N.Agreed(s)
    ensures N.Agreed(t)
  {
  }
}
