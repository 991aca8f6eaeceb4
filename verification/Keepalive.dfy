/** Keepalive between two C daemons whose links are up.  Time is an integer clock shared by both ends.
    `J` bounds how late the loop runs the timer that is due, `D` how long a queued frame takes to arrive. */
module Keepalive {
  const KA_INTERVAL := 3000
  const KA_TIMEOUT := 10000

  /** `pending` are the queueing times of frames that have not completely arrived at the peer yet. */
  datatype End = End(open: bool, lastTx: int, lastRx: int, lastTick: int, pending: seq<int>)

  datatype Pair = Pair(now: int, a: End, b: End)

  function Swap(p: Pair): Pair {
    Pair(p.now, p.b, p.a)
  }

  /** `enqueue_frame`, for any frame. */
  function Enqueue(e: End, now: int): End {
    e.(lastTx := now, pending := e.pending + [now])
  }

  /** `tick_keepalive` of an end whose handshake is complete. */
  function TickKeepalive(e: End, now: int, txqEmpty: bool): End {
    var t := e.(lastTick := now);
    if !e.open then t
    else if e.lastRx > 0 && now - e.lastRx > KA_TIMEOUT then t.(open := false)
    else if txqEmpty && e.lastTx > 0 && now - e.lastTx >= KA_INTERVAL then Enqueue(t, now)
    else t
  }

  datatype Act =
    | Send                     // queue any other frame
    | Timer(txqEmpty: bool)    // run the timers
    | Arrive(whole: bool)      // bytes of the oldest pending frame reach the peer, perhaps all of it
    | Wait(until: int)

  datatype Move = Left(act: Act) | Right(act: Act)

  function Act1(p: Pair, act: Act): Pair {
    match act
    case Send => p.(a := Enqueue(p.a, p.now))
    case Timer(txqEmpty) => p.(a := TickKeepalive(p.a, p.now, txqEmpty))
    case Arrive(whole) =>
      if p.a.pending == [] then p
      else p.(a := p.a.(pending := if whole then p.a.pending[1..] else p.a.pending), b := p.b.(lastRx := p.now))
    case Wait(until) => p.(now := until)
  }

  /** A queue whose frames have all arrived is empty; time passes only while every frame in flight still
      has time to arrive and the timers are not later than `J` behind. */
  predicate Allowed(p: Pair, act: Act, J: nat, D: nat) {
    match act
    case Timer(txqEmpty) => p.a.pending == [] ==> txqEmpty
    case Wait(until) => p.now <= until && OnTime(p.a, until, J, D) && OnTime(p.b, until, J, D)
    case _ => true
  }

  /** The loop sleeps until the next keepalive is due; while one is overdue it does not sleep at all. */
  predicate OnTime(e: End, t: int, J: nat, D: nat) {
    && (e.pending != [] ==> t <= e.pending[0] + D)
    && t <= Due(e) + J
  }

  function Due(e: End): int {
    if e.lastTick < e.lastTx + KA_INTERVAL then e.lastTx + KA_INTERVAL else e.lastTick + 1
  }

  function Step(p: Pair, m: Move): Pair {
    match m
    case Left(act) => Act1(p, act)
    case Right(act) => Swap(Act1(Swap(p), act))
  }

  predicate MayStep(p: Pair, m: Move, J: nat, D: nat) {
    match m
    case Left(act) => Allowed(p, act, J, D)
    case Right(act) => Allowed(Swap(p), act, J, D)
  }

  function Exec(p: Pair, moves: seq<Move>): Pair
    decreases |moves|
  {
    if moves == [] then p else Exec(Step(p, moves[0]), moves[1..])
  }

  predicate MayExec(p: Pair, moves: seq<Move>, J: nat, D: nat)
    decreases |moves|
  {
    moves == [] || (MayStep(p, moves[0], J, D) && MayExec(Step(p, moves[0]), moves[1..], J, D))
  }

  /** Both ends up, and everything sent so far has arrived just now. */
  predicate Fresh(p: Pair) {
    && p.now > 0
    && p.a == End(true, p.now, p.now, p.now, [])
    && p.b == End(true, p.now, p.now, p.now, [])
  }

  /** Seen from a sender `e` and the last time `rx` its peer heard anything: the oldest frame in flight was
      queued within one late interval of that time, and with none in flight the next one will be. */
  predicate Flowing(e: End, rx: int, now: int, J: nat, D: nat) {
    && 0 < e.lastTx <= now && 0 < rx <= now && e.lastTick <= now <= Due(e) + J
    && (e.pending == [] ==> rx >= e.lastTx && e.lastTick < rx + KA_INTERVAL)
    && (e.pending != [] ==> now <= e.pending[0] + D && rx >= e.pending[0] - KA_INTERVAL - J)
    && (forall i :: 0 <= i < |e.pending| ==> e.pending[0] <= e.pending[i] <= now)
    && (forall i :: 1 <= i < |e.pending| ==> e.pending[i - 1] <= e.pending[i])
  }

  predicate Inv(p: Pair, J: nat, D: nat) {
    p.a.open && p.b.open && Flowing(p.a, p.b.lastRx, p.now, J, D) && Flowing(p.b, p.a.lastRx, p.now, J, D)
  }

  /** The silence an end can observe. */
  lemma SilenceBound(e: End, rx: int, now: int, J: nat, D: nat)
    requires Flowing(e, rx, now, J, D)
    ensures now - rx <= KA_INTERVAL + J + D
    ensures e.pending == [] ==> now - rx <= KA_INTERVAL + J
  {
  }

  lemma EnqueueFlows(e: End, rx: int, now: int, J: nat, D: nat)
    requires Flowing(e, rx, now, J, D)
    ensures Flowing(Enqueue(e, now), rx, now, J, D)
  {
    SilenceBound(e, rx, now, J, D);
    var q := Enqueue(e, now).pending;
    if e.pending != [] {
      assert q[0] == e.pending[0];
    }
  }

  lemma TimerKeeps(p: Pair, txqEmpty: bool, J: nat, D: nat)
    requires Inv(p, J, D) && KA_INTERVAL + J + D <= KA_TIMEOUT && Allowed(p, Timer(txqEmpty), J, D)
    ensures Inv(Act1(p, Timer(txqEmpty)), J, D)
  {
    SilenceBound(p.b, p.a.lastRx, p.now, J, D);
    EnqueueFlows(p.a, p.b.lastRx, p.now, J, D);
  }

  lemma ArriveKeeps(p: Pair, whole: bool, J: nat, D: nat)
    requires Inv(p, J, D)
    ensures Inv(Act1(p, Arrive(whole)), J, D)
  {
    if p.a.pending != [] && whole {
      var q := p.a.pending[1..];
      assert forall i :: 0 <= i < |q| ==> q[i] == p.a.pending[i + 1];
      if q != [] {
        Ascending(q, |q| - 1);
      }
    }
  }

  lemma {:induction false} Ascending(q: seq<int>, k: nat)
    requires k < |q| && forall i :: 1 <= i < |q| ==> q[i - 1] <= q[i]
    ensures forall i :: 0 <= i <= k ==> q[0] <= q[i]
    decreases k
  {
    if k > 0 {
      Ascending(q, k - 1);
      assert q[k - 1] <= q[k];
    }
  }

  lemma ActKeeps(p: Pair, act: Act, J: nat, D: nat)
    requires Inv(p, J, D) && Allowed(p, act, J, D) && KA_INTERVAL + J + D <= KA_TIMEOUT
    ensures Inv(Act1(p, act), J, D)
  {
    match act
    case Send => EnqueueFlows(p.a, p.b.lastRx, p.now, J, D);
    case Timer(txqEmpty) => TimerKeeps(p, txqEmpty, J, D);
    case Arrive(whole) => ArriveKeeps(p, whole, J, D);
    case Wait(until) =>
  }

  lemma {:induction false} ExecKeeps(p: Pair, moves: seq<Move>, J: nat, D: nat)
    requires Inv(p, J, D) && MayExec(p, moves, J, D) && KA_INTERVAL + J + D <= KA_TIMEOUT
    ensures Inv(Exec(p, moves), J, D)
    decreases |moves|
  {
    if moves != [] {
      assert Inv(Swap(p), J, D);
      ActKeeps(if moves[0].Left? then p else Swap(p), moves[0].act, J, D);
      ExecKeeps(Step(p, moves[0]), moves[1..], J, D);
    }
  }

  /** Soundness: with enough slack no run of two live ends ever closes the link by keepalive timeout. */
  lemma NeverTimesOut(p: Pair, moves: seq<Move>, J: nat, D: nat)
    requires Fresh(p) && MayExec(p, moves, J, D) && KA_INTERVAL + J + D <= KA_TIMEOUT
    ensures Exec(p, moves).a.open && Exec(p, moves).b.open
  {
    ExecKeeps(p, moves, J, D);
  }

  // ---------------------------------------------------------------- the slack is needed

  /** Extend a run by one step. */
  lemma {:induction false} RunsLast(p: Pair, moves: seq<Move>, m: Move, J: nat, D: nat)
    requires MayExec(p, moves, J, D) && MayStep(Exec(p, moves), m, J, D)
    ensures MayExec(p, moves + [m], J, D) && Exec(p, moves + [m]) == Step(Exec(p, moves), m)
    decreases |moves|
  {
    hide Step, MayStep;
    if moves == [] {
      assert [] + [m] == [m] && [m][1..] == [];
      assert MayExec(Step(p, m), [], J, D);
    } else {
      assert (moves + [m])[1..] == moves[1..] + [m];
      RunsLast(Step(p, moves[0]), moves[1..], m, J, D);
    }
  }

  /** Three steps at once: time passes and both ends run their timers. */
  lemma Ticks(p: Pair, moves: seq<Move>, until: int, empty: bool, J: nat, D: nat) returns (more: seq<Move>)
    requires MayExec(p, moves, J, D) && Exec(p, moves).now <= until
    requires var q := Exec(p, moves);
             OnTime(q.a, until, J, D) && OnTime(q.b, until, J, D) && (empty || (q.a.pending != [] && q.b.pending != []))
    ensures MayExec(p, more, J, D)
    ensures var q := Exec(p, moves);
            Exec(p, more) == Pair(until, TickKeepalive(q.a, until, empty), TickKeepalive(q.b, until, empty))
  {
    var tick := Timer(empty);
    RunsLast(p, moves, Left(Wait(until)), J, D);
    more := moves + [Left(Wait(until))];
    RunsLast(p, more, Left(tick), J, D);
    more := more + [Left(tick)];
    RunsLast(p, more, Right(tick), J, D);
    more := more + [Right(tick)];
  }

  /** Nothing has arrived at either end since `rx`, and a frame queued at `sent` is on its way each way. */
  predicate Silent(e: End, rx: int, sent: int, now: int) {
    e.lastRx == rx && e.pending == [sent] && e.lastTick == now
  }

  /** Both ends keep running their timers while the frames are on their way. */
  lemma {:induction false} Spins(p: Pair, moves: seq<Move>, k: nat, rx: int, sent: int, J: nat, D: nat)
    returns (more: seq<Move>)
    requires MayExec(p, moves, J, D)
    requires var q := Exec(p, moves);
             Silent(q.a, rx, sent, q.now) && Silent(q.b, rx, sent, q.now) && q.now + k <= sent + D
    ensures MayExec(p, more, J, D)
    ensures var q := Exec(p, more);
            q.now == Exec(p, moves).now + k && Silent(q.a, rx, sent, q.now)
    decreases k
  {
    more := moves;
    if k > 0 {
      more := Ticks(p, moves, Exec(p, moves).now + 1, false, J, D);
      more := Spins(p, more, k - 1, rx, sent, J, D);
    }
  }

  /** The slack is needed: with any less, some run of two live ends closes the link. */
  lemma SlackIsNeeded(p: Pair, J: nat, D: nat) returns (moves: seq<Move>)
    requires Fresh(p) && KA_INTERVAL + J + D > KA_TIMEOUT
    ensures MayExec(p, moves, J, D) && !Exec(p, moves).a.open
  {
    hide MayExec, Exec;
    var late := p.now + KA_INTERVAL + J;
    moves := [];
    assert MayExec(p, moves, J, D) && Exec(p, moves) == p by {
      Standing(p, J, D);
    }
    moves := Ticks(p, moves, late, true, J, D);
    if Exec(p, moves).a.open {
      assert Silent(Exec(p, moves).a, p.now, late, late) && Silent(Exec(p, moves).b, p.now, late, late);
      moves := Spins(p, moves, D, p.now, late, J, D);
      RunsLast(p, moves, Left(Timer(false)), J, D);
      moves := moves + [Left(Timer(false))];
    }
  }

  lemma Standing(p: Pair, J: nat, D: nat)
    ensures MayExec(p, [], J, D) && Exec(p, []) == p
  {
  }
}
