/** The TCP tunnel over the whole link: two daemons, their channels side by side, frames built, queued,
    carried as bytes and parsed again.  Within a session, what one channel's ends see is the tunnel of
    `TcpTunnel` and `TcpReturn`, driven by the channel's own events, so the fidelity of both directions
    holds of the daemons. */
module TcpOverLink {
  import opened Bytes
  import opened LinkFrame
  import opened TxQueue
  import opened Channels
  import opened Session
  import opened SessionView
  import T = TcpTunnel
  import R = TcpReturn
  import N = TwoNode
  import W = TwoDaemons

  // ---------------------------------------------------------------- the tunnel seen in the system

  /** The pause flag of a source channel does not matter to its connections. */
  predicate SameSource(x: TcpSource, y: TcpSource) {
    x == y.(bpPaused := x.bpPaused)
  }

  /** Channel `id` joins a TCP source at `a` to a TCP destination at `b`; `d` is what its ends see. */
  ghost predicate Shows(s: N.System, d: R.Duplex, id: byte) {
    && InSession(s)
    && id in s.a.chans && s.a.chans[id].SourceCh? && SameSource(d.t.src, s.a.chans[id].src)
    && id in s.b.chans && s.b.chans[id].DestCh? && d.t.dst == s.b.chans[id].dst.conns
    && d.t.fifo == Carried(s.ab, id) && d.back == Carried(s.ba, id)
  }

  lemma {:induction false} AcceptPaused(s: TcpSource, b: bool, id: byte, registered: seq<bool>)
    ensures var o := Accept(s, id, registered);
            Accept(s.(bpPaused := b), id, registered) == Out(o.ch.(bpPaused := b), o.frames)
    decreases |registered|
  {
    hide AllocSlot, Pack16;
    if registered != [] {
      var (slot, next) := AllocSlot(s.conns, s.nextSlot, MAX_TCP_CONNS);
      if !s.linkUp {
        AcceptPaused(s, b, id, registered[1..]);
      } else if slot.None? || !registered[0] {
        AcceptPaused(s.(nextSlot := next), b, id, registered[1..]);
      } else {
        var taken := s.(nextSlot := next, conns := s.conns[slot.value := Conn([], false, false)]);
        AcceptPaused(taken, b, id, registered[1..]);
      }
    }
  }

  lemma SourcePaused(x: TcpSource, y: TcpSource, id: byte, e: ChannelEvent)
    requires SameSource(x, y)
    ensures var o, p := SourceEvent(x, id, e), SourceEvent(y, id, e);
            SameSource(o.ch, p.ch) && o.frames == p.frames
  {
    hide SourceSlotEvent, Accept;
    if e.Listener? {
      AcceptPaused(y, x.bpPaused, id, e.registered);
    }
  }

  // ---------------------------------------------------------------- one move

  /** The channel events among the moves of the tunnel. */
  function Own(ms: seq<R.Move>, id: byte): seq<W.Occurrence>
    decreases |ms|
  {
    if ms == [] then []
    else
      (match ms[0]
       case AtSource(e) => [W.Occurrence(true, id, e)]
       case AtDest(e) => [W.Occurrence(false, id, e)]
       case _ => []) + Own(ms[1..], id)
  }

  lemma OneMove(d: R.Duplex, m: R.Move, id: byte, c: nat)
    ensures R.Moves(d, [m], id, c) == R.Move1(d, m, id, c) && Own([m], id) + [] == Own([m], id)
    ensures Own([m], id) == (match m
                             case AtSource(e) => [W.Occurrence(true, id, e)]
                             case AtDest(e) => [W.Occurrence(false, id, e)]
                             case _ => [])
  {
    hide R.Move1;
    assert [m][1..] == [];
    assert R.Moves(R.Move1(d, m, id, c), [], id, c) == R.Move1(d, m, id, c);
  }

  /** An act of the source's end, in the tunnel. */
  lemma LeftShows(s: N.System, d: R.Duplex, act: N.Act, id: byte, c: nat) returns (ms: seq<R.Move>)
    requires Shows(s, d, id) && !(act.Open? || act.Close? || act.Stale?)
    ensures Shows(N.Act1(s, act), R.Moves(d, ms, id, c), id) && Own(ms, id) == Of(Event(N.Left(act)), id)
  {
    hide SourceEvent, SlotOnFrame, InSession, Carried, Receive, N.From, T.Gets, R.HandsOver, R.Hears;
    SessionMeans(s);
    if Elsewhere(s, act, id) {
      ms := [];
      ActAside(s, act, id);
    } else {
      match act {
        case Deliver(io) =>
          ms := [R.SourceTakes];
          OneMove(d, R.SourceTakes, id, c);
          TailInSession(s, id);
          HandledInSession(s.(ba := s.ba[1..]), s.ba[0], io, id);
        case Happen(x, e) =>
          ms := [R.AtSource(e)];
          OneMove(d, R.AtSource(e), id, c);
          N.EventFrom(s.a.chans[id], id, e);
          SentInSession(s, id, HandleEvent(s.a.chans[id], id, e), id);
          SourcePaused(d.t.src, s.a.chans[id].src, id, e);
          OneEvent(W.Occurrence(true, id, e));
        case _ =>
      }
    }
  }

  /** An act of the destination's end, in the tunnel. */
  lemma RightShows(s: N.System, d: R.Duplex, act: N.Act, id: byte, c: nat) returns (ms: seq<R.Move>)
    requires Shows(s, d, id) && !(act.Open? || act.Close? || act.Stale?)
    ensures Shows(N.Swap(N.Act1(N.Swap(s), act)), R.Moves(d, ms, id, c), id)
    ensures Own(ms, id) == Of(Event(N.Right(act)), id)
  {
    hide DestSlotEvent, DestOnFrame, InSession, Carried, Receive, N.From;
    hide T.Puts, R.Hears, R.HandsOver, T.AfterFrame, T.Gone;
    SessionMeans(s);
    SwapSession(s);
    var p := N.Swap(s);
    SwapSession(N.Act1(p, act));
    if Elsewhere(p, act, id) {
      ms := [];
      ActAside(p, act, id);
    } else {
      match act {
        case Deliver(io) =>
          ms := [R.DestTakes(io)];
          OneMove(d, R.DestTakes(io), id, c);
          TailInSession(p, id);
          HandledInSession(p.(ba := p.ba[1..]), p.ba[0], io, id);
        case Happen(x, e) =>
          ms := [R.AtDest(e)];
          OneMove(d, R.AtDest(e), id, c);
          N.EventFrom(p.a.chans[id], id, e);
          SentInSession(p, id, HandleEvent(p.a.chans[id], id, e), id);
          OneEvent(W.Occurrence(false, id, e));
          assert d.back + [] == d.back;
        case _ =>
      }
    }
  }

  // ---------------------------------------------------------------- runs

  lemma {:induction false} MovesAppend(d: R.Duplex, p: seq<R.Move>, q: seq<R.Move>, id: byte, c: nat)
    ensures R.Moves(d, p + q, id, c) == R.Moves(R.Moves(d, p, id, c), q, id, c)
    ensures Own(p + q, id) == Own(p, id) + Own(q, id)
    decreases |p|
  {
    hide R.Move1;
    if p == [] {
      assert p + q == q;
    } else {
      assert (p + q)[0] == p[0] && (p + q)[1..] == p[1..] + q;
      MovesAppend(R.Move1(d, p[0], id, c), p[1..], q, id, c);
      Assoc(Own(p, id)[..|Own(p, id)| - |Own(p[1..], id)|], Own(p[1..], id), Own(q, id));
    }
  }

  /** Within a session every run of the frame-level system is a run of the tunnel, driven by the events of
      the channel at either end. */
  lemma {:induction false} RunShows(s: N.System, d: R.Duplex, moves: seq<N.Move>, id: byte, c: nat)
    returns (ms: seq<R.Move>)
    requires Shows(s, d, id) && W.Steady(moves)
    ensures Shows(N.Exec(s, moves), R.Moves(d, ms, id, c), id) && Own(ms, id) == Of(W.Occurred(moves), id)
    decreases |moves|
  {
    hide Shows, N.Act1, R.Move1;
    ms := [];
    if moves != [] {
      var m := moves[0];
      var first;
      if m.Left? {
        first := LeftShows(s, d, m.act, id, c);
      } else {
        first := RightShows(s, d, m.act, id, c);
      }
      var d1 := R.Moves(d, first, id, c);
      ms := RunShows(N.Step(s, m), d1, moves[1..], id, c);
      MovesAppend(d, first, ms, id, c);
      OfAppend(Event(m), W.Occurred(moves[1..]), id);
      ms := first + ms;
    }
  }

  /** What the tunnel promises about connection `c` in state `u` on the way out: what its destination has
      written and buffered is what was read at the source, up to what is still in flight. */
  ghost predicate FaithfulOut(u: R.Duplex, c: nat) {
    && (u.t.phase == T.Live ==>
          && c in u.t.dst && u.t.written + u.t.dst[c].txbuf <= u.t.read
          && (u.t.fifo == [] ==> u.t.written + u.t.dst[c].txbuf == u.t.read))
    && (u.t.phase == T.Drained ==> u.t.written == u.t.read)
  }

  /** The same on the way back. */
  ghost predicate FaithfulBack(u: R.Duplex, c: nat) {
    && (u.home == T.Live ==>
          && c in u.t.src.conns && u.handed + u.t.src.conns[c].txbuf <= u.heard
          && (u.back == [] ==> u.handed + u.t.src.conns[c].txbuf == u.heard))
    && (u.home == T.Drained ==> u.handed == u.heard)
  }

  lemma {:induction false} TunnelMoves(d: R.Duplex, ms: seq<R.Move>, id: byte, c: nat)
    requires T.Inv(d.t, c)
    ensures T.Inv(R.Moves(d, ms, id, c).t, c)
    decreases |ms|
  {
    hide T.Inv, T.Step;
    if ms != [] {
      match ms[0] {
        case AtSource(e) => T.StepKeeps(d.t, T.SourceDoes(e), id, c);
        case SourceTakes =>
          if d.back != [] {
            T.StepKeeps(d.t, T.SourceGets(d.back[0]), id, c);
          }
        case DestTakes(io) => T.StepKeeps(d.t, T.DestGets(io), id, c);
        case AtDest(e) => T.StepKeeps(d.t, T.DestDoes(e), id, c);
      }
      TunnelMoves(R.Move1(d, ms[0], id, c), ms[1..], id, c);
    }
  }

  lemma OutFaithful(d: R.Duplex, ms: seq<R.Move>, id: byte, c: nat)
    requires T.Accepted(d.t, c)
    ensures FaithfulOut(R.Moves(d, ms, id, c), c)
  {
    hide R.Moves, T.InFlight;
    T.NothingInFlight(c);
    assert T.Inv(d.t, c);
    TunnelMoves(d, ms, id, c);
    var u := R.Moves(d, ms, id, c);
    if u.t.phase == T.Live && !u.t.dst[c].closePending && u.t.fifo == [] {
      assert u.t.written + u.t.dst[c].txbuf + [] == u.t.written + u.t.dst[c].txbuf;
    }
  }

  lemma BackFaithful(d: R.Duplex, ms: seq<R.Move>, id: byte, c: nat)
    requires R.Begins(d, c)
    ensures FaithfulBack(R.Moves(d, ms, id, c), c)
  {
    hide R.Moves, T.InFlight;
    T.NothingInFlight(c);
    R.ReturnFidelity(d, ms, id, c);
  }

  /** The connection slots of two daemons are those of the tunnel in state `u`, and nothing under way on the
      link means nothing in flight in the tunnel. */
  ghost predicate Joined(m: W.Net, u: R.Duplex, id: byte) {
    && id in m.a.node.chans && m.a.node.chans[id].SourceCh? && m.a.node.chans[id].src.conns == u.t.src.conns
    && id in m.b.node.chans && m.b.node.chans[id].DestCh? && m.b.node.chans[id].dst.conns == u.t.dst
    && (W.Quiet(m) ==> u.t.fifo == [] && u.back == [])
  }

  lemma ShowsJoined(m: W.Net, t: N.System, u: R.Duplex, id: byte)
    requires W.Rel(m, t) && Shows(t, u, id)
    ensures Joined(m, u, id)
  {
    hide Carried;
    W.NothingPends(t.ab);
    W.NothingPends(t.ba);
    CarriedNothing(id);
  }

  /** What the tunnel, started in `d` when the connection was accepted, promises in state `u`: the way out
      always; the way back until an earlier incarnation of the id gets in the way, which never happens
      under an unused id. */
  ghost predicate Faithful(d: R.Duplex, u: R.Duplex, c: nat) {
    && (T.Accepted(d.t, c) ==> FaithfulOut(u, c))
    && (R.Begins(d, c) ==> FaithfulBack(u, c))
    && (R.FreshlyAccepted(d, c) ==> u.home != T.Overrun)
  }

  lemma TunnelFaithful(d: R.Duplex, ms: seq<R.Move>, id: byte, c: nat)
    ensures Faithful(d, R.Moves(d, ms, id, c), c)
  {
    hide R.Moves, FaithfulOut, FaithfulBack, R.Begins, R.FreshlyAccepted, T.Accepted;
    if T.Accepted(d.t, c) {
      OutFaithful(d, ms, id, c);
    }
    if R.Begins(d, c) {
      BackFaithful(d, ms, id, c);
    }
    if R.FreshlyAccepted(d, c) {
      R.FreshReturns(d, ms, id, c);
    }
  }

  /** TCP fidelity over the whole link.  Two daemons are in a session.  Whatever happens at either of them
      while the link stays open, the connection slots of a channel are those of its tunnel run by the
      channel's own events; so for a connection that has just been accepted, every byte read at one end is
      written at the other, in order, buffered there, or under way, and once nothing is under way only the
      buffers are between the two. */
  lemma TcpOverBytes(n: W.Net, s: N.System, d: R.Duplex, moves: seq<W.Move>, id: byte, c: nat)
    returns (ms: seq<R.Move>)
    requires W.Rel(n, s) && Shows(s, d, id) && W.MayExec(n, moves) && W.AllSteadily(n, moves)
    ensures Own(ms, id) == Of(W.AllOccur(moves), id)
    ensures var u := R.Moves(d, ms, id, c); Joined(W.Exec(n, moves), u, id) && Faithful(d, u, c)
  {
    hide W.Exec, W.MayExec, W.AllSteadily, W.AllOccur, Faithful, R.Moves, Joined, Shows, W.Rel, N.Exec;
    var acts, t := W.Refines(n, s, moves);
    ms := RunShows(s, d, acts, id, c);
    ShowsJoined(W.Exec(n, moves), t, R.Moves(d, ms, id, c), id);
    TunnelFaithful(d, ms, id, c);
  }

  lemma AcceptShows(s: N.System, d: R.Duplex, registered: seq<bool>, id: byte, c: nat) returns (at: nat)
    requires Shows(s, d, id) && c < MAX_TCP_CONNS && c !in d.t.src.conns && s.a.chans[id].src.linkUp
    requires c in Accept(s.a.chans[id].src, id, registered).ch.conns
    ensures var b := R.AfterAccept(d, registered, id, c, at);
            && Shows(N.Act1(s, N.Happen(id, Listener(registered))), b, id) && R.Begins(b, c)
            && (c !in d.t.dst && T.NoEnd(d.t.fifo, c) && R.Clean(d.back, c) ==> R.FreshlyAccepted(b, c))
  {
    hide Accept, InSession, Carried, N.From, T.NoEnd, R.Clean, R.Begins, R.FreshlyAccepted;
    var src, e := s.a.chans[id].src, Listener(registered);
    AcceptPaused(src, d.t.src.bpPaused, id, registered);
    N.EventFrom(s.a.chans[id], id, e);
    SentInSession(s, id, HandleEvent(s.a.chans[id], id, e), id);
    at := R.AcceptBegins(d, registered, id, c);
  }

  /** The same from before the connection is accepted, whatever an earlier incarnation of its id left behind:
      the first event is the listener's. */
  lemma TcpFromAccept(n: W.Net, s: N.System, d: R.Duplex, first: W.Move, moves: seq<W.Move>, id: byte, c: nat)
    returns (at: nat, ms: seq<R.Move>)
    requires W.Rel(n, s) && Shows(s, d, id) && c < MAX_TCP_CONNS && c !in d.t.src.conns && s.a.chans[id].src.linkUp
    requires first.Left? && first.e.Channel? && first.e.id == id && first.e.e.Listener? && W.MayStep(n, first)
    requires c in Accept(s.a.chans[id].src, id, first.e.e.registered).ch.conns
    requires W.MayExec(W.Step(n, first), moves) && W.AllSteadily(W.Step(n, first), moves)
    ensures Own(ms, id) == Of(W.AllOccur(moves), id)
    ensures var b := R.AfterAccept(d, first.e.e.registered, id, c, at);
            var u := R.Moves(b, ms, id, c);
            && Joined(W.Exec(W.Step(n, first), moves), u, id) && FaithfulOut(u, c) && FaithfulBack(u, c)
            && (c !in d.t.dst && T.NoEnd(d.t.fifo, c) && R.Clean(d.back, c) ==> u.home != T.Overrun)
  {
    hide W.Exec, W.MayExec, W.AllSteadily, W.AllOccur, R.FreshlyAccepted, R.Moves, Joined, Shows, W.Rel, N.Exec, N.Act1;
    hide W.Allowed, W.Happen, Accept, R.AfterAccept, W.Occurred, FaithfulOut, FaithfulBack, T.NoEnd, R.Clean;
    at := AcceptShows(s, d, first.e.e.registered, id, c);
    var b, s1 := R.AfterAccept(d, first.e.e.registered, id, c, at), N.Act1(s, N.Happen(id, first.e.e));
    var acts1, t1 := W.ChannelStep(n, s, first.e, first.out, first.back);
    W.DoesRuns(s1, acts1, t1, true);
    var acts2, t := W.Refines(W.Step(n, first), t1, moves);
    W.RunsBoth(s1, acts1, t1, acts2, t, true, [], W.AllOccur(moves));
    ms := RunShows(s1, b, acts1 + acts2, id, c);
    assert [] + W.AllOccur(moves) == W.AllOccur(moves);
    ShowsJoined(W.Exec(W.Step(n, first), moves), t, R.Moves(b, ms, id, c), id);
    TunnelFaithful(b, ms, id, c);
  }

  /** Two daemons with nothing under way are in a session. */
  lemma QuietShows(n: W.Net, s: N.System, id: byte) returns (d: R.Duplex)
    requires W.Rel(n, s) && N.Inv(s) && !n.a.disconnected && !n.b.disconnected && W.Quiet(n)
    requires id in s.a.chans && s.a.chans[id].SourceCh? && id in s.b.chans && s.b.chans[id].DestCh?
    ensures Shows(s, d, id) && d.t.fifo == [] && d.back == []
    ensures d.t.src.conns == n.a.node.chans[id].src.conns && d.t.dst == n.b.node.chans[id].dst.conns
  {
    hide N.Inv, W.Rel, W.Quiet, InSession;
    QuietSession(n, s);
    CarriedNothing(id);
    var t := T.Tunnel(s.a.chans[id].src, s.b.chans[id].dst.conns, [], false, [], [], T.Aborted);
    d := R.Duplex(t, [], [], [], T.Aborted);
  }

  /** TCP fidelity of two new daemons, after any run that has led to open links with nothing under way: a
      listener event then accepts a connection in slot `c`, and anything may follow. */
  lemma TcpFromQuiet(start: W.Net, before: seq<W.Move>, first: W.Move, moves: seq<W.Move>, id: byte, c: nat)
    returns (b: R.Duplex, ms: seq<R.Move>)
    requires W.Initial(start) && W.MayExec(start, before) && c < MAX_TCP_CONNS
    requires first.Left? && first.e.Channel? && first.e.id == id && first.e.e.Listener?
    requires var m := W.Exec(start, before);
             && !m.a.disconnected && !m.b.disconnected && W.Quiet(m)
             && id in m.a.node.chans && m.a.node.chans[id].SourceCh? && c !in m.a.node.chans[id].src.conns
             && id in m.b.node.chans && m.b.node.chans[id].DestCh?
             && c in Accept(m.a.node.chans[id].src, id, first.e.e.registered).ch.conns
             && W.MayStep(m, first) && W.MayExec(W.Step(m, first), moves) && W.AllSteadily(W.Step(m, first), moves)
    ensures Own(ms, id) == Of(W.AllOccur(moves), id) && b.t.read == [] && b.t.written == []
    ensures b.heard == [] && b.handed == [] && b.t.srcOpen && b.t.phase.Pending?
    ensures var m, u := W.Exec(start, before), R.Moves(b, ms, id, c);
            && Joined(W.Exec(W.Step(m, first), moves), u, id) && FaithfulOut(u, c) && FaithfulBack(u, c)
            && (c !in m.b.node.chans[id].dst.conns ==> u.home != T.Overrun)
  {
    hide W.Exec, W.MayExec, W.AllSteadily, W.AllOccur, R.Moves, Joined, W.Rel, N.Exec, N.Inv, W.Initial, W.Step;
    hide W.Quiet, N.Initial, InSession, Accept, FaithfulOut, FaithfulBack, W.MayStep, Carried;
    var m := W.Exec(start, before);
    var s0 := W.InitialRel(start);
    var acts, s := W.Refines(start, s0, before);
    N.Agreement(s0, acts);
    QuietSession(m, s);
    SourceLinked(s, id);
    var d := QuietShows(m, s, id);
    var at;
    at, ms := TcpFromAccept(m, s, d, first, moves, id, c);
    b := R.AfterAccept(d, first.e.e.registered, id, c, at);
    T.NothingInFlight(c);
    R.NothingClean(c);
  }

  lemma SourceLinked(s: N.System, id: byte)
    requires N.Inv(s) && InSession(s) && id in s.a.chans && s.a.chans[id].SourceCh?
    ensures s.a.chans[id].src.linkUp
  {
    assert N.NodeInv(s.a, s.aOpen);
  }
}
