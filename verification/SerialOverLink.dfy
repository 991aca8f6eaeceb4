/** The serial path over the whole link: within a session, what one MCU channel and its PTY see of two
    daemons joined by byte wires is the path of `UartTunnel`, driven by the channel's own events, so that
    both directions are faithful. */
module SerialOverLink {
  import opened Bytes
  import opened LinkFrame
  import opened TxQueue
  import opened Channels
  import opened Session
  import opened SessionView
  import U = UartTunnel
  import N = TwoNode
  import W = TwoDaemons

  /** The pause flag does not matter to the bytes. */
  predicate SameMcu(x: Mcu, y: Mcu) {
    x == y.(bpPaused := x.bpPaused)
  }

  predicate SamePty(x: Pty, y: Pty) {
    x == y.(bpPaused := x.bpPaused)
  }

  /** Channel `id` joins an MCU at `a` to a PTY at `b`; `p` is what its ends see. */
  ghost predicate Shows(s: N.System, p: U.Path, id: byte) {
    && InSession(s)
    && id in s.a.chans && s.a.chans[id].McuCh? && SameMcu(p.mcu, s.a.chans[id].mcu)
    && id in s.b.chans && s.b.chans[id].PtyCh? && SamePty(p.pty, s.b.chans[id].pty)
    && p.fifo == Carried(s.ab, id) && p.back == Carried(s.ba, id)
  }

  lemma McuPaused(x: Mcu, y: Mcu, id: byte, e: ChannelEvent)
    requires SameMcu(x, y)
    ensures var o, p := McuEvent(x, id, e), McuEvent(y, id, e); SameMcu(o.ch, p.ch) && o.frames == p.frames
  {
    hide UartRead, AfterWrite;
    if e.Primary? {
      ReadPaused(x, y, id, e.read, e.now);
    }
  }

  lemma ReadPaused(x: Mcu, y: Mcu, id: byte, read: Read, now: int)
    requires SameMcu(x, y)
    ensures var o, p := UartRead(x, id, read, now), UartRead(y, id, read, now);
            SameMcu(o.ch, p.ch) && o.frames == p.frames
  {
    hide McuTransition, SyncOffset;
    TransitionPaused(x.(fd := false), y.(fd := false), id, Resetting);
    TransitionPaused(x.(lastRx := Some(now)), y.(lastRx := Some(now)), id, Active);
  }

  lemma TransitionPaused(x: Mcu, y: Mcu, id: byte, to: McuState)
    requires SameMcu(x, y)
    ensures var o, p := McuTransition(x, id, to), McuTransition(y, id, to);
            SameMcu(o.ch, p.ch) && o.frames == p.frames
  {
  }

  lemma TickPaused(x: Mcu, y: Mcu, id: byte, now: int, io: Io)
    requires SameMcu(x, y)
    ensures var o, p := McuTick(x, id, now, io), McuTick(y, id, now, io); SameMcu(o.ch, p.ch) && o.frames == p.frames
  {
  }

  lemma PtyPaused(x: Pty, y: Pty, id: byte, e: ChannelEvent)
    requires SamePty(x, y)
    ensures var o, p := PtyEvent(x, id, e), PtyEvent(y, id, e); SamePty(o.ch, p.ch) && o.frames == p.frames
  {
  }

  // ---------------------------------------------------------------- one move

  /** The channel events among those of the path. */
  function Own(evs: seq<U.Event>, id: byte): seq<W.Occurrence>
    decreases |evs|
  {
    if evs == [] then [] else OwnOne(evs[0], id) + Own(evs[1..], id)
  }

  function OwnOne(ev: U.Event, id: byte): seq<W.Occurrence> {
    match ev
    case Uart(e) => [W.Occurrence(true, id, e)]
    case Tty(e) => [W.Occurrence(false, id, e)]
    case _ => []
  }

  lemma OneEventRuns(p: U.Path, ev: U.Event, id: byte)
    ensures U.Exec(p, [ev], id) == U.Step(p, ev, id) && Own([ev], id) == OwnOne(ev, id)
  {
    hide U.Step;
    assert [ev][1..] == [];
    assert U.Exec(U.Step(p, ev, id), [], id) == U.Step(p, ev, id);
  }

  predicate AllBenign(evs: seq<U.Event>) {
    forall i :: 0 <= i < |evs| ==> U.Benign(evs[i])
  }

  /** An act of the exporter's end, on the path. */
  lemma LeftShows(s: N.System, p: U.Path, act: N.Act, id: byte) returns (evs: seq<U.Event>)
    requires Shows(s, p, id) && !(act.Open? || act.Close? || act.Stale?) && N.Benign(act)
    ensures Shows(N.Act1(s, act), U.Exec(p, evs, id), id) && AllBenign(evs)
    ensures Own(evs, id) == Of(Event(N.Left(act)), id)
  {
    hide McuEvent, McuTick, McuOnFrame, InSession, Carried, Receive, N.From;
    hide U.Taken, U.Heard, U.PeriodAfter, U.AfterRead;
    SessionMeans(s);
    if Elsewhere(s, act, id) {
      evs := [];
      ActAside(s, act, id);
    } else {
      match act {
        case Deliver(io) =>
          evs := [U.McuGets(io)];
          OneEventRuns(p, evs[0], id);
          TailInSession(s, id);
          HandledInSession(s.(ba := s.ba[1..]), s.ba[0], io, id);
          FramePaused(p.mcu, s.a.chans[id].mcu, s.ba[0], io);
        case Happen(x, e) =>
          evs := [U.Uart(e)];
          OneEventRuns(p, evs[0], id);
          N.EventFrom(s.a.chans[id], id, e);
          SentInSession(s, id, HandleEvent(s.a.chans[id], id, e), id);
          McuPaused(p.mcu, s.a.chans[id].mcu, id, e);
          OneEvent(W.Occurrence(true, id, e));
        case TickOf(x, now, io) =>
          evs := [U.Timer(now, io)];
          OneEventRuns(p, evs[0], id);
          TickFrom(s.a.chans[id], id, now, io);
          SentInSession(s, id, Tick(s.a.chans[id], id, now, io), id);
          TickPaused(p.mcu, s.a.chans[id].mcu, id, now, io);
        case _ =>
      }
    }
  }

  lemma FramePaused(x: Mcu, y: Mcu, f: Frame, io: Io)
    requires SameMcu(x, y)
    ensures SameMcu(McuOnFrame(x, f, io), McuOnFrame(y, f, io))
  {
  }

  lemma HostPaused(x: Pty, y: Pty, f: Frame, io: Io)
    requires SamePty(x, y)
    ensures SamePty(PtyOnFrame(x, f, io), PtyOnFrame(y, f, io))
  {
  }

  /** An act of the host's end, on the path. */
  lemma RightShows(s: N.System, p: U.Path, act: N.Act, id: byte) returns (evs: seq<U.Event>)
    requires Shows(s, p, id) && !(act.Open? || act.Close? || act.Stale?) && N.Benign(act)
    ensures Shows(N.Swap(N.Act1(N.Swap(s), act)), U.Exec(p, evs, id), id) && AllBenign(evs)
    ensures Own(evs, id) == Of(Event(N.Right(act)), id)
  {
    hide PtyEvent, PtyOnFrame, InSession, Carried, Receive, N.From, U.Taken, U.Heard;
    SessionMeans(s);
    SwapSession(s);
    var q := N.Swap(s);
    SwapSession(N.Act1(q, act));
    if Elsewhere(q, act, id) {
      evs := [];
      ActAside(q, act, id);
    } else {
      match act {
        case Deliver(io) =>
          evs := [U.HostGets(io)];
          OneEventRuns(p, evs[0], id);
          TailInSession(q, id);
          HandledInSession(q.(ba := q.ba[1..]), q.ba[0], io, id);
          HostPaused(p.pty, s.b.chans[id].pty, q.ba[0], io);
          assert Carried(q.ab, id) + [] == Carried(q.ab, id);
        case Happen(x, e) =>
          evs := [U.Tty(e)];
          OneEventRuns(p, evs[0], id);
          N.EventFrom(q.a.chans[id], id, e);
          SentInSession(q, id, HandleEvent(q.a.chans[id], id, e), id);
          PtyPaused(p.pty, s.b.chans[id].pty, id, e);
          OneEvent(W.Occurrence(false, id, e));
        case _ =>
      }
    }
  }

  // ---------------------------------------------------------------- runs

  lemma {:induction false} ExecAppend(p: U.Path, x: seq<U.Event>, y: seq<U.Event>, id: byte)
    ensures U.Exec(p, x + y, id) == U.Exec(U.Exec(p, x, id), y, id) && Own(x + y, id) == Own(x, id) + Own(y, id)
    decreases |x|
  {
    hide U.Step, OwnOne;
    if x == [] {
      assert x + y == y;
    } else {
      assert (x + y)[0] == x[0] && (x + y)[1..] == x[1..] + y;
      ExecAppend(U.Step(p, x[0], id), x[1..], y, id);
      Assoc(OwnOne(x[0], id), Own(x[1..], id), Own(y, id));
    }
  }

  /** Within a session every run of the frame-level system is a run of the path, driven by the events of the
      channel at either end. */
  lemma {:induction false} RunShows(s: N.System, p: U.Path, moves: seq<N.Move>, id: byte) returns (evs: seq<U.Event>)
    requires Shows(s, p, id) && W.Steady(moves) && forall i :: 0 <= i < |moves| ==> N.Benign(moves[i].act)
    ensures Shows(N.Exec(s, moves), U.Exec(p, evs, id), id) && AllBenign(evs)
    ensures Own(evs, id) == Of(W.Occurred(moves), id)
    decreases |moves|
  {
    hide Shows, N.Act1, U.Step, U.Benign, N.Benign;
    evs := [];
    if moves != [] {
      var m := moves[0];
      var first;
      if m.Left? {
        first := LeftShows(s, p, m.act, id);
      } else {
        first := RightShows(s, p, m.act, id);
      }
      evs := RunShows(N.Step(s, m), U.Exec(p, first, id), moves[1..], id);
      ExecAppend(p, first, evs, id);
      OfAppend(Event(m), W.Occurred(moves[1..]), id);
      evs := first + evs;
    }
  }

  /** The MCU and PTY channels of two daemons are those of the path in state `u`, and nothing under way on the
      link means nothing in flight on the path. */
  ghost predicate Joined(m: W.Net, u: U.Path, id: byte) {
    && id in m.a.node.chans && m.a.node.chans[id].McuCh? && SameMcu(u.mcu, m.a.node.chans[id].mcu)
    && id in m.b.node.chans && m.b.node.chans[id].PtyCh? && SamePty(u.pty, m.b.node.chans[id].pty)
    && (W.Quiet(m) ==> u.fifo == [] && u.back == [])
  }

  lemma ShowsJoined(m: W.Net, t: N.System, u: U.Path, id: byte)
    requires W.Rel(m, t) && Shows(t, u, id)
    ensures Joined(m, u, id)
  {
    hide Carried;
    W.NothingPends(t.ab);
    W.NothingPends(t.ba);
    CarriedNothing(id);
  }

  /** Serial fidelity over the whole link.  From any point of a session on, whatever happens at the two daemons
      while the link stays open, the MCU and PTY channels are those of the path run by the channel's own
      events: the PTY is given what the UART delivered and the UART what was typed, in order, and once
      nothing is under way only the two buffers are between them. */
  lemma SerialOverBytes(n: W.Net, s: N.System, p: U.Path, moves: seq<W.Move>, id: byte) returns (evs: seq<U.Event>)
    requires W.Rel(n, s) && Shows(s, p, id) && U.Inv(p) && U.HostFaithful(p)
    requires W.MayExec(n, moves) && W.AllSteadily(n, moves)
    ensures Own(evs, id) == Of(W.AllOccur(moves), id)
    ensures var u := U.Exec(p, evs, id);
            Joined(W.Exec(n, moves), u, id) && U.SerialFaithful(u) && U.HostFaithful(u)
  {
    hide W.Exec, W.MayExec, W.AllSteadily, W.AllOccur, U.Exec, Joined, Shows, W.Rel, N.Exec, U.Inv;
    hide U.SerialFaithful, U.HostFaithful, U.Benign, N.Benign;
    var acts, t := W.Refines(n, s, moves);
    evs := RunShows(s, p, acts, id);
    ShowsJoined(W.Exec(n, moves), t, U.Exec(p, evs, id), id);
    U.SerialFidelity(p, evs, id);
    U.HostFidelity(p, evs, id);
  }

  // ---------------------------------------------------------------- the start

  /** Within a session the frame-level view of a PTY is what its frames will serve. */
  lemma {:induction false} WillIsServed(v: N.View, w: U.Served, q: seq<Frame>, id: byte)
    requires v.up && v.open == w.open && (!w.open ==> w.bytes == [] && w.intact) && !N.HasType(q, F_HELLO)
    ensures var x := U.ServeAll(w, Carried(q, id));
            N.Will(v, q, id).open == x.open && (!x.open ==> x.bytes == [] && x.intact) && (w.intact ==> x.intact)
    decreases |q|
  {
    hide N.HasType, Carried;
    if q == [] {
      CarriedNothing(id);
    } else {
      N.HasTypeTail(q, F_HELLO);
      CarriedTail(q, id);
      var v1 := N.Sees(v, q[0], id);
      if Concerns(q[0], id) {
        WillIsServed(v1, U.Serve(w, q[0]), q[1..], id);
        U.ServeCons(w, Carried(q, id));
      } else {
        WillIsServed(v1, w, q[1..], id);
      }
    }
  }

  /** Any point of a session will do to start from: what is already under way and buffered counts as given to
      either end. */
  lemma SessionStarts(s: N.System, id: byte) returns (p: U.Path)
    requires InSession(s) && N.Inv(s) && N.IsPair(s, id)
    ensures Shows(s, p, id) && U.Inv(p) && U.HostFaithful(p)
    ensures p.intact && p.kept && p.written == [] && p.taken == []
  {
    hide N.HasType, N.Will, Carried, U.ServeAll, U.Payloads;
    var mcu, pty := s.a.chans[id].mcu, s.b.chans[id].pty;
    var fifo, back := Carried(s.ab, id), Carried(s.ba, id);
    var view := U.Served(pty.open, pty.txbuf, true);
    assert N.NodeInv(s.a, s.aOpen) && N.NodeInv(s.b, s.bOpen);
    assert InStep(s.a.chans[id], s.a.up) && InStep(s.b.chans[id], s.b.up);
    assert N.WillAgree(s, id);
    assert N.Told(s, id, N.ViewOf(s.b, id));
    WillIsServed(N.ViewOf(s.b, id), view, s.ab, id);
    p := U.Path(mcu, pty, fifo, back, U.ServeAll(view, fifo).bytes, [], true, mcu.txbuf + U.Payloads(back), [], true);
    assert [] + pty.txbuf == pty.txbuf;
    assert [] + mcu.txbuf == mcu.txbuf;
  }

  /** The same of two new daemons, after any run that has led to open links with nothing under way. */
  lemma SerialFromQuiet(start: W.Net, before: seq<W.Move>, moves: seq<W.Move>, id: byte)
    returns (p: U.Path, evs: seq<U.Event>)
    requires W.Initial(start) && W.MayExec(start, before)
    requires var m := W.Exec(start, before);
             && !m.a.disconnected && !m.b.disconnected && W.Quiet(m)
             && id in m.a.node.chans && m.a.node.chans[id].McuCh? && id in m.b.node.chans && m.b.node.chans[id].PtyCh?
             && W.MayExec(m, moves) && W.AllSteadily(m, moves)
    ensures Own(evs, id) == Of(W.AllOccur(moves), id) && p.intact && p.kept && p.written == [] && p.taken == []
    ensures var m, u := W.Exec(start, before), U.Exec(p, evs, id);
            && Joined(m, p, id) && Joined(W.Exec(m, moves), u, id)
            && U.SerialFaithful(u) && U.HostFaithful(u)
  {
    hide W.Exec, W.MayExec, W.AllSteadily, W.AllOccur, U.Exec, Joined, Shows, W.Rel, N.Exec, U.Inv, N.Inv, W.Initial;
    hide U.SerialFaithful, U.HostFaithful, W.Quiet, N.Initial, InSession;
    var m := W.Exec(start, before);
    var s0 := W.InitialRel(start);
    var acts, s := W.Refines(start, s0, before);
    N.Agreement(s0, acts);
    QuietSession(m, s);
    p := SessionStarts(s, id);
    ShowsJoined(m, s, p, id);
    evs := SerialOverBytes(m, s, p, moves, id);
  }
}
