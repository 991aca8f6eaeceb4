/** One channel in a session: the frames that reach it, the events that are its own, and that nothing else
    that happens at its daemon touches it. */
module SessionView {
  import opened Bytes
  import opened LinkFrame
  import opened Channels
  import opened Session
  import N = TwoNode
  import W = TwoDaemons

  // ---------------------------------------------------------------- the frames of one channel

  predicate Concerns(f: Frame, id: byte) {
    f.channel == id && !IsControl(f.ftype)
  }

  /** The frames that reach channel `id`. */
  function Carried(q: seq<Frame>, id: byte): seq<Frame>
    decreases |q|
  {
    if q == [] then [] else (if Concerns(q[0], id) then [q[0]] else []) + Carried(q[1..], id)
  }

  lemma {:induction false} CarriedAppend(p: seq<Frame>, q: seq<Frame>, id: byte)
    ensures Carried(p + q, id) == Carried(p, id) + Carried(q, id)
    decreases |p|
  {
    hide Concerns;
    if p == [] {
      assert p + q == q;
    } else {
      assert (p + q)[0] == p[0] && (p + q)[1..] == p[1..] + q;
      CarriedAppend(p[1..], q, id);
      Assoc(if Concerns(p[0], id) then [p[0]] else [], Carried(p[1..], id), Carried(q, id));
    }
  }

  /** What channel `x` sends reaches its own peer and nobody else. */
  lemma {:induction false} CarriedFrom(fs: seq<Frame>, x: byte, id: byte)
    requires N.From(fs, x)
    ensures Carried(fs, id) == if x == id then fs else []
    decreases |fs|
  {
    if fs != [] {
      CarriedFrom(fs[1..], x, id);
      assert [fs[0]] + fs[1..] == fs;
    }
  }

  lemma CarriedControl(f: Frame, id: byte)
    requires IsControl(f.ftype)
    ensures Carried([f], id) == []
  {
    assert [f][1..] == [];
  }

  lemma CarriedNothing(id: byte)
    ensures Carried([], id) == []
  {
  }

  lemma CarriedTail(q: seq<Frame>, id: byte)
    requires q != []
    ensures if Concerns(q[0], id)
            then Carried(q, id) != [] && Carried(q, id)[0] == q[0] && Carried(q, id)[1..] == Carried(q[1..], id)
            else Carried(q, id) == Carried(q[1..], id)
  {
    hide Concerns;
  }

  // ---------------------------------------------------------------- a session

  /** Both ends are up, nothing old is under way and no handshake is in progress. */
  ghost predicate InSession(s: N.System) {
    && s.aOpen && s.bOpen && s.a.up && s.b.up && !s.abOld && !s.baOld
    && !N.HasType(s.ab, F_HELLO) && !N.HasType(s.ba, F_HELLO)
  }

  /** What a channel sends in reply to a frame is its own. */
  lemma ReplyFrom(ch: Channel, id: byte, f: Frame, io: Io)
    ensures N.From(OnFrame(ch, id, f, io).frames, id)
  {
  }

  lemma SentNoHello(q: seq<Frame>, fs: seq<Frame>, id: byte)
    requires !N.HasType(q, F_HELLO) && N.From(fs, id)
    ensures !N.HasType(q + fs, F_HELLO)
  {
    N.HasTypeAppend(q, fs, F_HELLO);
  }

  lemma ControlNoHello(q: seq<Frame>, f: Frame)
    requires !N.HasType(q, F_HELLO) && f.ftype != F_HELLO
    ensures !N.HasType(q + [f], F_HELLO)
  {
    N.HasTypeAppend(q, [f], F_HELLO);
  }

  /** Within a session a frame only moves the channel it is for. */
  lemma HandledInSession(s: N.System, f: Frame, io: Io, id: byte)
    requires InSession(s) && f.ftype != F_HELLO
    ensures var t := N.Handled(s, f, io);
            && InSession(t) && t.b == s.b && t.ba == s.ba
            && (id in s.a.chans ==> id in t.a.chans)
            && (id in s.a.chans && !Concerns(f, id) ==>
                  t.a.chans[id] == s.a.chans[id] && Carried(t.ab, id) == Carried(s.ab, id))
            && (id in s.a.chans && Concerns(f, id) ==>
                  var o := OnFrame(s.a.chans[id], id, f, io);
                  t.a.chans[id] == o.ch && Carried(t.ab, id) == Carried(s.ab, id) + o.frames)
  {
    hide OnFrame, N.HasType, Carried, N.From;
    CarriedNothing(id);
    assert s.ab + [] == s.ab;
    if f.ftype == F_PING {
      CarriedControl(PONG, id);
      CarriedAppend(s.ab, [PONG], id);
      ControlNoHello(s.ab, PONG);
    } else if !IsControl(f.ftype) && f.channel in s.a.chans {
      var o := OnFrame(s.a.chans[f.channel], f.channel, f, io);
      ReplyFrom(s.a.chans[f.channel], f.channel, f, io);
      CarriedFrom(o.frames, f.channel, id);
      CarriedAppend(s.ab, o.frames, id);
      SentNoHello(s.ab, o.frames, f.channel);
    }
  }

  /** The same for an event or a tick of a channel. */
  lemma SentInSession(s: N.System, x: byte, o: Out<Channel>, id: byte)
    requires InSession(s) && x in s.a.chans && N.From(o.frames, x)
    ensures var t := s.(a := s.a.(chans := s.a.chans[x := o.ch]), ab := s.ab + o.frames);
            InSession(t) && Carried(t.ab, id) == Carried(s.ab, id) + if x == id then o.frames else []
  {
    hide N.HasType, Carried, N.From;
    CarriedFrom(o.frames, x, id);
    CarriedAppend(s.ab, o.frames, id);
    SentNoHello(s.ab, o.frames, x);
  }

  /** A tick of a channel sends frames of its own; TCP channels send nothing. */
  lemma TickFrom(ch: Channel, id: byte, now: int, io: Io)
    ensures N.From(Tick(ch, id, now, io).frames, id)
    ensures !ch.McuCh? ==> Tick(ch, id, now, io) == Quiet(ch)
  {
  }

  /** An act of this end that does not concern channel `id`, whatever its kind. */
  ghost predicate Aside(s: N.System, t: N.System, id: byte) {
    && InSession(t) && t.b == s.b && Carried(t.ab, id) == Carried(s.ab, id) && Carried(t.ba, id) == Carried(s.ba, id)
    && (id in s.a.chans ==> id in t.a.chans && t.a.chans[id].SetPaused(true) == s.a.chans[id].SetPaused(true))
  }

  /** Acts of this end that do not concern channel `id`. */
  predicate Elsewhere(s: N.System, act: N.Act, id: byte) {
    match act
    case Deliver(_) => s.ba == [] || !Concerns(s.ba[0], id)
    case Happen(x, _) => x != id
    case TickOf(x, _, _) => x != id || (id in s.a.chans && !s.a.chans[id].McuCh?)
    case Keepalive => true
    case Settle => true
    case Pause(_) => true
    case _ => false
  }

  lemma ActAside(s: N.System, act: N.Act, id: byte)
    requires InSession(s) && Elsewhere(s, act, id) && id in s.a.chans
    ensures Aside(s, N.Act1(s, act), id)
  {
    hide HandleEvent, Tick, N.HasType, Carried, N.From, Receive, InSession;
    SessionMeans(s);
    match act
    case Deliver(io) =>
      if s.ba != [] {
        TailInSession(s, id);
        HandledInSession(s.(ba := s.ba[1..]), s.ba[0], io, id);
      }
    case Happen(x, e) =>
      assert s.ab + [] == s.ab;
      if x in s.a.chans {
        N.EventFrom(s.a.chans[x], x, e);
        SentInSession(s, x, HandleEvent(s.a.chans[x], x, e), id);
      }
    case TickOf(x, now, io) =>
      assert s.ab + [] == s.ab;
      if x in s.a.chans {
        TickFrom(s.a.chans[x], x, now, io);
        SentInSession(s, x, Tick(s.a.chans[x], x, now, io), id);
      }
    case Keepalive => PingInSession(s, id);
    case Settle =>
    case Pause(b) => PauseInSession(s, b);
  }

  lemma SessionMeans(s: N.System)
    requires InSession(s)
    ensures s.aOpen && s.bOpen && s.a.up && s.b.up && !s.abOld && !s.baOld && s == s.(baOld := false)
  {
  }

  lemma TailInSession(s: N.System, id: byte)
    requires InSession(s) && s.ba != []
    ensures s.ba[0].ftype != F_HELLO && InSession(s.(ba := s.ba[1..]))
    ensures var q := Carried(s.ba, id);
            if Concerns(s.ba[0], id) then q != [] && q[0] == s.ba[0] && q[1..] == Carried(s.ba[1..], id)
            else q == Carried(s.ba[1..], id)
  {
    hide N.HasType;
    N.HasTypeTail(s.ba, F_HELLO);
    CarriedTail(s.ba, id);
  }

  lemma PingInSession(s: N.System, id: byte)
    requires InSession(s)
    ensures var t := s.(ab := s.ab + [PING]); InSession(t) && Carried(t.ab, id) == Carried(s.ab, id)
  {
    hide N.HasType, Carried;
    CarriedControl(PING, id);
    CarriedAppend(s.ab, [PING], id);
    ControlNoHello(s.ab, PING);
  }

  lemma PauseInSession(s: N.System, b: bool)
    requires InSession(s)
    ensures InSession(s.(a := Paused(s.a, b)))
  {
  }

  lemma SwapSession(s: N.System)
    ensures InSession(N.Swap(s)) <==> InSession(s)
  {
  }

  /** Two daemons with nothing under way are in a session. */
  lemma QuietSession(n: W.Net, s: N.System)
    requires W.Rel(n, s) && N.Inv(s) && !n.a.disconnected && !n.b.disconnected && W.Quiet(n)
    ensures InSession(s) && s.ab == [] && s.ba == [] && s.a == n.a.node && s.b == n.b.node
  {
    hide N.Inv;
    QuietMeans(n, s);
    N.InvAgrees(s);
    assert !N.HasType([], F_HELLO);
  }

  lemma QuietMeans(n: W.Net, s: N.System)
    requires W.Rel(n, s) && W.Quiet(n)
    ensures s.ab == [] && s.ba == [] && !s.abOld && !s.baOld && s.a == n.a.node && s.b == n.b.node
    ensures s.aOpen == !n.a.disconnected && s.bOpen == !n.b.disconnected
  {
    hide Build, BuildAll;
    W.NothingPends(s.ab);
    W.NothingPends(s.ba);
  }

  // ---------------------------------------------------------------- the events of one channel

  /** The events of channel `id`. */
  function Of(events: seq<W.Occurrence>, id: byte): seq<W.Occurrence>
    decreases |events|
  {
    if events == [] then [] else (if events[0].id == id then [events[0]] else []) + Of(events[1..], id)
  }

  function Event(m: N.Move): seq<W.Occurrence> {
    if m.act.Happen? then [W.Occurrence(m.Left?, m.act.id, m.act.e)] else []
  }

  lemma OneEvent(o: W.Occurrence)
    ensures Of([o], o.id) == [o]
  {
    assert [o][1..] == [];
  }

  lemma {:induction false} OfAppend(p: seq<W.Occurrence>, q: seq<W.Occurrence>, id: byte)
    ensures Of(p + q, id) == Of(p, id) + Of(q, id)
    decreases |p|
  {
    if p == [] {
      assert p + q == q;
    } else {
      assert (p + q)[0] == p[0] && (p + q)[1..] == p[1..] + q;
      OfAppend(p[1..], q, id);
      Assoc(if p[0].id == id then [p[0]] else [], Of(p[1..], id), Of(q, id));
    }
  }
}
