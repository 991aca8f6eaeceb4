/** What the daemon does over its runs, said without its code: exactly when the link opens and closes, how long
    it waits between attempts, what its clocks remember, that a session starts from nothing, and that a
    timer phase before every deadline does nothing. */
module DaemonLaws {
  import opened Bytes
  import opened Streaming
  import opened LinkFrame
  import opened TxQueue
  import opened Channels
  import opened ChannelLaws
  import opened Session
  import opened Outbound
  import opened Daemon
  import W = TwoDaemons

  // ---------------------------------------------------------------- opening and closing

  /** The event opens the link. */
  predicate Opens(d: Daemon, e: Event) {
    d.disconnected && e.Timers? && e.t.now >= d.reopenAt && e.t.openOk
  }

  /** The event tries to open the link in vain. */
  predicate TriesInVain(d: Daemon, e: Event) {
    d.disconnected && e.Timers? && e.t.now >= d.reopenAt && !e.t.openOk
  }

  /** The event closes the link: a read fails, a write of queued bytes fails, or nothing has come for more than
      ten seconds. */
  predicate Loses(d: Daemon, e: Event) {
    && !d.disconnected
    && match e
       case Timers(t) => d.lastRx.Some? && t.now - d.lastRx.value > 10000
       case Readable(read, _, _) => read.ReadFailed?
       case Writable(w, _) => w == WriteFailed && d.txq != []
       case Channel(_, _, _) => false
  }

  predicate Runs(e: Event) {
    e.Timers? ==> ClockRuns(e.t)
  }

  lemma {:induction false} DispatchKeepsTimes(d: Daemon, fs: seq<Frame>, ios: seq<Io>)
    ensures var e := DispatchAll(d, fs, ios);
            && e.reopenAt == d.reopenAt && e.reopenDelay == d.reopenDelay && e.lastRx == d.lastRx && e.fd == d.fd
            && e.disconnected == d.disconnected && e.parser == d.parser
    decreases |fs|
  {
    hide Receive, LinkUp, PushAll, Build, Paused;
    if fs != [] {
      DispatchKeepsTimes(DispatchFrame(d, fs[0], IoOf(ios, 0)), fs[1..], Rest(ios));
    }
  }

  /** The link opens, is lost, or stays as it is, as the event says; opening starts from nothing but HELLO. */
  lemma LinkChanges(d: Daemon, e: Event)
    requires Inv(d) && Runs(e)
    ensures Opens(d, e) ==> !Step(d, e).disconnected
    ensures !Opens(d, e) ==> (Step(d, e).disconnected <==> d.disconnected || Loses(d, e))
  {
    hide Build, DispatchAll, Scan, TickChannels, Session.Happens, PushAll, Session.Disconnect, Paused;
    match e
    case Timers(t) =>
      var kept := W.Kept(d, t);
      W.TicksStay(kept, kept.node.order, t.now, t.ios);
    case Readable(read, ios, now) =>
      if read.Data? {
        var r := Scan(d.parser + read.bytes);
        DispatchKeepsTimes(d.(lastRx := Some(now), parser := r.rest), r.out, ios);
      }
    case Writable(_, _) =>
    case Channel(_, _, _) =>
  }

  lemma OpenStarts(d: Daemon, e: Event)
    requires Inv(d) && Runs(e) && Opens(d, e)
    ensures var u := Step(d, e);
            && u.parser == [] && u.sent == [] && u.txq == Build(HELLO) && !u.bp && !u.node.up
            && u.reopenDelay == 500 && u.lastRx == Some(e.t.openNow) && u.lastTx == Some(e.t.end)
  {
    hide Build, TickChannels, TickEmits;
    var kept := W.Kept(d, e.t);
    assert [] + Build(HELLO) == Build(HELLO) && |Build(HELLO)| == 10;
    W.TicksStay(kept, kept.node.order, e.t.now, e.t.ios);
    W.IdleTicks(kept, kept.node.order, e.t.now, e.t.ios);
    TicksStayDown(kept, kept.node.order, e.t.now, e.t.ios);
  }

  lemma {:induction false} TicksStayDown(d: Daemon, ids: seq<byte>, now: int, ios: seq<Io>)
    ensures TickChannels(d, ids, now, ios).node.up == d.node.up
    decreases |ids|
  {
    hide Tick, PushAll;
    if ids != [] {
      var r := TickOne(d.node, ids[0], now, IoOf(ios, now));
      TicksStayDown(d.(node := r.node, txq := PushAll(d.txq, r.frames)), ids[1..], now, Rest(ios));
    }
  }

  // ---------------------------------------------------------------- backoff over runs

  /** The time at which an event closes the link or fails to open it. */
  function FailedAt(e: Event, d: Daemon): int {
    match e
    case Timers(t) => if d.disconnected then t.openNow else t.later
    case Readable(_, _, now) => now
    case Writable(_, now) => now
    case Channel(_, _, now) => now
  }

  /** What a run has to remember: how often in a row the link was lost or could not be opened since it was last
      opened, and when last; when the link was opened or last delivered anything; and what it has delivered
      since it was opened. */
  datatype Past = Past(failures: nat, at: int, heard: Option<int>, received: seq<byte>)

  predicate Delivers(d: Daemon, e: Event) {
    !d.disconnected && e.Readable? && e.read.Data? && e.read.bytes != []
  }

  function Remember(p: Past, d: Daemon, e: Event): Past {
    if Opens(d, e) then Past(0, p.at, Some(e.t.openNow), [])
    else if Loses(d, e) || TriesInVain(d, e) then p.(failures := p.failures + 1, at := FailedAt(e, d))
    else if Delivers(d, e) then p.(heard := Some(e.now), received := p.received + e.read.bytes)
    else p
  }

  function History(d: Daemon, events: seq<Event>): Past
    decreases |events|
  {
    if events == [] then Past(0, 0, None, [])
    else
      var before := events[..|events| - 1];
      Remember(History(d, before), Exec(d, before), events[|events| - 1])
  }

  function Wait(k: nat): int {
    Min(500 * Pow2(k), 8000)
  }

  /** The daemon is as its past says. */
  ghost predicate AsRemembered(u: Daemon, p: Past, first: int) {
    && u.reopenDelay == Wait(p.failures)
    && (!u.disconnected ==> p.failures == 0)
    && (u.disconnected ==> u.reopenAt == if p.failures == 0 then first else p.at + Wait(p.failures - 1))
    && (!u.disconnected ==> u.lastRx == p.heard && Scan(p.received).rest == u.parser)
  }

  lemma WaitDoubles(k: nat)
    ensures Min(2 * Wait(k), DELAY_MAX) == Wait(k + 1)
  {
    assert Pow2(k + 1) == 2 * Pow2(k);
  }

  lemma StepRemembers(d: Daemon, e: Event, p: Past, first: int)
    requires Inv(d) && Runs(e) && AsRemembered(d, p, first)
    ensures AsRemembered(Step(d, e), Remember(p, d, e), first)
  {
    hide Build, DispatchAll, Scan, TickChannels, Session.Happens, PushAll, Session.Disconnect, Paused, Wait, Inv;
    W.InvMeans(d);
    WaitDoubles(p.failures);
    match e
    case Timers(t) =>
      TimersRemember(d, t, p, first);
    case Readable(read, ios, now) =>
      if Delivers(d, e) {
        ScanSplit(p.received, read.bytes);
        var r := Scan(d.parser + read.bytes);
        DispatchKeepsTimes(d.(lastRx := Some(now), parser := r.rest), r.out, ios);
      }
    case Writable(_, _) =>
    case Channel(_, _, _) =>
  }

  lemma TimersRemember(d: Daemon, t: TickIo, p: Past, first: int)
    requires Inv(d) && ClockRuns(t) && AsRemembered(d, p, first)
    ensures AsRemembered(TickPhase(d, t), Remember(p, d, Timers(t)), first)
  {
    hide Build, Scan, TickChannels, Session.Disconnect, Paused, Inv;
    W.InvMeans(d);
    WaitDoubles(p.failures);
    EmptyScan();
    var kept := W.Kept(d, t);
    W.TicksStay(kept, kept.node.order, t.now, t.ios);
    if d.disconnected {
      W.KeptIs(d, t);
    }
  }

  /** Over every run of a new daemon, with clocks that do not run backwards: a lost link or a failed attempt at
      time u is followed by a wait until u + min(0.5 s * 2^k, 8 s), k counting the failures before it since
      the link was last open; the link was last heard when it was opened or last delivered anything; and
      the parser holds what one scan of everything received since the opening leaves. */
  lemma {:induction false} RunRemembers(d: Daemon, events: seq<Event>)
    requires Initial(d) && forall i :: 0 <= i < |events| ==> Runs(events[i])
    ensures AsRemembered(Exec(d, events), History(d, events), d.reopenAt)
    decreases |events|
  {
    hide Step, Initial, Inv, AsRemembered, Remember;
    if events == [] {
      NothingRemembered(d);
    } else {
      var before := events[..|events| - 1];
      RunRemembers(d, before);
      SessionIsolation(d, before);
      StepRemembers(Exec(d, before), events[|events| - 1], History(d, before), d.reopenAt);
    }
  }

  lemma NothingRemembered(d: Daemon)
    requires Initial(d)
    ensures AsRemembered(d, Past(0, 0, None, []), d.reopenAt)
  {
    EmptyScan();
  }

  /** Keepalive over runs: the timer phase closes an open link exactly when more than ten seconds have passed
      since it was opened or last delivered anything. */
  lemma SilenceCloses(d: Daemon, events: seq<Event>, t: TickIo)
    requires Initial(d) && ClockRuns(t) && forall i :: 0 <= i < |events| ==> Runs(events[i])
    requires !Exec(d, events).disconnected
    ensures var heard := History(d, events).heard;
            heard.Some? && (TickPhase(Exec(d, events), t).disconnected <==> t.now - heard.value > 10000)
  {
    hide Initial, Inv, TickPhase, Scan;
    RunRemembers(d, events);
    SessionIsolation(d, events);
    InvClocks(Exec(d, events));
    LinkChanges(Exec(d, events), Timers(t));
  }

  // ---------------------------------------------------------------- pings

  /** On an open link that is not given up, the timer sends exactly one PING if the handshake is complete, no
      byte is queued and three seconds have passed since the last traffic, and otherwise does nothing. */
  lemma PingsWhenIdle(d: Daemon, now: int, later: int)
    requires Inv(d) && !d.disconnected && now - d.lastRx.value <= 10000
    ensures TickKeepalive(d, now, later) ==
            if d.node.up && d.txq == [] && now - d.lastTx.value >= 3000
            then d.(txq := Build(Frame(F_PING, 0, [])), lastTx := Some(later)) else d
  {
    hide Checksum;
    assert [] + Build(PING) == Build(PING);
  }

  /** Frames other than a PONG and an unexpected acknowledgement count as traffic when they are handled. */
  function HandledAt(up: bool, fs: seq<Frame>, ios: seq<Io>): Option<int>
    decreases |fs|
  {
    if fs == [] then None
    else
      var later := HandledAt(up || fs[0].ftype == F_HELLO || fs[0].ftype == F_ACK, fs[1..], Rest(ios));
      if later.Some? || fs[0].ftype == F_PONG || (fs[0].ftype == F_ACK && up) then later
      else Some(IoOf(ios, 0).now)
  }

  /** The last traffic of an event: a channel event, a frame that counts, or bytes waiting after the timers. */
  function Traffic(d: Daemon, e: Event): Option<int> {
    match e
    case Timers(t) => if Step(d, e).txq != [] then Some(t.end) else None
    case Readable(read, ios, _) =>
      if read.Data? && read.bytes != [] then HandledAt(d.node.up, Scan(d.parser + read.bytes).out, ios) else None
    case Writable(_, _) => None
    case Channel(_, _, now) => Some(now)
  }

  lemma DispatchStamps(d: Daemon, f: Frame, io: Io)
    requires d.fd && !d.disconnected
    ensures var e := DispatchFrame(d, f, io);
            && e.lastTx == (if f.ftype == F_PONG || (f.ftype == F_ACK && d.node.up) then d.lastTx else Some(io.now))
            && e.node.up == (d.node.up || f.ftype == F_HELLO || f.ftype == F_ACK) && e.fd && !e.disconnected
  {
    hide Build, Broadcast, OnFrame, PushAll;
  }

  lemma {:induction false} DispatchAllStamps(d: Daemon, fs: seq<Frame>, ios: seq<Io>)
    requires d.fd && !d.disconnected
    ensures var at := HandledAt(d.node.up, fs, ios);
            DispatchAll(d, fs, ios).lastTx == if at.Some? then at else d.lastTx
    decreases |fs|
  {
    hide DispatchFrame;
    if fs != [] {
      DispatchStamps(d, fs[0], IoOf(ios, 0));
      DispatchAllStamps(DispatchFrame(d, fs[0], IoOf(ios, 0)), fs[1..], Rest(ios));
    }
  }

  /** While the link stays open, the time of the last traffic moves with every event that counts as traffic,
      and only then. */
  lemma TrafficIsStamped(d: Daemon, e: Event)
    requires Inv(d) && !d.disconnected && !Step(d, e).disconnected
    ensures Step(d, e).lastTx == if Traffic(d, e).Some? then Traffic(d, e) else d.lastTx
  {
    hide Build, DispatchAll, Scan, Session.Happens, PushAll, Paused, HandledAt, Inv;
    W.InvMeans(d);
    match e
    case Timers(t) => TimersStamp(d, t);
    case Readable(read, ios, now) =>
      if read.Data? && read.bytes != [] {
        var r := Scan(d.parser + read.bytes);
        DispatchAllStamps(d.(lastRx := Some(now), parser := r.rest), r.out, ios);
      }
    case Writable(_, _) =>
    case Channel(_, _, _) =>
  }

  lemma TimersStamp(d: Daemon, t: TickIo)
    requires Inv(d) && !d.disconnected && !TickPhase(d, t).disconnected
    ensures TickPhase(d, t).lastTx == if TickPhase(d, t).txq != [] then Some(t.end) else d.lastTx
  {
    hide Build, TickChannels, TickEmits, CloseLink;
    var kept := TickKeepalive(d, t.now, t.later);
    W.TicksStay(kept, kept.node.order, t.now, t.ios);
    TicksFill(kept, kept.node.order, t.now, t.ios);
    CloseKeeps(d, t.later);
    assert |Build(PING)| == 10;
  }

  /** Bulk data that arrives while the queue is at high water pauses every channel before it is handled. */
  lemma BulkPauses(d: Daemon, f: Frame, io: Io)
    requires f.ftype == F_DATA || f.ftype == F_TDATA
    ensures |d.txq| >= LINK_HIGH_WATER ==> DispatchFrame(d, f, io).bp
  {
    hide Build, OnFrame, PushAll, Paused;
  }

  // ---------------------------------------------------------------- timers

  lemma {:induction false} TicksQuiet(d: Daemon, ids: seq<byte>, now: int, ios: seq<Io>)
    requires forall id :: id in d.node.chans && NextDeadline(d.node.chans[id]).Some? ==>
               NextDeadline(d.node.chans[id]).value > now
    ensures TickChannels(d, ids, now, ios) == d
    decreases |ids|
  {
    hide Tick, NextDeadline;
    if ids != [] {
      var io := IoOf(ios, now);
      if ids[0] in d.node.chans {
        var ch := d.node.chans[ids[0]];
        if Tick(ch, ids[0], now, io) != Quiet(ch) {
          TickNeedsDeadline(ch, ids[0], now, io);
        }
        assert d.node.chans[ids[0] := ch] == d.node.chans;
      }
      var r := TickOne(d.node, ids[0], now, io);
      assert r == NodeOut(d.node, []) && PushAll(d.txq, []) == d.txq;
      assert d.(node := r.node, txq := PushAll(d.txq, r.frames)) == d;
      TicksQuiet(d, ids[1..], now, Rest(ios));
    }
  }

  /** A timer phase has something to do only when a deadline that the sleep computation consults has come, or
      when a link whose handshake is not complete has been silent for more than ten seconds: nothing is
      missed by sleeping until the next deadline. */
  lemma PhaseNeedsDeadline(d: Daemon, t: TickIo)
    requires Inv(d) && TickPhase(d, t) != d.(lastTx := TickPhase(d, t).lastTx)
    ensures || (exists x :: IsDeadline(d, x) && x <= t.now)
            || (!d.disconnected && !d.node.up && t.now - d.lastRx.value > 10000)
  {
    hide Build, TickChannels, NextDeadline, OpenLink, CloseLink, Inv;
    W.InvMeans(d);
    InvClocks(d);
    if !(exists x :: IsDeadline(d, x) && x <= t.now) &&
       !(!d.disconnected && !d.node.up && t.now - d.lastRx.value > 10000)
    {
      if d.disconnected {
        assert IsDeadline(d, d.reopenAt);
      } else if d.node.up {
        assert IsDeadline(d, d.lastTx.value + KA_INTERVAL);
        assert IsDeadline(d, d.lastRx.value + KA_TIMEOUT);
      }
      assert W.Kept(d, t) == d;
      forall id | id in d.node.chans && NextDeadline(d.node.chans[id]).Some?
        ensures NextDeadline(d.node.chans[id]).value > t.now
      {
        assert IsDeadline(d, NextDeadline(d.node.chans[id]).value);
      }
      TicksQuiet(d, d.node.order, t.now, t.ios);
    }
  }
}
