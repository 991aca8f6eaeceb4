/** The event-loop daemon as a state machine over its handlers: opening and closing the link, reading
    and writing it, backpressure, keepalive and timers.  Clock readings and results of system calls are
    arguments of the events. */
module Daemon {
  import opened Bytes
  import opened LinkFrame
  import opened TxQueue
  import opened Channels
  import opened Session

  /** Times are milliseconds. */
  const MAX_TICK := 1000
  const KA_INTERVAL := 3000
  const KA_TIMEOUT := 10000
  const DELAY_MIN := 500
  const DELAY_MAX := 8000

  /** `sent` records the bytes the link has taken since it was reopened. */
  datatype Daemon = Daemon(
    node: Node, txq: seq<byte>, sent: seq<byte>, parser: seq<byte>,
    fd: bool, disconnected: bool, bp: bool,
    reopenAt: int, reopenDelay: nat, lastRx: Option<int>, lastTx: Option<int>)

  /** Offer frames to the transmit queue one after the other. */
  function PushAll(q: seq<byte>, fs: seq<Frame>): seq<byte>
    decreases |fs|
  {
    if fs == [] then q else PushAll(Push(q, Build(fs[0])), fs[1..])
  }

  // ---------------------------------------------------------------- opening and closing

  function ScheduleReopen(d: Daemon, now: int): Daemon {
    d.(reopenAt := now + d.reopenDelay, reopenDelay := Min(2 * d.reopenDelay, DELAY_MAX))
  }

  function OpenLink(d: Daemon, ok: bool, now: int): Daemon {
    if !ok then ScheduleReopen(d, now)
    else
      d.(fd := true, disconnected := false, reopenDelay := DELAY_MIN, bp := false, parser := [], sent := [],
         txq := Push([], Build(HELLO)), lastRx := Some(now), lastTx := Some(now))
  }

  function CloseLink(d: Daemon, now: int): Daemon {
    if d.disconnected then d
    else
      var resumed := if d.bp then Paused(d.node, false) else d.node;
      ScheduleReopen(
        d.(disconnected := true, fd := false, txq := [], bp := false, node := Session.Disconnect(resumed)), now)
  }

  // ---------------------------------------------------------------- link I/O

  function EnqueueFrame(d: Daemon, f: Frame, now: int): Daemon {
    if d.disconnected || !d.fd then d else d.(txq := Push(d.txq, Build(f)), lastTx := Some(now))
  }

  function CheckBpHigh(d: Daemon): Daemon {
    if !d.bp && |d.txq| >= LINK_HIGH_WATER then d.(bp := true, node := Paused(d.node, true)) else d
  }

  function Announce(d: Daemon, now: int): Daemon {
    var u := LinkUp(d.node);
    d.(node := u.node, txq := PushAll(d.txq, u.frames), lastTx := Some(now))
  }

  function DispatchFrame(d: Daemon, f: Frame, io: Io): Daemon {
    if f.ftype == F_PING then EnqueueFrame(d, PONG, io.now)
    else if f.ftype == F_PONG then d
    else if f.ftype == F_HELLO then Announce(EnqueueFrame(d, ACK, io.now), io.now)
    else if f.ftype == F_ACK then if d.node.up then d else Announce(d, io.now)
    else
      var c := if f.ftype == F_DATA || f.ftype == F_TDATA then CheckBpHigh(d) else d;
      var r := Receive(c.node, f, io);
      c.(node := r.node, txq := PushAll(c.txq, r.frames), lastTx := Some(io.now))
  }

  function DispatchAll(d: Daemon, fs: seq<Frame>, ios: seq<Io>): Daemon
    decreases |fs|
  {
    if fs == [] then d
    else
      var io := if ios == [] then Io(0, true, true, WouldBlock) else ios[0];
      DispatchAll(DispatchFrame(d, fs[0], io), fs[1..], if ios == [] then [] else ios[1..])
  }

  function LinkRead(d: Daemon, read: Read, ios: seq<Io>, now: int): Daemon {
    if !d.fd then d
    else
      match read
      case NoData => d
      case ReadFailed(_) => CloseLink(d, now)
      case Data(bytes) =>
        if bytes == [] then d
        else
          var r := Scan(d.parser + bytes);
          DispatchAll(d.(lastRx := Some(now), parser := r.rest), r.out, ios)
  }

  function LinkWrite(d: Daemon, w: Write, now: int): Daemon {
    if !d.fd then d
    else if w == WriteFailed && d.txq != [] then CloseLink(d, now)
    else
      var k := if w.Wrote? then Min(w.n, |d.txq|) else 0;
      var drained := d.(txq := d.txq[k..], sent := d.sent + d.txq[..k]);
      if d.bp && |drained.txq| <= LINK_LOW_WATER then drained.(bp := false, node := Paused(d.node, false)) else drained
  }

  function ChannelReady(d: Daemon, id: byte, e: ChannelEvent, now: int): Daemon {
    var r := Happens(d.node, id, e);
    CheckBpHigh(d.(node := r.node, txq := PushAll(d.txq, r.frames))).(lastTx := Some(now))
  }

  // ---------------------------------------------------------------- timers

  function TickKeepalive(d: Daemon, now: int, later: int): Daemon {
    if d.disconnected then d
    else if d.lastRx.Some? && now - d.lastRx.value > KA_TIMEOUT then CloseLink(d, later)
    else if d.node.up && d.lastTx.Some? && now - d.lastTx.value >= KA_INTERVAL && d.txq == [] then
      EnqueueFrame(d, PING, later)
    else d
  }

  function TickChannels(d: Daemon, ids: seq<byte>, now: int, ios: seq<Io>): Daemon
    decreases |ids|
  {
    if ids == [] then d
    else
      var io := if ios == [] then Io(now, true, true, WouldBlock) else ios[0];
      var r := TickOne(d.node, ids[0], now, io);
      var next := d.(node := r.node, txq := PushAll(d.txq, r.frames));
      TickChannels(next, ids[1..], now, if ios == [] then [] else ios[1..])
  }

  /** The clock readings and answers of one pass through the timer phase of the loop. */
  datatype TickIo = TickIo(now: int, openOk: bool, openNow: int, later: int, ios: seq<Io>, end: int)

  predicate ClockRuns(t: TickIo) {
    t.now <= t.openNow && t.now <= t.later && t.now <= t.end && forall i :: 0 <= i < |t.ios| ==> t.now <= t.ios[i].now
  }

  function TickPhase(d: Daemon, t: TickIo): Daemon {
    var reopened := if d.disconnected && t.now >= d.reopenAt then OpenLink(d, t.openOk, t.openNow) else d;
    var kept := TickKeepalive(reopened, t.now, t.later);
    var ticked := TickChannels(kept, kept.node.order, t.now, t.ios);
    if ticked.txq != [] then ticked.(lastTx := Some(t.end)) else ticked
  }

  /** The deadlines that `next_timeout` consults. */
  ghost predicate IsDeadline(d: Daemon, t: int) {
    || (d.disconnected && t == d.reopenAt)
    || (!d.disconnected && d.node.up && d.lastTx.Some? && t == d.lastTx.value + KA_INTERVAL)
    || (!d.disconnected && d.node.up && d.lastRx.Some? && t == d.lastRx.value + KA_TIMEOUT)
    || exists id :: id in d.node.chans && NextDeadline(d.node.chans[id]) == Some(t)
  }

  // ---------------------------------------------------------------- runs

  datatype Event =
    | Timers(t: TickIo)
    | Readable(read: Read, ios: seq<Io>, now: int)
    | Writable(write: Write, now: int)
    | Channel(id: byte, e: ChannelEvent, now: int)

  function Step(d: Daemon, e: Event): Daemon {
    match e
    case Timers(t) => TickPhase(d, t)
    case Readable(read, ios, now) => LinkRead(d, read, ios, now)
    case Writable(w, now) => LinkWrite(d, w, now)
    case Channel(id, ce, now) => ChannelReady(d, id, ce, now)
  }

  function Exec(d: Daemon, events: seq<Event>): Daemon
    decreases |events|
  {
    if events == [] then d else Step(Exec(d, events[..|events| - 1]), events[|events| - 1])
  }

  /** A daemon as constructed, its channels fresh. */
  ghost predicate Initial(d: Daemon) {
    && Ordered(d.node) && !d.node.up
    && (forall id :: id in d.node.chans ==>
          var ch := d.node.chans[id];
          Idle(ch) && InStep(ch, false) && !ch.BpPaused())
    && d.txq == [] && d.sent == [] && d.parser == []
    && !d.fd && d.disconnected && !d.bp && d.reopenDelay == DELAY_MIN && d.lastRx.None? && d.lastTx.None?
  }

  // ---------------------------------------------------------------- session invariant

  ghost predicate ChannelsAgree(n: Node, bp: bool) {
    forall id :: id in n.chans ==> InStep(n.chans[id], n.up) && n.chans[id].BpPaused() == bp
  }

  ghost predicate AllIdle(n: Node) {
    !n.up && forall id :: id in n.chans ==> Idle(n.chans[id])
  }

  /** What holds between any two handlers.  A closed link means a clean slate; an open one has sent, or
      still queues, HELLO before anything else. */
  ghost predicate Inv(d: Daemon) {
    && Ordered(d.node)
    && ChannelsAgree(d.node, d.bp)
    && (d.disconnected <==> !d.fd)
    && (d.disconnected ==> AllIdle(d.node) && !d.bp && d.txq == [])
    && (d.fd ==> Build(HELLO) <= d.sent + d.txq && d.lastRx.Some? && d.lastTx.Some?)
    && |d.txq| <= QUEUE_CAP
    && DELAY_MIN <= d.reopenDelay <= DELAY_MAX
  }

  lemma {:induction false} PushAllGrows(q: seq<byte>, fs: seq<Frame>)
    ensures q <= PushAll(q, fs)
    ensures |q| <= QUEUE_CAP ==> |PushAll(q, fs)| <= QUEUE_CAP
    decreases |fs|
  {
    hide Build;
    if fs != [] {
      PushAllGrows(Push(q, Build(fs[0])), fs[1..]);
    }
  }

  /** Replacing one channel by a next state of it, and queueing frames, keeps the invariant. */
  lemma ChannelMoves(d: Daemon, id: byte, ch: Channel, fs: seq<Frame>)
    requires Inv(d) && id in d.node.chans && Keeps(d.node.chans[id], ch, d.node.up)
    requires d.disconnected ==> Idle(ch) && fs == []
    ensures Inv(d.(node := d.node.(chans := d.node.chans[id := ch]), txq := PushAll(d.txq, fs)))
  {
    hide Build;
    PushAllGrows(d.txq, fs);
    HelloStays(d.sent, d.txq, PushAll(d.txq, fs));
  }

  lemma HelloStays(sent: seq<byte>, q: seq<byte>, q': seq<byte>)
    requires q <= q'
    ensures Build(HELLO) <= sent + q ==> Build(HELLO) <= sent + q'
  {
    hide Build;
    assert sent + q' == sent + q + q'[|q|..];
  }

  lemma OpenKeeps(d: Daemon, ok: bool, now: int)
    requires Inv(d) && d.disconnected
    ensures Inv(OpenLink(d, ok, now))
  {
    hide Checksum;
    assert [] + Build(HELLO) == Build(HELLO);
  }

  lemma CloseKeeps(d: Daemon, now: int)
    requires Inv(d)
    ensures Inv(CloseLink(d, now)) && CloseLink(d, now).disconnected
  {
    hide Build;
    if !d.disconnected {
      DisconnectIdles(if d.bp then Paused(d.node, false) else d.node, false);
    }
  }

  lemma DisconnectIdles(n: Node, bp: bool)
    requires Ordered(n) && ChannelsAgree(n, bp)
    ensures var m := Session.Disconnect(n); Ordered(m) && AllIdle(m) && ChannelsAgree(m, bp)
  {
  }

  lemma CheckBpKeeps(d: Daemon)
    requires Inv(d)
    ensures Inv(CheckBpHigh(d))
  {
    hide Build;
  }

  lemma EnqueueKeeps(d: Daemon, f: Frame, now: int)
    requires Inv(d)
    ensures Inv(EnqueueFrame(d, f, now))
  {
    hide Build;
    HelloStays(d.sent, d.txq, Push(d.txq, Build(f)));
  }

  lemma LinkUpAgrees(n: Node, bp: bool)
    requires Ordered(n) && ChannelsAgree(n, bp)
    ensures var m := LinkUp(n).node; Ordered(m) && ChannelsAgree(m, bp) && m.chans.Keys == n.chans.Keys
  {
    forall id | id in n.chans ensures n.chans.Keys == LinkUp(n).node.chans.Keys {
      BroadcastConnects(n.chans, n.order, id);
    }
    forall id | id in n.chans
      ensures id in LinkUp(n).node.chans
      ensures InStep(LinkUp(n).node.chans[id], true) && LinkUp(n).node.chans[id].BpPaused() == bp
    {
      BroadcastConnects(n.chans, n.order, id);
    }
    if n.chans == map[] {
      BroadcastNothing(n.order);
    }
  }

  lemma {:induction false} BroadcastNothing(ids: seq<byte>)
    ensures Broadcast(map[], ids) == MapOut(map[], [])
    decreases |ids|
  {
    if ids != [] {
      BroadcastNothing(ids[1..]);
    }
  }

  lemma AnnounceKeeps(d: Daemon, now: int)
    requires Inv(d) && !d.disconnected
    ensures Inv(Announce(d, now))
  {
    hide Build, LinkUp;
    LinkUpAgrees(d.node, d.bp);
    var u := LinkUp(d.node);
    PushAllGrows(d.txq, u.frames);
    HelloStays(d.sent, d.txq, PushAll(d.txq, u.frames));
  }

  lemma DispatchKeeps(d: Daemon, f: Frame, io: Io)
    requires Inv(d) && !d.disconnected
    ensures Inv(DispatchFrame(d, f, io)) && !DispatchFrame(d, f, io).disconnected
  {
    hide Build, Announce, Inv;
    if f.ftype == F_PING || f.ftype == F_HELLO {
      EnqueueKeeps(d, if f.ftype == F_PING then PONG else ACK, io.now);
    }
    if IsControl(f.ftype) {
      AnnounceStays(d, io.now);
      AnnounceStays(EnqueueFrame(d, ACK, io.now), io.now);
    } else {
      var c := if f.ftype == F_DATA || f.ftype == F_TDATA then CheckBpHigh(d) else d;
      CheckBpKeeps(d);
      RouteKeeps(c, f, io);
    }
  }

  lemma AnnounceStays(d: Daemon, now: int)
    ensures Inv(d) && !d.disconnected ==> Inv(Announce(d, now))
    ensures Announce(d, now).disconnected == d.disconnected
  {
    hide Build, LinkUp;
    if Inv(d) && !d.disconnected {
      AnnounceKeeps(d, now);
    }
  }

  lemma RouteKeeps(d: Daemon, f: Frame, io: Io)
    requires Inv(d) && !d.disconnected && !IsControl(f.ftype)
    ensures var r := Receive(d.node, f, io);
            Inv(d.(node := r.node, txq := PushAll(d.txq, r.frames), lastTx := Some(io.now)))
  {
    hide Build, OnFrame;
    if f.channel in d.node.chans {
      var o := OnFrame(d.node.chans[f.channel], f.channel, f, io);
      FrameKeeps(d.node.chans[f.channel], f.channel, f, io, d.node.up);
      ChannelMoves(d, f.channel, o.ch, o.frames);
    }
  }

  lemma {:induction false} DispatchAllKeeps(d: Daemon, fs: seq<Frame>, ios: seq<Io>)
    requires Inv(d) && !d.disconnected
    ensures Inv(DispatchAll(d, fs, ios)) && !DispatchAll(d, fs, ios).disconnected
    decreases |fs|
  {
    hide Inv, DispatchFrame;
    if fs != [] {
      var io := if ios == [] then Io(0, true, true, WouldBlock) else ios[0];
      DispatchKeeps(d, fs[0], io);
      DispatchAllKeeps(DispatchFrame(d, fs[0], io), fs[1..], if ios == [] then [] else ios[1..]);
    }
  }

  lemma ReadKeeps(d: Daemon, read: Read, ios: seq<Io>, now: int)
    requires Inv(d)
    ensures Inv(LinkRead(d, read, ios, now))
  {
    hide Build, Scan, DispatchAll, CloseLink;
    CloseKeeps(d, now);
    if d.fd && read.Data? {
      var r := Scan(d.parser + read.bytes);
      DispatchAllKeeps(d.(lastRx := Some(now), parser := r.rest), r.out, ios);
    }
  }

  lemma WriteKeeps(d: Daemon, w: Write, now: int)
    requires Inv(d)
    ensures Inv(LinkWrite(d, w, now))
  {
    hide Build, CloseLink;
    CloseKeeps(d, now);
    var k := if w.Wrote? then Min(w.n, |d.txq|) else 0;
    assert d.sent + d.txq == (d.sent + d.txq[..k]) + d.txq[k..];
  }

  lemma ReadyKeeps(d: Daemon, id: byte, e: ChannelEvent, now: int)
    requires Inv(d)
    ensures Inv(ChannelReady(d, id, e, now))
  {
    hide Build, HandleEvent;
    var r := Happens(d.node, id, e);
    if id in d.node.chans {
      var o := HandleEvent(d.node.chans[id], id, e);
      EventKeeps(d.node.chans[id], id, e, d.node.up);
      ChannelMoves(d, id, o.ch, o.frames);
    }
    var moved := d.(node := r.node, txq := PushAll(d.txq, r.frames));
    CheckBpKeeps(moved);
  }

  lemma {:induction false} TicksKeep(d: Daemon, ids: seq<byte>, now: int, ios: seq<Io>)
    requires Inv(d)
    ensures Inv(TickChannels(d, ids, now, ios))
    decreases |ids|
  {
    hide Build, Tick, Inv;
    if ids != [] {
      var io := if ios == [] then Io(now, true, true, WouldBlock) else ios[0];
      TickOneKeeps(d, ids[0], now, io);
      var r := TickOne(d.node, ids[0], now, io);
      TicksKeep(d.(node := r.node, txq := PushAll(d.txq, r.frames)), ids[1..], now, if ios == [] then [] else ios[1..]);
    }
  }

  lemma TickOneKeeps(d: Daemon, id: byte, now: int, io: Io)
    requires Inv(d)
    ensures var r := TickOne(d.node, id, now, io);
            Inv(d.(node := r.node, txq := PushAll(d.txq, r.frames)))
  {
    hide Build, Tick;
    if id in d.node.chans {
      var o := Tick(d.node.chans[id], id, now, io);
      TickKeeps(d.node.chans[id], id, now, io, d.node.up);
      ChannelMoves(d, id, o.ch, o.frames);
    }
  }

  lemma TimersKeep(d: Daemon, t: TickIo)
    requires Inv(d)
    ensures Inv(TickPhase(d, t))
  {
    hide Build, TickChannels, CloseLink, OpenLink;
    var reopened := if d.disconnected && t.now >= d.reopenAt then OpenLink(d, t.openOk, t.openNow) else d;
    if d.disconnected {
      OpenKeeps(d, t.openOk, t.openNow);
    }
    CloseKeeps(reopened, t.later);
    EnqueueKeeps(reopened, PING, t.later);
    var kept := TickKeepalive(reopened, t.now, t.later);
    TicksKeep(kept, kept.node.order, t.now, t.ios);
  }

  lemma StepKeeps(d: Daemon, e: Event)
    requires Inv(d)
    ensures Inv(Step(d, e))
  {
    hide Inv, TickPhase, LinkRead, LinkWrite, ChannelReady;
    match e
    case Timers(t) => TimersKeep(d, t);
    case Readable(read, ios, now) => ReadKeeps(d, read, ios, now);
    case Writable(w, now) => WriteKeeps(d, w, now);
    case Channel(id, ce, now) => ReadyKeeps(d, id, ce, now);
  }

  /** Session isolation: every state of every run from a fresh daemon satisfies the invariant. */
  lemma {:induction false} SessionIsolation(d: Daemon, events: seq<Event>)
    requires Initial(d)
    ensures Inv(Exec(d, events))
    decreases |events|
  {
    hide Step;
    if events != [] {
      SessionIsolation(d, events[..|events| - 1]);
      StepKeeps(Exec(d, events[..|events| - 1]), events[|events| - 1]);
    }
  }

  // ---------------------------------------------------------------- backpressure

  /** A handler that writes nothing to the link only adds to the queue, and pauses only at high water. */
  ghost predicate Fills(d: Daemon, d': Daemon) {
    && d'.sent == d.sent && |d.txq| <= |d'.txq| && d'.disconnected == d.disconnected
    && (d.bp ==> d'.bp)
    && (d'.bp && !d.bp ==> |d'.txq| >= LINK_HIGH_WATER)
  }

  lemma PushFills(d: Daemon, n: Node, fs: seq<Frame>)
    ensures Fills(d, d.(node := n, txq := PushAll(d.txq, fs)))
  {
    hide Build;
    PushAllGrows(d.txq, fs);
  }

  lemma DispatchFills(d: Daemon, f: Frame, io: Io)
    ensures Fills(d, DispatchFrame(d, f, io))
  {
    hide Build, LinkUp, Receive, PushAll;
    var e := EnqueueFrame(d, ACK, io.now);
    PushFills(e, LinkUp(e.node).node, LinkUp(e.node).frames);
    PushFills(d, LinkUp(d.node).node, LinkUp(d.node).frames);
    var c := if f.ftype == F_DATA || f.ftype == F_TDATA then CheckBpHigh(d) else d;
    var r := Receive(c.node, f, io);
    PushFills(c, r.node, r.frames);
  }

  lemma {:induction false} DispatchAllFills(d: Daemon, fs: seq<Frame>, ios: seq<Io>)
    ensures Fills(d, DispatchAll(d, fs, ios))
    decreases |fs|
  {
    hide DispatchFrame;
    if fs != [] {
      var io := if ios == [] then Io(0, true, true, WouldBlock) else ios[0];
      DispatchFills(d, fs[0], io);
      DispatchAllFills(DispatchFrame(d, fs[0], io), fs[1..], if ios == [] then [] else ios[1..]);
    }
  }

  lemma {:induction false} TicksFill(d: Daemon, ids: seq<byte>, now: int, ios: seq<Io>)
    ensures Fills(d, TickChannels(d, ids, now, ios)) && TickChannels(d, ids, now, ios).bp == d.bp
    decreases |ids|
  {
    hide TickOne, PushAll;
    if ids != [] {
      var io := if ios == [] then Io(now, true, true, WouldBlock) else ios[0];
      var r := TickOne(d.node, ids[0], now, io);
      PushFills(d, r.node, r.frames);
      TicksFill(d.(node := r.node, txq := PushAll(d.txq, r.frames)), ids[1..], now, if ios == [] then [] else ios[1..]);
    }
  }

  /** Bytes handed over since the link was opened: taken by the link, or still queued. */
  function Total(d: Daemon): nat {
    |d.sent| + |d.txq|
  }

  /** One step: pausing happens at high water, resuming at low water or by closing the link, and in
      between no queued byte disappears other than into the link. */
  lemma StepHysteresis(d: Daemon, e: Event)
    requires Inv(d)
    ensures var d' := Step(d, e);
            && (!d.bp && d'.bp ==> |d'.txq| >= LINK_HIGH_WATER)
            && (d.bp && d'.bp ==> Total(d') >= Total(d))
            && (d.bp && !d'.bp && !d'.disconnected ==> Total(d') >= Total(d) && |d'.txq| <= LINK_LOW_WATER)
            && (e.Channel? && |d'.txq| >= LINK_HIGH_WATER ==> d'.bp)
            && (e.Writable? && |d'.txq| <= LINK_LOW_WATER ==> !d'.bp)
  {
    hide Build, DispatchAll, Scan, TickChannels, Happens, PushAll;
    match e
    case Timers(t) =>
      var reopened := if d.disconnected && t.now >= d.reopenAt then OpenLink(d, t.openOk, t.openNow) else d;
      var kept := TickKeepalive(reopened, t.now, t.later);
      TicksFill(kept, kept.node.order, t.now, t.ios);
    case Readable(read, ios, now) =>
      if read.Data? {
        var r := Scan(d.parser + read.bytes);
        DispatchAllFills(d.(lastRx := Some(now), parser := r.rest), r.out, ios);
      }
    case Writable(w, now) =>
    case Channel(id, ce, now) =>
      var r := Happens(d.node, id, ce);
      PushFills(d, r.node, r.frames);
  }

  lemma ExecSnoc(d: Daemon, events: seq<Event>, k: nat)
    requires 0 < k <= |events|
    ensures Exec(d, events[..k]) == Step(Exec(d, events[..k - 1]), events[k - 1])
  {
    hide Step;
    assert events[..k][..k - 1] == events[..k - 1];
  }

  /** From a pause on, for as long as it lasts: what the link took plus what is queued stays at high water. */
  lemma {:induction false} PausedTotal(d: Daemon, events: seq<Event>, i: nat, k: nat)
    requires Initial(d) && 0 < i <= k <= |events|
    requires !Exec(d, events[..i - 1]).bp && forall m :: i <= m <= k ==> Exec(d, events[..m]).bp
    ensures Total(Exec(d, events[..k])) >= LINK_HIGH_WATER + |Exec(d, events[..i]).sent|
    decreases k
  {
    hide Step, Inv, Initial, Exec;
    SessionIsolation(d, events[..k - 1]);
    ExecSnoc(d, events, k);
    StepHysteresis(Exec(d, events[..k - 1]), events[k - 1]);
    assert Exec(d, events[..k]).bp;
    if k > i {
      PausedTotal(d, events, i, k - 1);
      assert Exec(d, events[..k - 1]).bp;
    }
  }

  /** Hysteresis over runs: between a pause (after event `i`) and the next resume (after event `j`),
      either the link was closed or it took at least LINK_HIGH_WATER - LINK_LOW_WATER bytes. */
  lemma BackpressureHysteresis(d: Daemon, events: seq<Event>, i: nat, j: nat)
    requires Initial(d) && 0 < i < j <= |events|
    requires !Exec(d, events[..i - 1]).bp && !Exec(d, events[..j]).bp
    requires forall m :: i <= m < j ==> Exec(d, events[..m]).bp
    ensures || Exec(d, events[..j]).disconnected
            || |Exec(d, events[..j]).sent| - |Exec(d, events[..i]).sent| >= LINK_HIGH_WATER - LINK_LOW_WATER
  {
    hide Step, Inv, Initial, Exec;
    PausedTotal(d, events, i, j - 1);
    SessionIsolation(d, events[..j - 1]);
    ExecSnoc(d, events, j);
    StepHysteresis(Exec(d, events[..j - 1]), events[j - 1]);
    assert Exec(d, events[..j - 1]).bp;
  }

  /** What backpressure does not promise: a handler that offers several frames at once gets all of them
      queued exactly when they fit together, whatever the queue held before. */
  lemma {:induction false} NothingDroppedIffRoom(q: seq<byte>, fs: seq<Frame>)
    requires |q| <= QUEUE_CAP
    ensures PushAll(q, fs) == q + Flat(BuildAll(fs)) <==> |q| + |Flat(BuildAll(fs))| <= QUEUE_CAP
    decreases |fs|
  {
    hide Build;
    PushAllGrows(q, fs);
    if |q| + |Flat(BuildAll(fs))| <= QUEUE_CAP {
      if fs == [] {
        assert q + Flat(BuildAll(fs)) == q;
      } else {
        assert BuildAll(fs)[1..] == BuildAll(fs[1..]);
        NothingDroppedIffRoom(q + Build(fs[0]), fs[1..]);
        assert q + Build(fs[0]) + Flat(BuildAll(fs[1..])) == q + Flat(BuildAll(fs));
      }
    }
  }

  /** The same for one readiness event of a channel. */
  lemma EventQueuedIffRoom(d: Daemon, id: byte, e: ChannelEvent, now: int)
    requires |d.txq| <= QUEUE_CAP
    ensures var wire := Flat(BuildAll(Happens(d.node, id, e).frames));
            ChannelReady(d, id, e, now).txq == d.txq + wire <==> |d.txq| + |wire| <= QUEUE_CAP
  {
    hide Happens, PushAll, BuildAll;
    NothingDroppedIffRoom(d.txq, Happens(d.node, id, e).frames);
  }

  /** How much a readable event takes from the socket, each read filling at most one buffer. */
  function Volume(inputs: seq<Read>): nat {
    if inputs == [] || !inputs[0].Data? then 0 else |inputs[0].bytes| + Volume(inputs[1..])
  }

  predicate FullReads(inputs: seq<Read>) {
    forall i :: 0 <= i < |inputs| ==> inputs[i].Data? && 0 < |inputs[i].bytes| <= TCP_READ_SIZE
  }

  lemma {:induction false} ReadsLong(id: byte, slot: nat, inputs: seq<Read>)
    requires slot < MAX_TCP_CONNS && FullReads(inputs)
    ensures !ReadConn(id, slot, inputs).1
    ensures |Flat(BuildAll(ReadConn(id, slot, inputs).0))| >= Volume(inputs)
    decreases |inputs|
  {
    hide ChunkFrames, BuildAll;
    if inputs != [] {
      ReadsLong(id, slot, inputs[1..]);
      ChunksLong(id, slot, inputs[0].bytes);
      FlatBuildAppend(ChunkFrames(id, slot, inputs[0].bytes), ReadConn(id, slot, inputs[1..]).0);
    }
  }

  lemma {:induction false} ChunksLong(id: byte, slot: nat, data: seq<byte>)
    requires slot < MAX_TCP_CONNS
    ensures |Flat(BuildAll(ChunkFrames(id, slot, data)))| >= |data|
    decreases |data|
  {
    hide Build;
    if data != [] {
      var end := Min(MAX_PAYLOAD - 2, |data|);
      ChunksLong(id, slot, data[end..]);
      var fs := ChunkFrames(id, slot, data);
      assert fs[1..] == ChunkFrames(id, slot, data[end..]);
      assert BuildAll(fs)[1..] == BuildAll(fs[1..]);
    }
  }

  /** So backpressure does not prevent loss: reading one connection until it would block, a buffer at a
      time, loses frames even on an unpaused daemon with an empty queue once more than the queue's
      capacity was read. */
  lemma LongReadDrops(d: Daemon, id: byte, slot: nat, inputs: seq<Read>, now: int)
    requires Inv(d) && !d.disconnected && d.txq == [] && !d.bp
    requires id in d.node.chans && d.node.chans[id].SourceCh? && slot < MAX_TCP_CONNS
    requires var conns := d.node.chans[id].src.conns; slot in conns && !conns[slot].closePending
    requires FullReads(inputs) && Volume(inputs) > QUEUE_CAP
    ensures var e := Slot(slot, true, inputs, false, WouldBlock, false);
            ChannelReady(d, id, e, now).txq != Flat(BuildAll(Happens(d.node, id, e).frames))
  {
    hide Inv, BuildAll, PushAll, ReadConn;
    var e := Slot(slot, true, inputs, false, WouldBlock, false);
    var fs := ReadConn(id, slot, inputs).0;
    ReadsLong(id, slot, inputs);
    assert Happens(d.node, id, e).frames == fs by {
      assert fs + [] == fs;
    }
    EventQueuedIffRoom(d, id, e, now);
    assert [] + Flat(BuildAll(fs)) == Flat(BuildAll(fs));
  }

  /** Nine full buffers are enough. */
  lemma NineReadsSuffice() returns (inputs: seq<Read>)
    ensures |inputs| == 9 && FullReads(inputs) && Volume(inputs) > QUEUE_CAP
  {
    inputs := seq(9, _ => Data(seq(TCP_READ_SIZE, _ => 0)));
    VolumeOfFull(inputs);
  }

  lemma {:induction false} VolumeOfFull(inputs: seq<Read>)
    requires forall i :: 0 <= i < |inputs| ==> inputs[i].Data? && |inputs[i].bytes| == TCP_READ_SIZE
    ensures Volume(inputs) == TCP_READ_SIZE * |inputs|
    decreases |inputs|
  {
    if inputs != [] {
      VolumeOfFull(inputs[1..]);
    }
  }

  // ---------------------------------------------------------------- backoff

  function FailedOpens(d: Daemon, nows: seq<int>): Daemon {
    if nows == [] then d else OpenLink(FailedOpens(d, nows[..|nows| - 1]), false, nows[|nows| - 1])
  }

  function Doubled(delay: nat, k: nat): nat {
    if k == 0 then delay else Min(2 * Doubled(delay, k - 1), DELAY_MAX)
  }

  /** Exponential backoff: from any delay in force, the k-th attempt in a row that fails is followed by a
      wait of that delay doubled k - 1 times, at most 8 s, and the failures change nothing else. */
  lemma {:induction false} BackoffDoubles(d: Daemon, nows: seq<int>)
    ensures var e := FailedOpens(d, nows);
            && e == d.(reopenAt := e.reopenAt, reopenDelay := Doubled(d.reopenDelay, |nows|))
            && (nows != [] ==> e.reopenAt == nows[|nows| - 1] + Doubled(d.reopenDelay, |nows| - 1))
    decreases |nows|
  {
    if nows != [] {
      BackoffDoubles(d, nows[..|nows| - 1]);
    }
  }

  /** In closed form: the wait is the smaller of the delay times a power of two and 8 s. */
  lemma {:induction false} DoubledIsPower(delay: nat, k: nat)
    requires delay <= DELAY_MAX
    ensures Doubled(delay, k) == Min(delay * Pow2(k), DELAY_MAX)
    decreases k
  {
    if k > 0 {
      DoubledIsPower(delay, k - 1);
      assert delay * Pow2(k) == 2 * (delay * Pow2(k - 1));
    }
  }

  // ---------------------------------------------------------------- timers

  lemma TickDeadline(ch: Channel, id: byte, now: int, io: Io, up: bool)
    requires InStep(ch, up) && io.now >= now
    ensures var x := NextDeadline(Tick(ch, id, now, io).ch); x.Some? ==> x.value >= now
  {
  }

  ghost predicate NotOverdue(ch: Channel, now: int) {
    NextDeadline(ch).Some? ==> NextDeadline(ch).value >= now
  }

  /** Ticking brings every visited channel's deadline to the present or later. */
  lemma {:induction false} TicksMeetDeadlines(d: Daemon, ids: seq<byte>, now: int, ios: seq<Io>, id: byte)
    requires Inv(d) && id in d.node.chans && (id in ids || NotOverdue(d.node.chans[id], now))
    requires forall i :: 0 <= i < |ios| ==> now <= ios[i].now
    ensures var e := TickChannels(d, ids, now, ios);
            id in e.node.chans && NotOverdue(e.node.chans[id], now) && e.node.up == d.node.up
            && e.lastTx == d.lastTx && e.lastRx == d.lastRx && e.reopenAt == d.reopenAt
    decreases |ids|
  {
    hide Build, Inv, Tick;
    if ids != [] {
      var io := if ios == [] then Io(now, true, true, WouldBlock) else ios[0];
      var r := TickOne(d.node, ids[0], now, io);
      var next := d.(node := r.node, txq := PushAll(d.txq, r.frames));
      TickOneKeeps(d, ids[0], now, io);
      if id == ids[0] {
        InvInStep(d, id);
        TickDeadline(d.node.chans[id], id, now, io, d.node.up);
      }
      TicksMeetDeadlines(next, ids[1..], now, if ios == [] then [] else ios[1..], id);
    }
  }

  lemma InvInStep(d: Daemon, id: byte)
    requires Inv(d) && id in d.node.chans
    ensures InStep(d.node.chans[id], d.node.up) && id in d.node.order
  {
  }

  lemma {:induction false} TicksKeepClocks(d: Daemon, ids: seq<byte>, now: int, ios: seq<Io>)
    ensures var e := TickChannels(d, ids, now, ios);
            && e.node.up == d.node.up && e.lastTx == d.lastTx && e.lastRx == d.lastRx && e.reopenAt == d.reopenAt
            && e.node.chans.Keys == d.node.chans.Keys
    decreases |ids|
  {
    hide Build, Tick, PushAll;
    if ids != [] {
      var io := if ios == [] then Io(now, true, true, WouldBlock) else ios[0];
      var r := TickOne(d.node, ids[0], now, io);
      var next := d.(node := r.node, txq := PushAll(d.txq, r.frames));
      TicksKeepClocks(next, ids[1..], now, if ios == [] then [] else ios[1..]);
    }
  }

  /** After reopening and keepalive, the link's own deadlines are not overdue, except that a keepalive
      that could not be sent because bytes are queued is about to be counted as traffic. */
  lemma KeepaliveMeetsDeadlines(d: Daemon, now: int, later: int)
    requires Inv(d) && now <= later && (d.disconnected ==> now <= d.reopenAt)
    ensures var e := TickKeepalive(d, now, later);
            && (e.disconnected ==> now <= e.reopenAt)
            && (!e.disconnected && e.lastRx.Some? ==> now <= e.lastRx.value + KA_TIMEOUT)
            && (!e.disconnected && e.node.up && e.txq == [] && e.lastTx.Some? ==> now <= e.lastTx.value + KA_INTERVAL)
  {
    hide Checksum;
    assert [] + Build(PING) == Build(PING);
  }

  lemma ReopenMeetsDeadline(d: Daemon, t: TickIo)
    requires Inv(d) && ClockRuns(t)
    ensures var e := if d.disconnected && t.now >= d.reopenAt then OpenLink(d, t.openOk, t.openNow) else d;
            Inv(e) && (e.disconnected ==> t.now <= e.reopenAt)
  {
    hide Build;
    if d.disconnected {
      OpenKeeps(d, t.openOk, t.openNow);
    }
  }

  /** Timer exactness: after the timer phase at time `t.now`, no deadline that the daemon will consult
      for its sleep is already past. */
  lemma TimersMeetDeadlines(d: Daemon, t: TickIo, x: int)
    requires Inv(d) && ClockRuns(t) && IsDeadline(TickPhase(d, t), x)
    ensures x >= t.now
  {
    hide Build, TickChannels, TickKeepalive, OpenLink, Inv;
    var reopened := if d.disconnected && t.now >= d.reopenAt then OpenLink(d, t.openOk, t.openNow) else d;
    ReopenMeetsDeadline(d, t);
    KeepaliveMeetsDeadlines(reopened, t.now, t.later);
    KeepaliveKeeps(reopened, t.now, t.later);
    var kept := TickKeepalive(reopened, t.now, t.later);
    var ticked := TickChannels(kept, kept.node.order, t.now, t.ios);
    TicksKeepClocks(kept, kept.node.order, t.now, t.ios);
    TicksFill(kept, kept.node.order, t.now, t.ios);
    InvClocks(kept);
    if id :| id in ticked.node.chans && NextDeadline(ticked.node.chans[id]) == Some(x) {
      InvInStep(kept, id);
      TicksMeetDeadlines(kept, kept.node.order, t.now, t.ios, id);
    }
  }

  lemma InvClocks(d: Daemon)
    requires Inv(d)
    ensures !d.disconnected ==> d.lastRx.Some? && d.lastTx.Some?
  {
  }

  lemma KeepaliveKeeps(d: Daemon, now: int, later: int)
    requires Inv(d)
    ensures Inv(TickKeepalive(d, now, later))
  {
    hide Build, CloseLink;
    CloseKeeps(d, later);
    EnqueueKeeps(d, PING, later);
  }

  /** `next_timeout`: the sleep is at most MAX_TICK, never runs past a pending deadline, and is cut short
      only by a deadline that falls within it. */
  method NextTimeout(d: Daemon, now: int) returns (sleep: int)
    requires forall id :: id in d.node.chans ==> id in d.node.order
    ensures 0 <= sleep <= MAX_TICK
    ensures forall x :: IsDeadline(d, x) && sleep > 0 ==> now + sleep <= x
    ensures sleep < MAX_TICK ==> exists x :: IsDeadline(d, x) && x <= now + sleep
  {
    var deadline := now + MAX_TICK;
    if d.disconnected {
      deadline := Min(deadline, d.reopenAt);
      assert IsDeadline(d, d.reopenAt);
    } else if d.node.up {
      if d.lastTx.Some? {
        deadline := Min(deadline, d.lastTx.value + KA_INTERVAL);
        assert IsDeadline(d, d.lastTx.value + KA_INTERVAL);
      }
      if d.lastRx.Some? {
        deadline := Min(deadline, d.lastRx.value + KA_TIMEOUT);
        assert IsDeadline(d, d.lastRx.value + KA_TIMEOUT);
      }
    }
    for i := 0 to |d.node.order|
      invariant deadline <= now + MAX_TICK
      invariant deadline == now + MAX_TICK || IsDeadline(d, deadline)
      invariant d.disconnected ==> deadline <= d.reopenAt
      invariant !d.disconnected && d.node.up && d.lastTx.Some? ==> deadline <= d.lastTx.value + KA_INTERVAL
      invariant !d.disconnected && d.node.up && d.lastRx.Some? ==> deadline <= d.lastRx.value + KA_TIMEOUT
      invariant forall k :: 0 <= k < i && d.node.order[k] in d.node.chans ==>
                  var next := NextDeadline(d.node.chans[d.node.order[k]]);
                  next.Some? ==> deadline <= next.value
    {
      var id := d.node.order[i];
      if id in d.node.chans {
        var next := NextDeadline(d.node.chans[id]);
        if next.Some? {
          deadline := Min(deadline, next.value);
          assert IsDeadline(d, next.value);
        }
      }
    }
    sleep := if deadline > now then deadline - now else 0;
  }
}
