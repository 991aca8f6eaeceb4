/** The daemon as an object: its fields, the real ring buffer, the real parser and the channel objects it
    owns, updated in place by handlers that loop over the channels.  Every handler moves the abstract
    state as the state machine of `Daemon` says, and `Run` carries what is proved of runs to the object. */
module DaemonObject {
  import opened Bytes
  import opened Streaming
  import opened LinkFrame
  import opened TxQueue
  import opened FrameParser
  import opened Channels
  import opened ChannelObjects
  import opened Session
  import D = Daemon

  class DaemonObject {
    const tx: TxQueue
    const rx: FrameParser
    const order: seq<byte>
    /** The channels by id; the map itself never changes. */
    const channels: map<byte, ChannelObject>
    var linkFd: bool
    var linkUp: bool
    var linkBp: bool
    var disconnected: bool
    var reopenAt: int
    var reopenDelay: nat
    var lastRx: Option<int>
    var lastTx: Option<int>
    /** Bytes the link has taken since it was opened. */
    ghost var sent: seq<byte>

    /** The channel objects. */
    ghost const refs: set<object>

    /** Every channel is registered under its own id and no two are the same object. */
    ghost predicate Owned() {
      && refs == (set id | id in channels :: channels[id].Ref())
      && (forall id :: id in channels ==> channels[id].Id() == id)
      && (forall i, j :: i in channels && j in channels && i != j ==> channels[i].Ref() != channels[j].Ref())
    }

    ghost predicate Valid()
      reads this, tx, rx, rx.buf
    {
      && tx.Valid() && rx.Valid() && tx.buf != rx.buf && Owned()
      && tx !in refs && rx !in refs && tx.buf !in refs && rx.buf !in refs && this !in refs
    }

    ghost function Chans(): (m: map<byte, Channel>)
      requires Owned()
      reads refs
      ensures m.Keys == channels.Keys
    {
      map id | id in channels :: channels[id].Abs()
    }

    ghost function Abs(): D.Daemon
      requires Valid()
      reads this, tx, tx.buf, rx, rx.buf, refs
    {
      D.Daemon(Node(linkUp, order, Chans()), tx.Contents(), sent, rx.Contents(),
               linkFd, disconnected, linkBp, reopenAt, reopenDelay, lastRx, lastTx)
    }

    constructor (order: seq<byte>, channels: map<byte, ChannelObject>, now: int)
      requires forall id :: id in channels ==> channels[id].Id() == id
      requires forall i, j :: i in channels && j in channels && i != j ==> channels[i].Ref() != channels[j].Ref()
      ensures Valid() && fresh(tx) && fresh(tx.buf) && fresh(rx) && fresh(rx.buf) && this.channels == channels
      ensures Abs() == D.Daemon(Node(false, order, Chans()), [], [], [], false, true, false,
                                now, D.DELAY_MIN, None, None)
    {
      tx := new TxQueue();
      rx := new FrameParser();
      this.order, this.channels := order, channels;
      refs := set id | id in channels :: channels[id].Ref();
      linkFd, linkUp, linkBp, disconnected := false, false, false, true;
      reopenAt, reopenDelay, lastRx, lastTx := now, D.DELAY_MIN, None, None;
      sent := [];
    }

    // -------------------------------------------------------------- one channel at a time

    method ConnectOne(id: byte) returns (frames: seq<Frame>)
      requires Owned() && id in channels
      modifies refs
      ensures frames == OnLinkConnect(old(Chans())[id], id).frames
      ensures Chans() == old(Chans())[id := OnLinkConnect(old(Chans())[id], id).ch]
    {
      hide OnLinkConnect, ChannelObject.Abs, ChannelObject.Id;
      frames := channels[id].OnLinkConnect();
    }

    method DisconnectOne(id: byte)
      requires Owned() && id in channels
      modifies refs
      ensures Chans() == old(Chans())[id := OnLinkDisconnect(old(Chans())[id])]
    {
      hide OnLinkDisconnect, ChannelObject.Abs, ChannelObject.Id;
      channels[id].OnLinkDisconnect();
    }

    method PauseOne(id: byte, b: bool)
      requires Owned() && id in channels
      modifies refs
      ensures Chans() == old(Chans())[id := old(Chans())[id].SetPaused(b)]
    {
      hide ChannelObject.Abs, ChannelObject.Id, Channel.SetPaused;
      channels[id].SetPaused(b);
    }

    method FrameOne(id: byte, f: Frame, io: Io) returns (frames: seq<Frame>)
      requires Owned() && id in channels
      modifies refs
      ensures frames == OnFrame(old(Chans())[id], id, f, io).frames
      ensures Chans() == old(Chans())[id := OnFrame(old(Chans())[id], id, f, io).ch]
    {
      hide OnFrame, ChannelObject.Abs, ChannelObject.Id;
      frames := channels[id].OnFrame(f, io);
    }

    method EventOne(id: byte, e: ChannelEvent) returns (frames: seq<Frame>)
      requires Owned() && id in channels
      modifies refs
      ensures frames == HandleEvent(old(Chans())[id], id, e).frames
      ensures Chans() == old(Chans())[id := HandleEvent(old(Chans())[id], id, e).ch]
    {
      hide HandleEvent, ChannelObject.Abs, ChannelObject.Id;
      frames := channels[id].HandleEvent(e);
    }

    method TickOne(id: byte, now: int, io: Io) returns (frames: seq<Frame>)
      requires Owned() && id in channels
      modifies refs
      ensures frames == Tick(old(Chans())[id], id, now, io).frames
      ensures Chans() == old(Chans())[id := Tick(old(Chans())[id], id, now, io).ch]
    {
      hide Tick, ChannelObject.Abs, ChannelObject.Id;
      frames := channels[id].Tick(now, io);
    }

    // -------------------------------------------------------------- helpers

    method PushFrames(frames: seq<Frame>)
      requires Valid()
      modifies tx`tail, tx.buf
      ensures Valid() && tx.Contents() == D.PushAll(old(tx.Contents()), frames)
      ensures rx.Contents() == old(rx.Contents()) && Chans() == old(Chans())
    {
      hide Chans, Owned, ChannelObject.Ref, ChannelObject.Abs, ChannelObject.Id;
      hide Build, LinkStep, Ring;
      var i := 0;
      ghost var start := tx.Contents();
      assert frames[0..] == frames;
      while i < |frames|
        invariant 0 <= i <= |frames| && Valid() && rx.Contents() == old(rx.Contents())
        invariant D.PushAll(tx.Contents(), frames[i..]) == D.PushAll(start, frames)
      {
        assert frames[i..][1..] == frames[i + 1..];
        tx.Enqueue(Build(frames[i]));
        i := i + 1;
      }
      assert frames[i..] == [];
    }

    /** Set or clear the pause flag of every channel. */
    method SetPausedAll(b: bool)
      requires Owned()
      modifies refs
      ensures Chans() == PausedAll(old(Chans()), b)
    {
      hide Chans, Owned, ChannelObject.Ref, ChannelObject.Abs, ChannelObject.Id;
      var todo := channels.Keys;
      while todo != {}
        invariant todo <= channels.Keys
        invariant forall id :: id in channels ==>
                    Chans()[id] == if id in todo then old(Chans())[id] else old(Chans())[id].SetPaused(b)
        decreases |todo|
      {
        var id :| id in todo;
        PauseOne(id, b);
        todo := todo - {id};
      }
    }

    method ScheduleReopen(now: int)
      requires Valid()
      modifies this`reopenAt, this`reopenDelay
      ensures Valid() && Abs() == D.ScheduleReopen(old(Abs()), now)
    {
      hide Chans, Owned, ChannelObject.Ref, ChannelObject.Abs, ChannelObject.Id;
      hide LinkStep, Ring;
      reopenAt := now + reopenDelay;
      reopenDelay := Min(2 * reopenDelay, D.DELAY_MAX);
    }

    // -------------------------------------------------------------- opening and closing

    method OpenLink(ok: bool, now: int)
      requires Valid()
      modifies this, tx, tx.buf, rx`len
      ensures Valid() && Abs() == D.OpenLink(old(Abs()), ok, now)
    {
      hide Chans, Owned, ChannelObject.Ref, ChannelObject.Abs, ChannelObject.Id;
      hide Build, LinkStep, Ring, Push;
      if !ok {
        ScheduleReopen(now);
        return;
      }
      linkFd, disconnected, reopenDelay, linkBp := true, false, D.DELAY_MIN, false;
      lastRx, sent := Some(now), [];
      assert Valid() && Chans() == old(Chans());
      ResetBuffers();
      EnqueueFrame(HELLO, now);
    }

    method ResetBuffers()
      requires Valid()
      modifies tx, rx`len
      ensures Valid() && Abs() == old(Abs()).(txq := [], parser := [])
    {
      hide Chans, Owned, ChannelObject.Ref, ChannelObject.Abs, ChannelObject.Id;
      hide LinkStep, Ring;
      rx.Reset();
      assert Valid() && Chans() == old(Chans());
      tx.Reset();
    }

    method CloseLink(now: int)
      requires Valid()
      modifies this, tx, refs
      ensures Valid() && Abs() == D.CloseLink(old(Abs()), now)
    {
      hide Chans, Owned, ChannelObject.Ref, ChannelObject.Abs, ChannelObject.Id;
      hide LinkStep, Ring, Session.Disconnect;
      if disconnected {
        return;
      }
      LeaveSession();
      disconnected, linkFd := true, false;
      tx.Reset();
      ScheduleReopen(now);
    }

    /** The channels' part of closing: unpause and disconnect them all. */
    method LeaveSession()
      requires Valid()
      modifies this`linkUp, this`linkBp, refs
      ensures Valid()
      ensures var d := old(Abs());
              Abs() == d.(bp := false, node := Session.Disconnect(if d.bp then Paused(d.node, false) else d.node))
    {
      hide Chans, Owned, ChannelObject.Ref, ChannelObject.Abs, ChannelObject.Id;
      hide LinkStep, Ring, Disconnected, PausedAll, Session.Disconnect;
      ghost var n := old(Abs()).node;
      DisconnectIs(if linkBp then Paused(n, false) else n);
      linkUp := false;
      if linkBp {
        linkBp := false;
        SetPausedAll(false);
      }
      DisconnectAll();
    }

    method DisconnectAll()
      requires Owned()
      modifies refs
      ensures Chans() == Disconnected(old(Chans()))
    {
      hide Chans, Owned, ChannelObject.Ref, ChannelObject.Abs, ChannelObject.Id, OnLinkDisconnect;
      var todo := channels.Keys;
      while todo != {}
        invariant todo <= channels.Keys
        invariant forall id :: id in channels ==>
                    Chans()[id] == if id in todo then old(Chans())[id] else OnLinkDisconnect(old(Chans())[id])
        decreases |todo|
      {
        var id :| id in todo;
        DisconnectOne(id);
        todo := todo - {id};
      }
    }

    // -------------------------------------------------------------- frames

    method EnqueueFrame(f: Frame, now: int)
      requires Valid()
      modifies this`lastTx, tx`tail, tx.buf
      ensures Valid() && Abs() == D.EnqueueFrame(old(Abs()), f, now)
    {
      hide Chans, Owned, ChannelObject.Ref, ChannelObject.Abs, ChannelObject.Id;
      hide Build, LinkStep, Ring;
      if disconnected || !linkFd {
        return;
      }
      tx.Enqueue(Build(f));
      lastTx := Some(now);
    }

    method CheckBpHigh()
      requires Valid()
      modifies this`linkBp, refs
      ensures Valid() && Abs() == D.CheckBpHigh(old(Abs()))
    {
      hide Chans, Owned, ChannelObject.Ref, ChannelObject.Abs, ChannelObject.Id;
      hide LinkStep, Ring, PausedAll;
      if !linkBp && tx.Used() >= LINK_HIGH_WATER {
        linkBp := true;
        SetPausedAll(true);
      }
    }

    /** Announce the handshake to every channel; the frames are what they send. */
    method BroadcastAll() returns (frames: seq<Frame>)
      requires Owned()
      modifies refs
      ensures MapOut(Chans(), frames) == Broadcast(old(Chans()), order)
    {
      hide OnLinkConnect;
      frames := [];
      var i := 0;
      assert order[0..] == order;
      while i < |order|
        invariant 0 <= i <= |order|
        invariant var b := Broadcast(Chans(), order[i..]);
                  MapOut(b.chans, frames + b.frames) == Broadcast(old(Chans()), order)
      {
        assert order[i..][1..] == order[i + 1..];
        var id := order[i];
        if id in channels {
          var own := ConnectOne(id);
          ghost var later := Broadcast(Chans(), order[i + 1..]).frames;
          assert frames + (own + later) == frames + own + later;
          frames := frames + own;
        }
        i := i + 1;
      }
      assert order[i..] == [];
      assert frames + [] == frames;
    }

    method Announce(now: int)
      requires Valid()
      modifies this`linkUp, this`lastTx, tx`tail, tx.buf, refs
      ensures Valid() && Abs() == D.Announce(old(Abs()), now)
    {
      hide Chans, Owned, ChannelObject.Ref, ChannelObject.Abs, ChannelObject.Id;
      hide Broadcast, LinkStep, Ring;
      linkUp := true;
      var frames := BroadcastAll();
      PushFrames(frames);
      lastTx := Some(now);
    }

    method DispatchFrame(f: Frame, io: Io)
      requires Valid()
      modifies this`linkUp, this`linkBp, this`lastTx, tx`tail, tx.buf, refs
      ensures Valid() && Abs() == D.DispatchFrame(old(Abs()), f, io)
    {
      hide Chans, Owned, ChannelObject.Ref, ChannelObject.Abs, ChannelObject.Id;
      hide Build, OnFrame, D.Announce, D.PushAll, LinkStep, Ring;
      if f.ftype == F_PING {
        EnqueueFrame(PONG, io.now);
      } else if f.ftype == F_PONG {
      } else if f.ftype == F_HELLO {
        EnqueueFrame(ACK, io.now);
        Announce(io.now);
      } else if f.ftype == F_ACK {
        if !linkUp {
          Announce(io.now);
        }
      } else {
        if f.ftype == F_DATA || f.ftype == F_TDATA {
          CheckBpHigh();
        }
        var frames := [];
        if f.channel in channels {
          frames := FrameOne(f.channel, f, io);
        }
        PushFrames(frames);
        lastTx := Some(io.now);
      }
    }

    // -------------------------------------------------------------- link I/O

    method LinkRead(read: Read, ios: seq<Io>, now: int)
      requires Valid()
      modifies this, tx, tx.buf, rx`len, rx.buf, refs
      ensures Valid() && Abs() == D.LinkRead(old(Abs()), read, ios, now)
    {
      hide Chans, Owned, ChannelObject.Ref, ChannelObject.Abs, ChannelObject.Id;
      hide Scan, D.DispatchFrame, D.CloseLink, LinkStep, Ring;
      if !linkFd {
        return;
      }
      match read
      case NoData =>
      case ReadFailed(_) => CloseLink(now);
      case Data(bytes) =>
        if bytes == [] {
          return;
        }
        lastRx := Some(now);
        ghost var before := rx.Contents();
        var frames := rx.Feed(bytes);
        assert Scan(before + bytes) == Result(frames, (), rx.Contents());
        ghost var start := Abs();
        var i := 0;
        assert frames[0..] == frames;
        assert Drop(ios, 0) == ios;
        while i < |frames|
          invariant 0 <= i <= |frames| && Valid()
          invariant D.DispatchAll(Abs(), frames[i..], Drop(ios, i)) == D.DispatchAll(start, frames, ios)
        {
          assert frames[i..][1..] == frames[i + 1..];
          assert Drop(ios, i) != [] ==> Drop(ios, i)[1..] == Drop(ios, i + 1);
          var io := if i < |ios| then ios[i] else Io(0, true, true, WouldBlock);
          DispatchFrame(frames[i], io);
          i := i + 1;
        }
        assert frames[i..] == [];
    }

    /** Resume the channels at low water. */
    method CheckBpLow()
      requires Valid()
      modifies this`linkBp, refs
      ensures Valid()
      ensures var d := old(Abs());
              Abs() == if d.bp && |d.txq| <= LINK_LOW_WATER then d.(bp := false, node := Paused(d.node, false)) else d
    {
      hide Chans, Owned, ChannelObject.Ref, ChannelObject.Abs, ChannelObject.Id;
      hide LinkStep, Ring, PausedAll;
      if linkBp && tx.Used() <= LINK_LOW_WATER {
        linkBp := false;
        SetPausedAll(false);
      }
    }

    method LinkWrite(w: Write, now: int)
      requires Valid()
      requires w.Wrote? ==> w.n <= Segment(LINK_TXBUF_SIZE, tx.head, tx.tail)
      modifies this, tx, refs
      ensures Valid() && Abs() == D.LinkWrite(old(Abs()), w, now)
    {
      hide Chans, Owned, ChannelObject.Ref, ChannelObject.Abs, ChannelObject.Id;
      hide D.CloseLink, LinkStep, Ring;
      if !linkFd {
        return;
      }
      ghost var q := tx.Contents();
      var r, out := tx.DrainToFd(w);
      if r == Broken {
        assert tx.Contents() == q;
        CloseLink(now);
        return;
      }
      assert out == q[..|out|] && tx.Contents() == q[|out|..];
      sent := sent + out;
      CheckBpLow();
    }

    method ChannelReady(id: byte, e: ChannelEvent, now: int)
      requires Valid()
      modifies this`linkBp, this`lastTx, tx`tail, tx.buf, refs
      ensures Valid() && Abs() == D.ChannelReady(old(Abs()), id, e, now)
    {
      hide Chans, Owned, ChannelObject.Ref, ChannelObject.Abs, ChannelObject.Id;
      hide HandleEvent, D.PushAll, LinkStep, Ring;
      var frames := [];
      if id in channels {
        frames := EventOne(id, e);
      }
      PushFrames(frames);
      CheckBpHigh();
      lastTx := Some(now);
    }

    // -------------------------------------------------------------- timers

    method TickKeepalive(now: int, later: int)
      requires Valid()
      modifies this, tx, tx.buf, refs
      ensures Valid() && Abs() == D.TickKeepalive(old(Abs()), now, later)
    {
      hide Chans, Owned, ChannelObject.Ref, ChannelObject.Abs, ChannelObject.Id;
      hide D.CloseLink, D.EnqueueFrame, LinkStep, Ring;
      if disconnected {
        return;
      }
      if lastRx.Some? && now - lastRx.value > D.KA_TIMEOUT {
        CloseLink(later);
        return;
      }
      if linkUp && lastTx.Some? && now - lastTx.value >= D.KA_INTERVAL && tx.IsEmpty() {
        EnqueueFrame(PING, later);
      }
    }

    method TickChannels(now: int, ios: seq<Io>)
      requires Valid()
      modifies tx`tail, tx.buf, refs
      ensures Valid() && Abs() == D.TickChannels(old(Abs()), order, now, ios)
    {
      hide Chans, Owned, ChannelObject.Ref, ChannelObject.Abs, ChannelObject.Id;
      hide Tick, D.PushAll, LinkStep, Ring;
      ghost var start := Abs();
      var i := 0;
      assert order[0..] == order;
      assert Drop(ios, 0) == ios;
      while i < |order|
        invariant 0 <= i <= |order| && Valid()
        invariant D.TickChannels(Abs(), order[i..], now, Drop(ios, i)) == D.TickChannels(start, order, now, ios)
        invariant unchanged(rx) && unchanged(rx.buf)
      {
        assert order[i..][1..] == order[i + 1..];
        assert Drop(ios, i) != [] ==> Drop(ios, i)[1..] == Drop(ios, i + 1);
        var id := order[i];
        var io := if i < |ios| then ios[i] else Io(now, true, true, WouldBlock);
        var frames := [];
        if id in channels {
          frames := TickOne(id, now, io);
        }
        PushFrames(frames);
        i := i + 1;
      }
      assert order[i..] == [];
    }

    /** One pass through the timer phase of the event loop. */
    method TimerPhase(t: D.TickIo)
      requires Valid()
      modifies this, tx, tx.buf, rx`len, refs
      ensures Valid() && Abs() == D.TickPhase(old(Abs()), t)
    {
      hide Chans, Owned, ChannelObject.Ref, ChannelObject.Abs, ChannelObject.Id;
      hide D.OpenLink, D.TickKeepalive, D.TickChannels, LinkStep, Ring;
      if disconnected && t.now >= reopenAt {
        OpenLink(t.openOk, t.openNow);
      }
      TickKeepalive(t.now, t.later);
      TickChannels(t.now, t.ios);
      if !tx.IsEmpty() {
        lastTx := Some(t.end);
      }
    }

    // -------------------------------------------------------------- the event loop

    /** The system takes no more of a write than it is offered. */
    function Offered(w: Write): (taken: Write)
      requires Valid()
      reads this, tx, rx, rx.buf
      ensures taken.Wrote? ==> taken.n <= Segment(LINK_TXBUF_SIZE, tx.head, tx.tail)
      ensures AtMost(w, taken)
    {
      if w.Wrote? then Wrote(Min(w.n, Segment(LINK_TXBUF_SIZE, tx.head, tx.tail))) else w
    }

    /** One event; `ran` is the event with a write cut to what was offered. */
    method Handle(e: D.Event) returns (ran: D.Event)
      requires Valid()
      modifies this, tx, tx.buf, rx`len, rx.buf, refs
      ensures Valid() && Abs() == D.Step(old(Abs()), ran) && Happened(e, ran)
    {
      hide Chans, Owned, ChannelObject.Ref, ChannelObject.Abs, ChannelObject.Id;
      hide D.TickPhase, D.LinkRead, D.LinkWrite, D.ChannelReady, LinkStep, Ring;
      ran := e;
      match e
      case Timers(t) => TimerPhase(t);
      case Readable(read, ios, now) => LinkRead(read, ios, now);
      case Writable(w, now) =>
        var taken := Offered(w);
        ran := D.Writable(taken, now);
        LinkWrite(taken, now);
      case Channel(id, ce, now) => ChannelReady(id, ce, now);
    }

    /** The event loop.  From a new daemon on, the object is where the state machine's run is, and keeps
        the session invariant. */
    method Run(events: seq<D.Event>) returns (ran: seq<D.Event>)
      requires Valid() && D.Initial(Abs())
      modifies this, tx, tx.buf, rx`len, rx.buf, refs
      ensures Valid() && |ran| == |events| && forall i :: 0 <= i < |events| ==> Happened(events[i], ran[i])
      ensures Abs() == D.Exec(old(Abs()), ran) && D.Inv(Abs())
    {
      hide Chans, Owned, ChannelObject.Ref, ChannelObject.Abs, ChannelObject.Id;
      hide D.Step, D.Inv, D.Initial, LinkStep, Ring;
      ran := [];
      ghost var start := Abs();
      for i := 0 to |events|
        invariant Valid() && |ran| == i && Abs() == D.Exec(start, ran)
        invariant forall k :: 0 <= k < i ==> Happened(events[k], ran[k])
      {
        var e := Handle(events[i]);
        assert (ran + [e])[..|ran|] == ran;
        ran := ran + [e];
      }
      D.SessionIsolation(start, ran);
    }
  }

  predicate AtMost(w: Write, taken: Write) {
    taken == w || (w.Wrote? && taken.Wrote? && taken.n <= w.n)
  }

  predicate Happened(e: D.Event, ran: D.Event) {
    ran == e || (e.Writable? && ran.Writable? && AtMost(e.write, ran.write) && ran.now == e.now)
  }

  function Disconnected(m: map<byte, Channel>): map<byte, Channel> {
    map id | id in m :: OnLinkDisconnect(m[id])
  }

  lemma DisconnectIs(n: Node)
    ensures Session.Disconnect(n) == n.(up := false, chans := Disconnected(n.chans))
  {
  }

  ghost function Drop(ios: seq<Io>, i: nat): seq<Io> {
    if i <= |ios| then ios[i..] else []
  }
}
