/** What the channels do, said without their code: when an MCU counts as reset, when a UART is tried again,
    when a PTY and a connection slot go, what is accepted, and that a channel's deadline is exactly the time
    at which its tick has something to do. */
module ChannelLaws {
  import opened Bytes
  import opened LinkFrame
  import opened TxQueue
  import opened Channels
  import opened Session

  // ---------------------------------------------------------------- the MCU channel over runs

  datatype McuAct =
    | Happens(e: ChannelEvent)
    | Gets(f: Frame, io: Io)
    | Ticks(now: int, io: Io)
    | Linked
    | Unlinked
    | Pauses(b: bool)

  function McuStep(m: Mcu, act: McuAct, id: byte): Out<Mcu> {
    match act
    case Happens(e) => McuEvent(m, id, e)
    case Gets(f, io) => Quiet(McuOnFrame(m, f, io))
    case Ticks(now, io) => McuTick(m, id, now, io)
    case Linked => var o := OnLinkConnect(McuCh(m), id); Out(o.ch.mcu, o.frames)
    case Unlinked => Quiet(OnLinkDisconnect(McuCh(m)).mcu)
    case Pauses(b) => Quiet(m.(bpPaused := b))
  }

  /** The channel with its history: when the UART last delivered anything, and when a UART that could not be
      read or opened is due to be tried again. */
  datatype Tracked = Tracked(m: Mcu, heard: Option<int>, retry: Option<int>)

  predicate Delivers(m: Mcu, act: McuAct) {
    act.Happens? && act.e.Primary? && act.e.readable && m.fd && act.e.read.Data? && act.e.read.bytes != []
  }

  predicate Fails(m: Mcu, act: McuAct) {
    act.Happens? && act.e.Primary? && act.e.readable && m.fd && act.e.read.ReadFailed?
  }

  /** A tick at which the UART is tried again. */
  predicate Tries(t: Tracked, act: McuAct) {
    act.Ticks? && !t.m.fd && t.retry.Some? && act.now >= t.retry.value
  }

  function Track(t: Tracked, act: McuAct, id: byte): Tracked {
    Tracked(
      McuStep(t.m, act, id).ch,
      if Delivers(t.m, act) then Some(act.e.now) else t.heard,
      if Fails(t.m, act) then Some(act.e.now + READ_RETRY)
      else if Tries(t, act) && !act.io.ok then Some(act.io.now + REOPEN_DELAY)
      else t.retry)
  }

  function TrackAll(t: Tracked, acts: seq<McuAct>, id: byte): Tracked
    decreases |acts|
  {
    if acts == [] then t else TrackAll(Track(t, acts[0], id), acts[1..], id)
  }

  /** A channel as constructed, its UART opened or not. */
  function NewMcu(ok: bool, now: int): Tracked {
    var retry := if ok then None else Some(now + REOPEN_DELAY);
    Tracked(Mcu(Init, ok, [], None, retry, false, false), None, retry)
  }

  /** An active MCU is one whose open UART delivered something, last at `heard`; only an active one has bytes
      waiting for it; and a closed UART is due at `retry`. */
  predicate Known(t: Tracked) {
    && (t.m.state == Active ==> t.m.fd && t.heard.Some? && t.m.lastRx == t.heard)
    && (t.m.state != Active ==> t.m.txbuf == [])
    && (!t.m.fd ==> t.retry.Some? && t.m.reopenAt == t.retry)
  }

  /** The reading half of an event. */
  function ReadOnly(e: ChannelEvent): ChannelEvent
    requires e.Primary?
  {
    Primary(e.readable, e.read, false, e.write, e.now)
  }

  lemma ReadKnows(t: Tracked, e: ChannelEvent, id: byte)
    requires Known(t) && e.Primary? && e.readable
    ensures Known(Track(t, Happens(ReadOnly(e)), id))
  {
    hide SyncOffset;
  }

  lemma WriteKnows(t: Tracked, w: Write)
    requires Known(t)
    ensures Known(t.(m := UartDrain(t.m, w)))
  {
  }

  lemma TrackKnows(t: Tracked, act: McuAct, id: byte)
    requires Known(t)
    ensures Known(Track(t, act, id))
  {
    hide UartRead, UartDrain;
    if act.Happens? && act.e.Primary? {
      if act.e.readable {
        ReadKnows(t, act.e, id);
      }
      var mid := if act.e.readable then Track(t, Happens(ReadOnly(act.e)), id) else t;
      WriteKnows(mid, act.e.write);
    } else if act.Gets? && t.m.state == Active {
      WriteKnows(t.(m := t.m.(txbuf := t.m.txbuf + act.f.payload)), act.io.write);
    }
  }

  lemma {:induction false} RunKnows(t: Tracked, acts: seq<McuAct>, id: byte)
    requires Known(t)
    ensures Known(TrackAll(t, acts, id))
    decreases |acts|
  {
    hide Known, Track;
    if acts != [] {
      TrackKnows(t, acts[0], id);
      RunKnows(Track(t, acts[0], id), acts[1..], id);
    }
  }

  /** Silence: in every run, a tick of an open UART resets the MCU if and only if it is active and the last
      read that delivered anything is more than five seconds old; the reset discards what was waiting for the
      MCU and is announced by exactly one FLUSH while the link is up.  Otherwise the tick does nothing. */
  lemma SilenceResets(ok: bool, start: int, acts: seq<McuAct>, id: byte, now: int, io: Io)
    ensures var t := TrackAll(NewMcu(ok, start), acts, id);
            var o := McuTick(t.m, id, now, io);
            t.m.fd ==>
              if t.m.state == Active && t.heard.Some? && now - t.heard.value > 5000
              then && o.ch == t.m.(state := Resetting, lastRx := None, txbuf := [])
                   && o.frames == if t.m.linkUp then [Frame(F_FLUSH, id, [])] else []
              else o == Quiet(t.m)
  {
    hide TrackAll;
    RunKnows(NewMcu(ok, start), acts, id);
  }

  /** Reopening: in every run, a tick of a closed UART tries to open it if and only if two seconds have passed
      since the last attempt that failed, or one since it could not be read; nothing else is changed. */
  lemma UartRetries(ok: bool, start: int, acts: seq<McuAct>, id: byte, now: int, io: Io)
    ensures var t := TrackAll(NewMcu(ok, start), acts, id);
            var o := McuTick(t.m, id, now, io);
            !t.m.fd ==>
              && t.retry.Some? && t.m.state != Active && t.m.txbuf == [] && o.frames == []
              && o.ch == t.m.(fd := o.ch.fd, reopenAt := o.ch.reopenAt)
              && (o.ch.fd <==> now >= t.retry.value && io.ok)
              && (!o.ch.fd ==> o.ch.reopenAt == Some(if now >= t.retry.value then io.now + 2000 else t.retry.value))
  {
    hide TrackAll;
    RunKnows(NewMcu(ok, start), acts, id);
  }

  /** A read that fails closes the UART, resets the MCU and has it tried again after one second. */
  lemma FailureResets(t: Tracked, act: McuAct, id: byte)
    requires Known(t) && Fails(t.m, act)
    ensures var u := Track(t, act, id);
            !u.m.fd && u.m.state == Resetting && u.m.txbuf == [] && u.m.reopenAt == Some(act.e.now + 1000)
    ensures McuStep(t.m, act, id).frames ==
            if t.m.linkUp && t.m.state != Resetting then [Frame(F_FLUSH, id, [])] else []
  {
    TrackKnows(t, act, id);
  }

  /** An inactive MCU becomes active exactly when its open UART delivers a sync byte. */
  lemma SyncActivates(m: Mcu, e: ChannelEvent, id: byte)
    requires m.state != Active && e.Primary? && e.readable && m.fd && e.read.Data?
    ensures var data := e.read.bytes[..Min(4096, |e.read.bytes|)];
            McuEvent(m, id, e).ch.state == if 0x7E in data then Active else m.state
  {
    var data := e.read.bytes[..Min(4096, |e.read.bytes|)];
    var i := SyncOffset(data);
    if i < |data| {
      assert data[i] in data;
    } else {
      assert data[..i] == data;
    }
  }

  /** A failed write to an open UART drops what was waiting for the MCU; data for an inactive MCU, or other
      frames, are ignored. */
  lemma McuDrops(m: Mcu, f: Frame, io: Io, e: ChannelEvent, id: byte)
    ensures f.ftype != F_DATA || m.state != Active || !m.fd ==> McuOnFrame(m, f, io) == m
    ensures f.ftype == F_DATA && m.state == Active && m.fd && io.write == WriteFailed ==>
              McuOnFrame(m, f, io).txbuf == []
    ensures e.Primary? && !e.readable && e.writable && m.fd && e.write == WriteFailed ==>
              McuEvent(m, id, e).ch == m.(txbuf := [])
  {
  }

  /** Only reads and ticks change the MCU's state, its UART and their times: frames, the link and pauses do
      not. */
  lemma LinkLeavesUart(m: Mcu, act: McuAct, id: byte)
    requires !act.Happens? && !act.Ticks?
    ensures var o := McuStep(m, act, id).ch;
            o.state == m.state && o.fd == m.fd && o.lastRx == m.lastRx && o.reopenAt == m.reopenAt
  {
  }

  // ---------------------------------------------------------------- the PTY

  /** The loss of the last reader closes a PTY, drops what was waiting for it and sends nothing; no other event
      closes it. */
  lemma EioCloses(p: Pty, id: byte, e: ChannelEvent)
    requires p.open && e.Primary?
    ensures var o := PtyEvent(p, id, e);
            && (o.ch.open <==> !(e.readable && e.read == ReadFailed(true)))
            && (!o.ch.open ==> o.ch.txbuf == [] && o.frames == [])
            && (e.readable && e.read.ReadFailed? ==> o.frames == [])
  {
  }

  /** A PTY that cannot be opened stays closed; one that is open is left alone by READY. */
  lemma ReadyOpens(p: Pty, f: Frame, io: Io)
    requires f.ftype == F_READY
    ensures PtyOnFrame(p, f, io) == if !p.open && io.ok then p.(open := true) else p
  {
  }

  /** Data for a closed PTY is dropped, and a failed write drops what was waiting for an open one. */
  lemma PtyDrops(p: Pty, f: Frame, io: Io)
    requires f.ftype == F_DATA && (!p.open ==> p.txbuf == [])
    ensures !p.open || io.write == WriteFailed ==> PtyOnFrame(p, f, io).txbuf == []
    ensures PtyOnFrame(p, f, io).open == p.open
  {
  }

  // ---------------------------------------------------------------- announcing a handshake

  /** What a completed or repeated handshake does to a channel: the host's ends keep nothing of what went
      before, the exporter's ends keep everything. */
  predicate Rejoined(before: Channel, after: Channel) {
    match before
    case McuCh(m) => after == McuCh(m.(linkUp := true))
    case PtyCh(p) => after == PtyCh(p.(open := false, txbuf := []))
    case SourceCh(s) => after == SourceCh(s.(linkUp := true))
    case DestCh(d) => after == DestCh(d.(conns := map[]))
  }

  lemma HandshakeRejoins(n: Node, id: byte)
    requires Ordered(n) && id in n.chans
    ensures id in LinkUp(n).node.chans && Rejoined(n.chans[id], LinkUp(n).node.chans[id])
  {
    hide Broadcast;
    BroadcastConnects(n.chans, n.order, id);
  }

  /** A PING is answered by one PONG and changes nothing; a PONG and an acknowledgement that is not awaited
      change nothing at all; and so does a frame for a channel that does not exist. */
  lemma ControlAnswers(n: Node, f: Frame, io: Io)
    ensures f.ftype == F_PING ==> Receive(n, f, io) == NodeOut(n, [Frame(F_PONG, 0, [])])
    ensures f.ftype == F_PONG || (f.ftype == F_ACK && n.up) || (!IsControl(f.ftype) && f.channel !in n.chans) ==>
              Receive(n, f, io) == NodeOut(n, [])
    ensures f.ftype == F_HELLO ==> Receive(n, f, io).frames != [] && Receive(n, f, io).frames[0] == Frame(F_ACK, 0, [])
  {
  }

  /** A frame for one channel leaves the others alone. */
  lemma OthersUntouched(n: Node, f: Frame, io: Io, id: byte)
    requires !IsControl(f.ftype) && id in n.chans && id != f.channel
    ensures var m := Receive(n, f, io).node; id in m.chans && m.chans[id] == n.chans[id] && m.up == n.up
  {
  }

  // ---------------------------------------------------------------- deadlines

  /** Before its deadline, or without one, a channel has nothing to do: no tick is missed by sleeping. */
  lemma TickNeedsDeadline(ch: Channel, id: byte, now: int, io: Io)
    requires Tick(ch, id, now, io) != Quiet(ch)
    ensures NextDeadline(ch).Some? && NextDeadline(ch).value <= now
  {
  }

  /** And just after its deadline it has: no wake-up is in vain. */
  lemma DeadlineIsTight(ch: Channel, id: byte, io: Io)
    requires NextDeadline(ch).Some? && io.now >= NextDeadline(ch).value
    ensures Tick(ch, id, NextDeadline(ch).value + 1, io) != Quiet(ch)
  {
  }
}
