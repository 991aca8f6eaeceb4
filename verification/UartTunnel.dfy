/** The serial path of one MCU within a session, both ways: what the exporter reads from the UART once the
    Klipper sync byte has been seen is what the host writes to its PTY, and what the host reads from the PTY
    is what the exporter writes to the UART, in order and without gaps. */
module UartTunnel {
  import opened Bytes
  import opened LinkFrame
  import opened TxQueue
  import opened Channels

  /** MCU channel, PTY channel and the frames in flight each way.
      Towards the host, `period` are the UART bytes to be forwarded since the MCU last became active, or since
      the session began with it active, `written` the bytes the PTY has taken since it was last opened, and
      `intact` says that none were discarded by a failed write since then.
      Towards the MCU, `typed` are the bytes read from the PTY, `taken` those the UART has taken, and `kept`
      says that none were discarded, by a failed write, a reset or for want of an active MCU. */
  datatype Path = Path(
    mcu: Mcu, pty: Pty, fifo: seq<Frame>, back: seq<Frame>,
    period: seq<byte>, written: seq<byte>, intact: bool,
    typed: seq<byte>, taken: seq<byte>, kept: bool)

  datatype Event =
    | Uart(e: ChannelEvent)
    | Timer(now: int, io: Io)
    | HostGets(io: Io)        // the host handles the next frame
    | Tty(e: ChannelEvent)
    | McuGets(io: Io)         // the exporter handles the next frame

  /** The bytes one read delivers. */
  function Heard(e: ChannelEvent): seq<byte> {
    if e.Primary? && e.readable && e.read.Data? then e.read.bytes[..Min(READ_SIZE, |e.read.bytes|)] else []
  }

  /** Forwarding starts at the first sync byte, continues while the MCU is active and ends with a reset. */
  function PeriodAfter(before: Mcu, after: Mcu, period: seq<byte>, heard: seq<byte>): seq<byte> {
    if after.state != Active then []
    else if before.state == Active then period + heard
    else heard[SyncOffset(heard)..]
  }

  /** The part of `buf` that a write hands over. */
  function Taken(buf: seq<byte>, w: Write): seq<byte> {
    if w.Wrote? then buf[..Min(w.n, |buf|)] else []
  }

  /** A failed write discards what was buffered. */
  predicate Discards(buf: seq<byte>, w: Write) {
    w == WriteFailed && buf != []
  }

  /** The MCU channel between reading and writing. */
  function AfterRead(m: Mcu, e: ChannelEvent, id: byte): Mcu {
    if e.Primary? && e.readable then UartRead(m, id, e.read, e.now).ch else m
  }

  function Step(s: Path, ev: Event, id: byte): Path {
    match ev
    case Uart(e) =>
      var o, mid := McuEvent(s.mcu, id, e), AfterRead(s.mcu, e, id);
      var writes := e.Primary? && e.writable && mid.fd;
      s.(mcu := o.ch, fifo := s.fifo + o.frames,
         period := PeriodAfter(s.mcu, o.ch, s.period, if s.mcu.fd then Heard(e) else []),
         taken := if writes then s.taken + Taken(mid.txbuf, e.write) else s.taken,
         kept := s.kept && mid.txbuf == s.mcu.txbuf && !(writes && Discards(mid.txbuf, e.write)))
    case Timer(now, io) =>
      var o := McuTick(s.mcu, id, now, io);
      s.(mcu := o.ch, fifo := s.fifo + o.frames, period := PeriodAfter(s.mcu, o.ch, s.period, []),
         kept := s.kept && o.ch.txbuf == s.mcu.txbuf)
    case HostGets(io) =>
      if s.fifo == [] then s
      else
        var f := s.fifo[0];
        var p, buf := PtyOnFrame(s.pty, f, io), s.pty.txbuf + f.payload;
        var t := s.(pty := p, fifo := s.fifo[1..]);
        if !p.open || !s.pty.open then t.(written := [], intact := true)
        else if f.ftype == F_DATA then
          t.(written := s.written + Taken(buf, io.write), intact := s.intact && !Discards(buf, io.write))
        else t
    case Tty(e) =>
      var o := PtyEvent(s.pty, id, e);
      var writes := e.Primary? && e.writable && s.pty.open;
      s.(pty := o.ch, back := s.back + o.frames,
         written := if writes then s.written + Taken(s.pty.txbuf, e.write) else s.written,
         intact := s.intact && !(writes && Discards(s.pty.txbuf, e.write)),
         typed := if s.pty.open then s.typed + Heard(e) else s.typed)
    case McuGets(io) =>
      if s.back == [] then s
      else
        var f := s.back[0];
        var buf := s.mcu.txbuf + f.payload;
        var t := s.(mcu := McuOnFrame(s.mcu, f, io), back := s.back[1..]);
        if f.ftype != F_DATA then t
        else if s.mcu.fd && s.mcu.state == Active then
          t.(taken := s.taken + Taken(buf, io.write), kept := s.kept && !Discards(buf, io.write))
        else t.(kept := s.kept && f.payload == [])
  }

  function Exec(s: Path, events: seq<Event>, id: byte): Path
    decreases |events|
  {
    if events == [] then s else Exec(Step(s, events[0], id), events[1..], id)
  }

  /** Opening a PTY succeeds, and no PTY reports that its last reader has gone. */
  predicate Benign(ev: Event) {
    match ev
    case HostGets(io) => io.ok
    case Tty(e) => e.Primary? ==> e.read != ReadFailed(true)
    case _ => true
  }

  // ---------------------------------------------------------------- towards the host

  /** What the host has been, or will be, given since it opened the PTY, and whether it kept all of it. */
  datatype Served = Served(open: bool, bytes: seq<byte>, intact: bool)

  function Serve(v: Served, f: Frame): Served {
    if f.ftype == F_FLUSH then Served(false, [], true)
    else if f.ftype == F_READY then (if v.open then v else Served(true, [], true))
    else if f.ftype == F_DATA && v.open then v.(bytes := v.bytes + f.payload)
    else v
  }

  function ServeAll(v: Served, q: seq<Frame>): Served
    decreases |q|
  {
    if q == [] then v else ServeAll(Serve(v, q[0]), q[1..])
  }

  function ServedSoFar(s: Path): Served {
    Served(s.pty.open, s.written + s.pty.txbuf, s.intact)
  }

  /** The host is as it should be for an MCU in this state and period. */
  predicate Right(v: Served, active: bool, period: seq<byte>) {
    && v.open == active && (v.intact ==> v.bytes == period)
    && (!v.open ==> v.bytes == [] && v.intact)
  }

  /** The session is up, and once everything in flight has been handled the host will have been given
      exactly the bytes of the current period. */
  predicate Inv(s: Path) {
    && s.mcu.linkUp && (!s.mcu.fd ==> s.mcu.state != Active)
    && (!s.pty.open ==> s.written + s.pty.txbuf == [] && s.intact)
    && Right(ServeAll(ServedSoFar(s), s.fifo), s.mcu.state == Active, s.period)
    && (s.mcu.state != Active ==> s.period == [])
  }

  lemma {:induction false} ServeAppend(v: Served, p: seq<Frame>, q: seq<Frame>)
    ensures ServeAll(v, p + q) == ServeAll(ServeAll(v, p), q)
    decreases |p|
  {
    if p == [] {
      assert p + q == q;
    } else {
      assert (p + q)[1..] == p[1..] + q;
      ServeAppend(Serve(v, p[0]), p[1..], q);
    }
  }

  /** Reading the UART: the frames sent take the host from the old period to the new one. */
  lemma UartTells(m: Mcu, id: byte, read: Read, now: int, v: Served, period: seq<byte>)
    requires m.linkUp && m.fd && (m.state != Active ==> period == []) && Right(v, m.state == Active, period)
    ensures var o := UartRead(m, id, read, now);
            var heard := if read.Data? then read.bytes[..Min(READ_SIZE, |read.bytes|)] else [];
            Right(ServeAll(v, o.frames), o.ch.state == Active, PeriodAfter(m, o.ch, period, heard))
  {
    var o := UartRead(m, id, read, now);
    if |o.frames| == 2 {
      assert o.frames == [o.frames[0]] + [o.frames[1]];
      ServeAppend(v, [o.frames[0]], [o.frames[1]]);
      ServeOne(v, o.frames[0]);
      ServeOne(Serve(v, o.frames[0]), o.frames[1]);
    } else if |o.frames| == 1 {
      assert o.frames == [o.frames[0]];
      ServeOne(v, o.frames[0]);
    } else {
      assert period + [] == period;
    }
  }

  lemma UartKeeps(s: Path, e: ChannelEvent, id: byte)
    requires Inv(s)
    ensures Inv(Step(s, Uart(e), id))
  {
    hide UartRead, ServeAll, Taken, SyncOffset, Right;
    var o := McuEvent(s.mcu, id, e);
    ServeAppend(ServedSoFar(s), s.fifo, o.frames);
    if e.Primary? && e.readable && s.mcu.fd {
      UartTells(s.mcu, id, e.read, e.now, ServeAll(ServedSoFar(s), s.fifo), s.period);
      UartStaysUp(s.mcu, id, e.read, e.now);
    } else {
      QuietUart(s.mcu, id, e);
      assert s.period + [] == s.period;
      ServeNothing(ServeAll(ServedSoFar(s), s.fifo));
    }
  }

  lemma QuietUart(m: Mcu, id: byte, e: ChannelEvent)
    requires !(e.Primary? && e.readable && m.fd)
    ensures var o := McuEvent(m, id, e);
            && o.frames == [] && o.ch.state == m.state && o.ch.linkUp == m.linkUp && o.ch.fd == m.fd
            && (m.fd ==> Heard(e) == [])
  {
  }

  lemma UartStaysUp(m: Mcu, id: byte, read: Read, now: int)
    ensures var o := UartRead(m, id, read, now);
            o.ch.linkUp == m.linkUp && (!o.ch.fd ==> m.fd ==> o.ch.state != Active)
  {
  }

  lemma ServeNothing(v: Served)
    ensures ServeAll(v, []) == v
  {
  }

  lemma TimerKeeps(s: Path, now: int, io: Io, id: byte)
    requires Inv(s)
    ensures Inv(Step(s, Timer(now, io), id))
  {
    hide ServeAll;
    var o := McuTick(s.mcu, id, now, io);
    var v := ServeAll(ServedSoFar(s), s.fifo);
    ServeAppend(ServedSoFar(s), s.fifo, o.frames);
    ServeNothing(v);
    assert s.period + [] == s.period;
    if o.frames != [] {
      assert o.frames == [Frame(F_FLUSH, id, [])];
      ServeOne(v, o.frames[0]);
    }
  }

  lemma ServeOne(v: Served, f: Frame)
    ensures ServeAll(v, [f]) == Serve(v, f)
  {
    assert [f][1..] == [];
  }

  /** A write that does not discard hands over a prefix and keeps the rest. */
  lemma WriteSplits(given: seq<byte>, buf: seq<byte>, w: Write)
    requires !Discards(buf, w)
    ensures given + Taken(buf, w) + AfterWrite(buf, w) == given + buf
  {
  }

  /** Once bytes were lost, they are missed until the PTY is closed and opened again. */
  lemma {:induction false} ServeLoses(v: Served, w: Served, q: seq<Frame>)
    requires v.open && w.open && !w.intact
    ensures ServeAll(w, q).open == ServeAll(v, q).open
    ensures ServeAll(w, q).intact ==> ServeAll(w, q) == ServeAll(v, q)
    ensures !ServeAll(w, q).open ==> ServeAll(w, q) == ServeAll(v, q)
    decreases |q|
  {
    if q != [] && q[0].ftype != F_FLUSH {
      ServeLoses(Serve(v, q[0]), Serve(w, q[0]), q[1..]);
    }
  }

  lemma HostGetsKeeps(s: Path, io: Io, id: byte)
    requires Inv(s) && s.fifo != [] && Benign(HostGets(io))
    ensures Inv(Step(s, HostGets(io), id))
  {
    hide Taken, AfterWrite, ServeAll, Right;
    var t, f := Step(s, HostGets(io), id), s.fifo[0];
    var v := Serve(ServedSoFar(s), f);
    ServeCons(ServedSoFar(s), s.fifo);
    if f.ftype == F_DATA && s.pty.open {
      var buf := s.pty.txbuf + f.payload;
      assert s.written + buf == s.written + s.pty.txbuf + f.payload;
      if Discards(buf, io.write) {
        LostIsRight(v, ServedSoFar(t), t.fifo, s.mcu.state == Active, s.period);
      } else {
        WriteSplits(s.written, buf, io.write);
        assert ServedSoFar(t) == v;
      }
    } else {
      assert s.pty.open || (s.pty.txbuf == [] && s.written == []);
      assert ServedSoFar(t) == v;
    }
  }

  lemma LostIsRight(v: Served, w: Served, q: seq<Frame>, active: bool, period: seq<byte>)
    requires v.open && w.open && !w.intact && Right(ServeAll(v, q), active, period)
    ensures Right(ServeAll(w, q), active, period)
  {
    hide ServeAll;
    ServeLoses(v, w, q);
  }

  lemma ServeCons(v: Served, q: seq<Frame>)
    requires q != []
    ensures ServeAll(v, q) == ServeAll(Serve(v, q[0]), q[1..])
  {
  }

  lemma TtyKeeps(s: Path, e: ChannelEvent, id: byte)
    requires Inv(s) && Benign(Tty(e))
    ensures Inv(Step(s, Tty(e), id))
  {
    hide Taken, AfterWrite, ServeAll, Right;
    var t := Step(s, Tty(e), id);
    if e.Primary? && e.writable && s.pty.open {
      if Discards(s.pty.txbuf, e.write) {
        LostIsRight(ServedSoFar(s), ServedSoFar(t), s.fifo, s.mcu.state == Active, s.period);
      } else {
        WriteSplits(s.written, s.pty.txbuf, e.write);
        assert ServedSoFar(t) == ServedSoFar(s);
      }
    } else {
      assert ServedSoFar(t) == ServedSoFar(s);
    }
  }

  lemma McuGetsKeeps(s: Path, io: Io, id: byte)
    requires Inv(s)
    ensures Inv(Step(s, McuGets(io), id))
  {
    hide ServeAll, Right;
    assert ServedSoFar(Step(s, McuGets(io), id)) == ServedSoFar(s);
  }

  lemma StepKeeps(s: Path, ev: Event, id: byte)
    requires Inv(s) && Benign(ev)
    ensures Inv(Step(s, ev, id))
  {
    hide Inv, Benign;
    match ev
    case Uart(e) => UartKeeps(s, e, id);
    case Timer(now, io) => TimerKeeps(s, now, io, id);
    case HostGets(io) =>
      if s.fifo != [] {
        HostGetsKeeps(s, io, id);
      }
    case Tty(e) => TtyKeeps(s, e, id);
    case McuGets(io) => McuGetsKeeps(s, io, id);
  }

  lemma {:induction false} ExecKeeps(s: Path, events: seq<Event>, id: byte)
    requires Inv(s) && forall i :: 0 <= i < |events| ==> Benign(events[i])
    ensures Inv(Exec(s, events, id))
    decreases |events|
  {
    hide Inv, Step, Benign;
    if events != [] {
      StepKeeps(s, events[0], id);
      ExecKeeps(Step(s, events[0], id), events[1..], id);
    }
  }

  /** The handshake has just been completed: the MCU, in whatever state it is, has announced it. */
  predicate Announced(s: Path, id: byte) {
    && s.mcu.linkUp && (!s.mcu.fd ==> s.mcu.state != Active)
    && !s.pty.open && s.pty.txbuf == [] && s.fifo == [McuStatus(id, s.mcu.state)]
    && s.period == [] && s.written == [] && s.intact
  }

  lemma AnnouncedIsInv(s: Path, id: byte)
    requires Announced(s, id)
    ensures Inv(s)
  {
    hide ServeAll;
    ServeOne(ServedSoFar(s), s.fifo[0]);
  }

  /** What the invariant means for the bytes: nothing in flight means that the PTY is open exactly when the
      MCU is active and that what it was given is the period; otherwise what is still to come only extends
      what was already given, or follows a reset. */
  predicate SerialFaithful(u: Path) {
    && (u.fifo == [] ==> u.pty.open == (u.mcu.state == Active))
    && (u.fifo == [] && u.intact ==> u.written + u.pty.txbuf == u.period)
    && (u.pty.open && u.intact && (forall i :: 0 <= i < |u.fifo| ==> u.fifo[i].ftype != F_FLUSH) ==>
          u.written + u.pty.txbuf <= u.period)
  }

  /** Serial fidelity: in every run from the announcement on, or from any later point of the session, the PTY
      is given exactly what the UART delivered since the sync byte, or since the announcement if the MCU
      was active then, for as long as no write to it fails. */
  lemma SerialFidelity(s: Path, events: seq<Event>, id: byte)
    requires Announced(s, id) || Inv(s)
    requires forall i :: 0 <= i < |events| ==> Benign(events[i])
    ensures SerialFaithful(Exec(s, events, id)) && Inv(Exec(s, events, id))
  {
    hide Exec, ServeAll, Inv, Announced, SerialFaithful;
    if Announced(s, id) {
      AnnouncedIsInv(s, id);
    }
    ExecKeeps(s, events, id);
    InvIsFaithful(Exec(s, events, id));
  }

  lemma InvIsFaithful(u: Path)
    requires Inv(u)
    ensures SerialFaithful(u)
  {
    hide ServeAll;
    ServeNothing(ServedSoFar(u));
    if u.pty.open && u.intact && forall i :: 0 <= i < |u.fifo| ==> u.fifo[i].ftype != F_FLUSH {
      ServeExtends(ServedSoFar(u), u.fifo);
    }
  }

  lemma {:induction false} ServeExtends(v: Served, q: seq<Frame>)
    requires v.open && forall i :: 0 <= i < |q| ==> q[i].ftype != F_FLUSH
    ensures v.bytes <= ServeAll(v, q).bytes && ServeAll(v, q).intact == v.intact
    decreases |q|
  {
    if q != [] {
      ServeExtends(Serve(v, q[0]), q[1..]);
    }
  }

  // ---------------------------------------------------------------- towards the MCU

  function Payloads(q: seq<Frame>): seq<byte> {
    if q == [] then [] else (if q[0].ftype == F_DATA then q[0].payload else []) + Payloads(q[1..])
  }

  lemma {:induction false} PayloadsAppend(p: seq<Frame>, q: seq<Frame>)
    ensures Payloads(p + q) == Payloads(p) + Payloads(q)
    decreases |p|
  {
    if p == [] {
      assert p + q == q;
    } else {
      assert (p + q)[0] == p[0] && (p + q)[1..] == p[1..] + q;
      PayloadsAppend(p[1..], q);
      Assoc(if p[0].ftype == F_DATA then p[0].payload else [], Payloads(p[1..]), Payloads(q));
    }
  }

  /** The bytes the UART has taken, that are buffered for it and that are in flight are those typed. */
  predicate HostFaithful(s: Path) {
    s.kept ==> s.typed == s.taken + s.mcu.txbuf + Payloads(s.back)
  }

  lemma TypedKeeps(s: Path, e: ChannelEvent, id: byte)
    requires HostFaithful(s)
    ensures HostFaithful(Step(s, Tty(e), id))
  {
    hide Payloads, AfterWrite;
    var o := PtyEvent(s.pty, id, e);
    PayloadsAppend(s.back, o.frames);
    PtySends(s.pty, id, e);
    Assoc(s.taken + s.mcu.txbuf, Payloads(s.back), Payloads(o.frames));
    assert s.typed + [] == s.typed;
  }

  /** A readiness event of an open PTY sends exactly the bytes read. */
  lemma PtySends(p: Pty, id: byte, e: ChannelEvent)
    ensures Payloads(PtyEvent(p, id, e).frames) == if p.open then Heard(e) else []
  {
    var fs := PtyEvent(p, id, e).frames;
    if fs != [] {
      assert fs[1..] == [] && fs[0].payload + [] == fs[0].payload;
    }
  }

  lemma BackGetsKeeps(s: Path, io: Io, id: byte)
    requires HostFaithful(s)
    ensures HostFaithful(Step(s, McuGets(io), id))
  {
    hide Taken, AfterWrite;
    if s.back != [] {
      var f, rest := s.back[0], Payloads(s.back[1..]);
      var buf := s.mcu.txbuf + f.payload;
      if f.ftype == F_DATA && s.mcu.fd && s.mcu.state == Active && !Discards(buf, io.write) {
        WriteSplits(s.taken, buf, io.write);
        Assoc(s.taken, s.mcu.txbuf, f.payload);
        Assoc(s.taken + s.mcu.txbuf, f.payload, rest);
      } else {
        assert [] + rest == rest;
      }
    }
  }

  lemma BackUartKeeps(s: Path, e: ChannelEvent, id: byte)
    requires HostFaithful(s)
    ensures HostFaithful(Step(s, Uart(e), id))
  {
    hide Payloads, Taken, AfterWrite, UartRead;
    var mid := AfterRead(s.mcu, e, id);
    if e.Primary? && e.writable && mid.fd && !Discards(mid.txbuf, e.write) {
      WriteSplits(s.taken, mid.txbuf, e.write);
    }
  }

  /** Host to MCU: in every run the bytes taken by the UART, buffered for it and in flight are exactly the
      bytes read from the PTY, in order, until some are discarded. */
  lemma {:induction false} HostFidelity(s: Path, events: seq<Event>, id: byte)
    requires HostFaithful(s)
    ensures HostFaithful(Exec(s, events, id))
    decreases |events|
  {
    hide Step, HostFaithful;
    if events != [] {
      match events[0] {
        case Tty(e) => TypedKeeps(s, e, id);
        case McuGets(io) => BackGetsKeeps(s, io, id);
        case Uart(e) => BackUartKeeps(s, e, id);
        case Timer(now, io) => BackTimerKeeps(s, now, io, id);
        case HostGets(io) => BackHostKeeps(s, io, id);
      }
      HostFidelity(Step(s, events[0], id), events[1..], id);
    }
  }

  lemma BackTimerKeeps(s: Path, now: int, io: Io, id: byte)
    requires HostFaithful(s)
    ensures HostFaithful(Step(s, Timer(now, io), id))
  {
  }

  lemma BackHostKeeps(s: Path, io: Io, id: byte)
    requires HostFaithful(s)
    ensures HostFaithful(Step(s, HostGets(io), id))
  {
    hide PtyOnFrame, Payloads;
  }

  /** The write that an event makes at the UART. */
  function UartWrite(ev: Event): Write {
    match ev
    case Uart(e) => if e.Primary? then e.write else WouldBlock
    case McuGets(io) => io.write
    case _ => WouldBlock
  }

  /** Nothing is discarded while the MCU stays active and its UART open and taking writes. */
  lemma KeptWhileActive(s: Path, ev: Event, id: byte)
    requires s.kept && s.mcu.state == Active && s.mcu.fd && UartWrite(ev) != WriteFailed
    requires var t := Step(s, ev, id); t.mcu.state == Active && t.mcu.fd
    ensures Step(s, ev, id).kept
  {
  }
}
