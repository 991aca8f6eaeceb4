/** The four channel types as state machines.  An operation maps a channel's state to its next state and
    the frames it enqueues for the link; what the operating system answers is an argument. */
module Channels {
  import opened Bytes
  import opened LinkFrame
  import opened TxQueue

  const KLIPPER_SYNC: byte := 0x7E
  const MAX_TCP_CONNS := 256
  const CONN_HIGH_WATER := 256 * 1024
  /** Times are milliseconds. */
  const RESET_SILENCE := 5000
  const REOPEN_DELAY := 2000
  const READ_RETRY := 1000
  /** Size of the buffer a UART or PTY is read into. */
  const READ_SIZE := 4096
  /** Size of the buffer a TCP connection is read into. */
  const TCP_READ_SIZE := 65536

  datatype McuState = Init | Active | Resetting

  datatype Conn = Conn(txbuf: seq<byte>, connecting: bool, closePending: bool)

  datatype Mcu = Mcu(
    state: McuState, fd: bool, txbuf: seq<byte>, lastRx: Option<int>, reopenAt: Option<int>,
    bpPaused: bool, linkUp: bool)

  datatype Pty = Pty(open: bool, txbuf: seq<byte>, bpPaused: bool)

  /** A missing key in `conns` is an empty slot. */
  datatype TcpSource = TcpSource(conns: map<nat, Conn>, nextSlot: nat, bpPaused: bool, linkUp: bool)

  datatype TcpDest = TcpDest(conns: map<nat, Conn>, bpPaused: bool)

  datatype Channel = McuCh(mcu: Mcu) | PtyCh(pty: Pty) | SourceCh(src: TcpSource) | DestCh(dst: TcpDest)
  {
    function BpPaused(): bool {
      match this
      case McuCh(m) => m.bpPaused
      case PtyCh(p) => p.bpPaused
      case SourceCh(s) => s.bpPaused
      case DestCh(d) => d.bpPaused
    }

    function SetPaused(b: bool): Channel {
      match this
      case McuCh(m) => McuCh(m.(bpPaused := b))
      case PtyCh(p) => PtyCh(p.(bpPaused := b))
      case SourceCh(s) => SourceCh(s.(bpPaused := b))
      case DestCh(d) => DestCh(d.(bpPaused := b))
    }
  }

  datatype Read = Data(bytes: seq<byte>) | NoData | ReadFailed(eio: bool)

  /** Answers of the system while a frame or tick is handled: the clock, whether opening a device and
      starting a connection succeed, and the result of a write. */
  datatype Io = Io(now: int, ok: bool, connects: bool, write: Write)

  /** A readiness event for one of the channel's descriptors. */
  datatype ChannelEvent =
    | Primary(readable: bool, read: Read, writable: bool, write: Write, now: int)  // UART or PTY
    | Listener(registered: seq<bool>)                      // one entry per connection to accept
    | Slot(slot: nat, readable: bool, inputs: seq<Read>, writable: bool, write: Write, connected: bool)

  /** The next state and the frames offered to the transmit queue. */
  datatype Out<+T> = Out(ch: T, frames: seq<Frame>)

  function Quiet<T>(ch: T): Out<T> {
    Out(ch, [])
  }

  /** What is left of a buffer after one write. */
  function AfterWrite(buf: seq<byte>, w: Write): seq<byte> {
    match w
    case Wrote(n) => buf[Min(n, |buf|)..]
    case WouldBlock => buf
    case WriteFailed => []
  }

  // ---------------------------------------------------------------- MCU channel (exporter)

  function McuStatus(id: byte, state: McuState): Frame {
    Frame(if state == Active then F_READY else F_FLUSH, id, [])
  }

  function McuTransition(m: Mcu, id: byte, to: McuState): Out<Mcu> {
    if to == m.state then Quiet(m)
    else
      var moved := if to == Resetting then m.(state := to, lastRx := None, txbuf := []) else m.(state := to);
      Out(moved, if m.linkUp && to != Init then [McuStatus(id, to)] else [])
  }

  /** Offset of the first Klipper sync byte, or the length when there is none. */
  function SyncOffset(data: seq<byte>): (i: nat)
    ensures i <= |data| && KLIPPER_SYNC !in data[..i]
    ensures i < |data| ==> data[i] == KLIPPER_SYNC
  {
    if data == [] || data[0] == KLIPPER_SYNC then 0 else 1 + SyncOffset(data[1..])
  }

  function UartRead(m: Mcu, id: byte, read: Read, now: int): Out<Mcu> {
    if !m.fd then Quiet(m)
    else
      match read
      case NoData => Quiet(m)
      case ReadFailed(_) =>
        var t := McuTransition(m.(fd := false), id, Resetting);
        Out(t.ch.(reopenAt := Some(now + READ_RETRY)), t.frames)
      case Data(bytes) =>
        var data := bytes[..Min(READ_SIZE, |bytes|)];
        if data == [] then Quiet(m)
        else
          var seen := m.(lastRx := Some(now));
          if m.state == Active then Out(seen, if m.linkUp then [Frame(F_DATA, id, data)] else [])
          else
            var i := SyncOffset(data);
            if i == |data| then Quiet(seen)
            else
              var t := McuTransition(seen, id, Active);
              Out(t.ch, t.frames + if m.linkUp then [Frame(F_DATA, id, data[i..])] else [])
  }

  function UartDrain(m: Mcu, w: Write): Mcu {
    if m.fd then m.(txbuf := AfterWrite(m.txbuf, w)) else m
  }

  function McuEvent(m: Mcu, id: byte, e: ChannelEvent): Out<Mcu> {
    if !e.Primary? then Quiet(m)
    else
      var r := if e.readable then UartRead(m, id, e.read, e.now) else Quiet(m);
      Out(if e.writable then UartDrain(r.ch, e.write) else r.ch, r.frames)
  }

  function McuOnFrame(m: Mcu, f: Frame, io: Io): Mcu {
    if f.ftype == F_DATA && m.fd && m.state == Active then
      UartDrain(m.(txbuf := m.txbuf + f.payload), io.write)
    else m
  }

  function McuTick(m: Mcu, id: byte, now: int, io: Io): Out<Mcu> {
    if !m.fd then
      if m.reopenAt.Some? && now >= m.reopenAt.value then
        Quiet(if io.ok then m.(fd := true, reopenAt := None) else m.(reopenAt := Some(io.now + REOPEN_DELAY)))
      else Quiet(m)
    else if m.state == Active && m.lastRx.Some? && now - m.lastRx.value > RESET_SILENCE then
      McuTransition(m, id, Resetting)
    else Quiet(m)
  }

  function McuDeadline(m: Mcu): Option<int> {
    if !m.fd then m.reopenAt
    else if m.state == Active && m.lastRx.Some? then Some(m.lastRx.value + RESET_SILENCE)
    else None
  }

  // ---------------------------------------------------------------- PTY channel (host)

  function ClosePty(p: Pty): Pty {
    p.(open := false, txbuf := [])
  }

  function PtyOnFrame(p: Pty, f: Frame, io: Io): Pty {
    if f.ftype == F_FLUSH then ClosePty(p)
    else if f.ftype == F_READY then p.(open := p.open || io.ok)
    else if f.ftype == F_DATA && p.open then p.(txbuf := AfterWrite(p.txbuf + f.payload, io.write))
    else p
  }

  function PtyEvent(p: Pty, id: byte, e: ChannelEvent): Out<Pty> {
    if !e.Primary? || (e.readable && !p.open) then Quiet(p)
    else
      var data := if e.readable && e.read.Data? then e.read.bytes[..Min(READ_SIZE, |e.read.bytes|)] else [];
      var after := if e.readable && e.read == ReadFailed(true) then ClosePty(p) else p;
      Out(if e.writable && after.open then after.(txbuf := AfterWrite(after.txbuf, e.write)) else after,
          if data == [] then [] else [Frame(F_DATA, id, data)])
  }

  // ---------------------------------------------------------------- TCP connection slots

  function CloseFrame(id: byte, slot: nat): Frame
    requires slot < MAX_TCP_CONNS
  {
    Frame(F_TCLOSE, id, Pack16(slot))
  }

  function CloseFrames(id: byte, slot: nat, notify: bool): seq<Frame>
    requires slot < MAX_TCP_CONNS
  {
    if notify then [CloseFrame(id, slot)] else []
  }

  /** Bytes read from a connection, cut into data frames that leave room for the connection id. */
  function ChunkFrames(id: byte, slot: nat, data: seq<byte>): seq<Frame>
    requires slot < MAX_TCP_CONNS
    decreases |data|
  {
    if data == [] then []
    else
      var end := Min(MAX_PAYLOAD - 2, |data|);
      [Frame(F_TDATA, id, Pack16(slot) + data[..end])] + ChunkFrames(id, slot, data[end..])
  }

  /** Read until the socket would block; the flag says that end of file or an error was met. */
  function ReadConn(id: byte, slot: nat, inputs: seq<Read>): (seq<Frame>, bool)
    requires slot < MAX_TCP_CONNS
    decreases |inputs|
  {
    if inputs == [] || inputs[0] == NoData then ([], false)
    else if inputs[0].ReadFailed? || inputs[0].bytes == [] then ([], true)
    else
      var (frames, eof) := ReadConn(id, slot, inputs[1..]);
      (ChunkFrames(id, slot, inputs[0].bytes) + frames, eof)
  }

  /** Read the slot; end of file closes it, telling the peer if `notify`. */
  function ReadSlot(conns: map<nat, Conn>, notify: bool, id: byte, slot: nat, inputs: seq<Read>): Out<map<nat, Conn>>
    requires slot < MAX_TCP_CONNS
  {
    var (frames, eof) := ReadConn(id, slot, inputs);
    Out(if eof then conns - {slot} else conns, frames + CloseFrames(id, slot, eof && notify))
  }

  /** One write of the slot's buffer.  A slot waiting to close goes once its buffer is empty. */
  function WriteSlot(conns: map<nat, Conn>, notify: bool, id: byte, slot: nat, w: Write): Out<map<nat, Conn>>
    requires slot in conns && slot < MAX_TCP_CONNS
  {
    var c := conns[slot];
    var wants := c.txbuf != [] && !c.connecting;
    if wants && w == WriteFailed then Out(conns - {slot}, CloseFrames(id, slot, notify))
    else
      var left := if wants then AfterWrite(c.txbuf, w) else c.txbuf;
      Quiet(if left == [] && c.closePending then conns - {slot} else conns[slot := c.(txbuf := left)])
  }

  /** `unpack_cid`, restricted to slots that exist. */
  function CidOf(payload: seq<byte>): Option<nat> {
    if |payload| < 2 || Unpack16(payload[0], payload[1]) >= MAX_TCP_CONNS then None
    else Some(Unpack16(payload[0], payload[1]))
  }

  /** Data and close frames for a slot. */
  function SlotOnFrame(conns: map<nat, Conn>, notify: bool, id: byte, f: Frame): Out<map<nat, Conn>> {
    if CidOf(f.payload).None? || CidOf(f.payload).value !in conns then Quiet(conns)
    else
      var slot, data := CidOf(f.payload).value, f.payload[2..];
      var c := conns[slot];
      if f.ftype == F_TDATA && data != [] then
        if |c.txbuf| > CONN_HIGH_WATER || |data| > CONN_HIGH_WATER + MAX_PAYLOAD - |c.txbuf| then
          Out(conns - {slot}, CloseFrames(id, slot, notify))
        else Quiet(conns[slot := c.(txbuf := c.txbuf + data)])
      else if f.ftype == F_TCLOSE then
        Quiet(if c.txbuf == [] then conns - {slot} else conns[slot := c.(closePending := true)])
      else Quiet(conns)
  }

  // ---------------------------------------------------------------- TCP source channel (exporter)

  /** Round-robin search for a free slot: the slot, if any, and the advanced cursor. */
  function AllocSlot(conns: map<nat, Conn>, next: nat, tries: nat): (r: (Option<nat>, nat))
    ensures r.0.Some? ==> r.0.value < MAX_TCP_CONNS && r.0.value !in conns
    decreases tries
  {
    if tries == 0 then (None, next)
    else if next % MAX_TCP_CONNS !in conns then (Some(next % MAX_TCP_CONNS), next + 1)
    else AllocSlot(conns, next + 1, tries - 1)
  }

  /** The slot `i` places after the cursor. */
  function SlotAfter(next: nat, i: nat): nat {
    (next + i) % MAX_TCP_CONNS
  }

  /** An allocated slot is the first free one from the cursor on, round the pool, and the cursor moves just
      past it; without one the cursor has gone past everything that was tried. */
  lemma {:induction false} AllocFindsNext(conns: map<nat, Conn>, next: nat, tries: nat) returns (k: nat)
    ensures var (slot, cursor) := AllocSlot(conns, next, tries);
            && (slot.Some? ==> k < tries && slot.value == SlotAfter(next, k) && cursor == next + k + 1)
            && (slot.None? ==> k == tries && cursor == next + tries)
            && forall i: nat :: i < k ==> SlotAfter(next, i) in conns
    decreases tries
  {
    k := 0;
    if tries > 0 && next % MAX_TCP_CONNS in conns {
      k := AllocFindsNext(conns, next + 1, tries - 1);
      forall i: nat | i < k + 1 ensures SlotAfter(next, i) in conns {
        if i > 0 {
          assert SlotAfter(next + 1, i - 1) in conns;
        }
      }
      k := k + 1;
    }
  }

  lemma CursorReaches(next: nat, slot: nat) returns (k: nat)
    requires slot < MAX_TCP_CONNS
    ensures k < MAX_TCP_CONNS && SlotAfter(next, k) == slot
  {
    var q, at := next / MAX_TCP_CONNS, next % MAX_TCP_CONNS;
    k := if at <= slot then slot - at else slot + MAX_TCP_CONNS - at;
    assert next + k == MAX_TCP_CONNS * (if at <= slot then q else q + 1) + slot;
  }

  /** A connection is refused a slot only when every slot is taken. */
  lemma RefusedOnlyWhenFull(conns: map<nat, Conn>, next: nat, tries: nat, slot: nat)
    requires AllocSlot(conns, next, tries).0.None? && slot < MAX_TCP_CONNS == tries
    ensures slot in conns
  {
    hide SlotAfter;
    var k := CursorReaches(next, slot);
    var tried := AllocFindsNext(conns, next, tries);
    assert SlotAfter(next, k) in conns;
  }

  /** `accept`: every pending connection gets a slot and is announced, or is dropped. */
  function Accept(s: TcpSource, id: byte, registered: seq<bool>): Out<TcpSource>
    decreases |registered|
  {
    if registered == [] then Quiet(s)
    else if !s.linkUp then Accept(s, id, registered[1..])
    else
      var (slot, next) := AllocSlot(s.conns, s.nextSlot, MAX_TCP_CONNS);
      if slot.None? || !registered[0] then Accept(s.(nextSlot := next), id, registered[1..])
      else
        var taken := s.(nextSlot := next, conns := s.conns[slot.value := Conn([], false, false)]);
        var more := Accept(taken, id, registered[1..]);
        Out(more.ch, [Frame(F_TCONN, id, Pack16(slot.value))] + more.frames)
  }

  /** `tcp_event` of the source side: read, then write. */
  function SourceSlotEvent(conns: map<nat, Conn>, notify: bool, id: byte, e: ChannelEvent): Out<map<nat, Conn>>
    requires e.Slot?
  {
    if e.slot !in conns || e.slot >= MAX_TCP_CONNS then Quiet(conns)
    else
      var r := if e.readable && !conns[e.slot].closePending then ReadSlot(conns, notify, id, e.slot, e.inputs)
               else Quiet(conns);
      if !e.writable || e.slot !in r.ch then r
      else
        var w := WriteSlot(r.ch, notify, id, e.slot, e.write);
        Out(w.ch, r.frames + w.frames)
  }

  function SourceEvent(s: TcpSource, id: byte, e: ChannelEvent): Out<TcpSource> {
    match e
    case Listener(registered) => Accept(s, id, registered)
    case Slot(_, _, _, _, _, _) =>
      var o := SourceSlotEvent(s.conns, s.linkUp, id, e);
      Out(s.(conns := o.ch), o.frames)
    case Primary(_, _, _, _, _) => Quiet(s)
  }

  // ---------------------------------------------------------------- TCP destination channel (host)

  /** `tcp_event` of the destination side: finish connecting, write, then read. */
  function DestSlotEvent(conns: map<nat, Conn>, id: byte, e: ChannelEvent): Out<map<nat, Conn>>
    requires e.Slot?
  {
    if e.slot !in conns || e.slot >= MAX_TCP_CONNS then Quiet(conns)
    else
      var c := conns[e.slot];
      if c.connecting && e.writable && !e.connected then Out(conns - {e.slot}, [CloseFrame(id, e.slot)])
      else
        var joined := if e.writable then conns[e.slot := c.(connecting := false)] else conns;
        var w := if e.writable then WriteSlot(joined, true, id, e.slot, e.write) else Quiet(joined);
        if e.slot !in w.ch || !e.readable || w.ch[e.slot].connecting || w.ch[e.slot].closePending then w
        else
          var r := ReadSlot(w.ch, true, id, e.slot, e.inputs);
          Out(r.ch, w.frames + r.frames)
  }

  function DestOnFrame(conns: map<nat, Conn>, id: byte, f: Frame, io: Io): Out<map<nat, Conn>> {
    if f.ftype == F_TCONN && CidOf(f.payload).Some? then
      var slot := CidOf(f.payload).value;
      if slot in conns then Quiet(conns)
      else if io.connects then Quiet(conns[slot := Conn([], true, false)])
      else Out(conns, [CloseFrame(id, slot)])
    else SlotOnFrame(conns, true, id, f)
  }

  // ---------------------------------------------------------------- the channel interface

  function OnFrame(ch: Channel, id: byte, f: Frame, io: Io): Out<Channel> {
    match ch
    case McuCh(m) => Quiet(McuCh(McuOnFrame(m, f, io)))
    case PtyCh(p) => Quiet(PtyCh(PtyOnFrame(p, f, io)))
    case SourceCh(s) =>
      var o := SlotOnFrame(s.conns, s.linkUp, id, f);
      Out(SourceCh(s.(conns := o.ch)), o.frames)
    case DestCh(d) =>
      var o := DestOnFrame(d.conns, id, f, io);
      Out(DestCh(d.(conns := o.ch)), o.frames)
  }

  function OnLinkConnect(ch: Channel, id: byte): Out<Channel> {
    match ch
    case McuCh(m) => Out(McuCh(m.(linkUp := true)), [McuStatus(id, m.state)])
    case PtyCh(p) => Quiet(PtyCh(ClosePty(p)))
    case SourceCh(s) => Quiet(SourceCh(s.(linkUp := true)))
    case DestCh(d) => Quiet(DestCh(d.(conns := map[])))
  }

  function OnLinkDisconnect(ch: Channel): Channel {
    match ch
    case McuCh(m) => McuCh(m.(linkUp := false, txbuf := []))
    case PtyCh(p) => PtyCh(ClosePty(p))
    case SourceCh(s) => SourceCh(s.(linkUp := false, conns := map[]))
    case DestCh(d) => DestCh(d.(conns := map[]))
  }

  function Tick(ch: Channel, id: byte, now: int, io: Io): Out<Channel> {
    if ch.McuCh? then
      var o := McuTick(ch.mcu, id, now, io);
      Out(McuCh(o.ch), o.frames)
    else Quiet(ch)
  }

  function NextDeadline(ch: Channel): Option<int> {
    if ch.McuCh? then McuDeadline(ch.mcu) else None
  }

  function HandleEvent(ch: Channel, id: byte, e: ChannelEvent): Out<Channel> {
    match ch
    case McuCh(m) =>
      var o := McuEvent(m, id, e);
      Out(McuCh(o.ch), o.frames)
    case PtyCh(p) =>
      var o := PtyEvent(p, id, e);
      Out(PtyCh(o.ch), o.frames)
    case SourceCh(s) =>
      var o := SourceEvent(s, id, e);
      Out(SourceCh(o.ch), o.frames)
    case DestCh(d) =>
      if e.Slot? then
        var o := DestSlotEvent(d.conns, id, e);
        Out(DestCh(d.(conns := o.ch)), o.frames)
      else Quiet(ch)
  }
}
