/** The channels as objects that update their fields in place.  The daemon object owns them; every
    operation moves the object's state as the corresponding function of `Channels` says. */
module ChannelObjects {
  import opened Bytes
  import opened LinkFrame
  import opened TxQueue
  import opened Channels

  // ---------------------------------------------------------------- loops shared by the TCP channels

  /** Cut what was read into data frames. */
  method Chunk(id: byte, slot: nat, data: seq<byte>) returns (frames: seq<Frame>)
    requires slot < MAX_TCP_CONNS
    ensures frames == ChunkFrames(id, slot, data)
  {
    hide ChunkFrames;
    frames := [];
    var off := 0;
    assert data[0..] == data;
    while off < |data|
      invariant 0 <= off <= |data|
      invariant frames + ChunkFrames(id, slot, data[off..]) == ChunkFrames(id, slot, data)
    {
      var end := Min(off + MAX_PAYLOAD - 2, |data|);
      var frame := Frame(F_TDATA, id, Pack16(slot) + data[off..end]);
      FirstChunk(id, slot, data, off);
      Assoc(frames, [frame], ChunkFrames(id, slot, data[end..]));
      frames := frames + [frame];
      off := end;
    }
    assert data[off..] == [];
    NoChunks(id, slot);
  }

  lemma FirstChunk(id: byte, slot: nat, data: seq<byte>, off: nat)
    requires slot < MAX_TCP_CONNS && off < |data|
    ensures var end := Min(off + MAX_PAYLOAD - 2, |data|);
            ChunkFrames(id, slot, data[off..]) ==
            [Frame(F_TDATA, id, Pack16(slot) + data[off..end])] + ChunkFrames(id, slot, data[end..])
  {
    hide Pack16;
    var end := Min(off + MAX_PAYLOAD - 2, |data|);
    assert data[off..][..end - off] == data[off..end] && data[off..][end - off..] == data[end..];
  }

  lemma NoChunks(id: byte, slot: nat)
    requires slot < MAX_TCP_CONNS
    ensures ChunkFrames(id, slot, []) == []
  {
  }

  /** Read a connection until it would block or ends. */
  method ReadLoop(id: byte, slot: nat, inputs: seq<Read>) returns (frames: seq<Frame>, eof: bool)
    requires slot < MAX_TCP_CONNS
    ensures frames == ReadConn(id, slot, inputs).0 && eof == ReadConn(id, slot, inputs).1
  {
    frames, eof := [], false;
    var i := 0;
    assert inputs[0..] == inputs;
    while i < |inputs|
      invariant 0 <= i <= |inputs|
      invariant frames + ReadConn(id, slot, inputs[i..]).0 == ReadConn(id, slot, inputs).0
      invariant ReadConn(id, slot, inputs[i..]).1 == ReadConn(id, slot, inputs).1 && !eof
    {
      if inputs[i] == NoData {
        return;
      }
      if inputs[i].ReadFailed? || inputs[i].bytes == [] {
        eof := true;
        return;
      }
      var more := Chunk(id, slot, inputs[i].bytes);
      assert inputs[i..][1..] == inputs[i + 1..];
      ghost var rest := ReadConn(id, slot, inputs[i + 1..]).0;
      Assoc(frames, more, rest);
      frames := frames + more;
      i := i + 1;
    }
    assert inputs[i..] == [];
  }

  /** `alloc_slot`. */
  method FindSlot(conns: map<nat, Conn>, start: nat) returns (slot: Option<nat>, next: nat)
    ensures (slot, next) == AllocSlot(conns, start, MAX_TCP_CONNS)
  {
    next := start;
    var tries := MAX_TCP_CONNS;
    while tries > 0
      invariant 0 <= tries
      invariant AllocSlot(conns, next, tries) == AllocSlot(conns, start, MAX_TCP_CONNS)
    {
      var s := next % MAX_TCP_CONNS;
      next := next + 1;
      if s !in conns {
        return Some(s), next;
      }
      tries := tries - 1;
    }
    return None, next;
  }

  // ---------------------------------------------------------------- McuChannel

  class McuChannel {
    const id: byte
    var state: McuState
    var fd: bool
    var txbuf: seq<byte>
    var lastRx: Option<int>
    var reopenAt: Option<int>
    var bpPaused: bool
    var linkUp: bool

    function Abs(): Mcu
      reads this
    {
      Mcu(state, fd, txbuf, lastRx, reopenAt, bpPaused, linkUp)
    }

    /** The UART is opened at once; on failure another attempt is scheduled. */
    constructor (id: byte, ok: bool, now: int)
      ensures this.id == id
      ensures Abs() == Mcu(Init, ok, [], None, if ok then None else Some(now + REOPEN_DELAY), false, false)
    {
      this.id := id;
      state, fd, txbuf, lastRx := Init, ok, [], None;
      reopenAt := if ok then None else Some(now + REOPEN_DELAY);
      bpPaused, linkUp := false, false;
    }

    method Transition(to: McuState) returns (frames: seq<Frame>)
      modifies this`state, this`lastRx, this`txbuf
      ensures Out(Abs(), frames) == McuTransition(old(Abs()), id, to)
    {
      frames := [];
      if to == state {
        return;
      }
      state := to;
      if to == Resetting {
        lastRx, txbuf := None, [];
        if linkUp {
          frames := [Frame(F_FLUSH, id, [])];
        }
      } else if to == Active {
        if linkUp {
          frames := [Frame(F_READY, id, [])];
        }
      }
    }

    method Read(read: Read, now: int) returns (frames: seq<Frame>)
      modifies this
      ensures Out(Abs(), frames) == UartRead(old(Abs()), id, read, now)
    {
      frames := [];
      if !fd {
        return;
      }
      match read
      case NoData =>
      case ReadFailed(_) =>
        fd := false;
        frames := Transition(Resetting);
        reopenAt := Some(now + READ_RETRY);
      case Data(bytes) =>
        var data := bytes[..Min(READ_SIZE, |bytes|)];
        if data == [] {
          return;
        }
        lastRx := Some(now);
        if state == Active {
          if linkUp {
            frames := [Frame(F_DATA, id, data)];
          }
        } else {
          var i := FindSync(data);
          if i < |data| {
            frames := Transition(Active);
            if linkUp {
              frames := frames + [Frame(F_DATA, id, data[i..])];
            }
          }
        }
    }

    /** Position of the first sync byte. */
    method FindSync(data: seq<byte>) returns (i: nat)
      ensures i == SyncOffset(data)
    {
      i := 0;
      assert data[0..] == data;
      while i < |data| && data[i] != KLIPPER_SYNC
        invariant i <= |data| && SyncOffset(data) == i + SyncOffset(data[i..])
      {
        assert data[i..][1..] == data[i + 1..];
        i := i + 1;
      }
    }

    method Drain(w: Write)
      modifies this`txbuf
      ensures Abs() == UartDrain(old(Abs()), w)
    {
      if !fd || txbuf == [] {
        return;
      }
      match w
      case Wrote(n) => txbuf := txbuf[Min(n, |txbuf|)..];
      case WouldBlock =>
      case WriteFailed => txbuf := [];
    }

    method OnFrame(f: Frame, io: Io)
      modifies this`txbuf
      ensures Abs() == McuOnFrame(old(Abs()), f, io)
    {
      if f.ftype == F_DATA {
        if !fd || state != Active {
          return;
        }
        txbuf := txbuf + f.payload;
        Drain(io.write);
      }
    }

    method OnLinkConnect() returns (frames: seq<Frame>)
      modifies this`linkUp
      ensures Out(McuCh(Abs()), frames) == Channels.OnLinkConnect(McuCh(old(Abs())), id)
    {
      linkUp := true;
      frames := [Frame(if state == Active then F_READY else F_FLUSH, id, [])];
    }

    method OnLinkDisconnect()
      modifies this`linkUp, this`txbuf
      ensures McuCh(Abs()) == Channels.OnLinkDisconnect(McuCh(old(Abs())))
    {
      linkUp, txbuf := false, [];
    }

    method Tick(now: int, io: Io) returns (frames: seq<Frame>)
      modifies this
      ensures Out(Abs(), frames) == McuTick(old(Abs()), id, now, io)
    {
      frames := [];
      if !fd {
        if reopenAt.Some? && now >= reopenAt.value {
          reopenAt := None;
          if io.ok {
            fd := true;
          } else {
            reopenAt := Some(io.now + REOPEN_DELAY);
          }
        }
        return;
      }
      if state == Active && lastRx.Some? && now - lastRx.value > RESET_SILENCE {
        frames := Transition(Resetting);
      }
    }

    method HandleEvent(e: ChannelEvent) returns (frames: seq<Frame>)
      modifies this
      ensures Out(Abs(), frames) == McuEvent(old(Abs()), id, e)
    {
      frames := [];
      if !e.Primary? {
        return;
      }
      if e.readable {
        frames := Read(e.read, e.now);
      }
      if e.writable {
        Drain(e.write);
      }
    }
  }

  // ---------------------------------------------------------------- PtyChannel

  class PtyChannel {
    const id: byte
    var open: bool
    var txbuf: seq<byte>
    var bpPaused: bool

    function Abs(): Pty
      reads this
    {
      Pty(open, txbuf, bpPaused)
    }

    constructor (id: byte)
      ensures this.id == id && Abs() == Pty(false, [], false)
    {
      this.id := id;
      open, txbuf, bpPaused := false, [], false;
    }

    method Close()
      modifies this`open, this`txbuf
      ensures Abs() == ClosePty(old(Abs()))
    {
      open, txbuf := false, [];
    }

    method Drain(w: Write)
      modifies this`txbuf
      ensures Abs() == if old(open) then old(Abs()).(txbuf := AfterWrite(old(txbuf), w)) else old(Abs())
    {
      if !open || txbuf == [] {
        return;
      }
      match w
      case Wrote(n) => txbuf := txbuf[Min(n, |txbuf|)..];
      case WouldBlock =>
      case WriteFailed => txbuf := [];
    }

    method OnFrame(f: Frame, io: Io)
      modifies this`open, this`txbuf
      ensures Abs() == PtyOnFrame(old(Abs()), f, io)
    {
      if f.ftype == F_FLUSH {
        Close();
      } else if f.ftype == F_READY {
        if !open && io.ok {
          open := true;
        }
      } else if f.ftype == F_DATA && open {
        txbuf := txbuf + f.payload;
        Drain(io.write);
      }
    }

    method HandleEvent(e: ChannelEvent) returns (frames: seq<Frame>)
      modifies this`open, this`txbuf
      ensures Out(Abs(), frames) == PtyEvent(old(Abs()), id, e)
    {
      frames := [];
      if !e.Primary? {
        return;
      }
      if e.readable {
        if !open {
          return;
        }
        match e.read
        case Data(bytes) =>
          var data := bytes[..Min(READ_SIZE, |bytes|)];
          if data != [] {
            frames := [Frame(F_DATA, id, data)];
          }
        case ReadFailed(eio) =>
          if eio {
            Close();
          }
        case NoData =>
      }
      if e.writable {
        Drain(e.write);
      }
    }
  }

  // ---------------------------------------------------------------- TcpSourceChannel

  class TcpSourceChannel {
    const id: byte
    var conns: map<nat, Conn>
    var nextSlot: nat
    var bpPaused: bool
    var linkUp: bool

    function Abs(): TcpSource
      reads this
    {
      TcpSource(conns, nextSlot, bpPaused, linkUp)
    }

    constructor (id: byte)
      ensures this.id == id && Abs() == TcpSource(map[], 0, false, false)
    {
      this.id := id;
      conns, nextSlot, bpPaused, linkUp := map[], 0, false, false;
    }

    /** Accept until the listener would block. */
    method AcceptAll(registered: seq<bool>) returns (frames: seq<Frame>)
      modifies this`conns, this`nextSlot
      ensures Out(Abs(), frames) == Accept(old(Abs()), id, registered)
    {
      frames := [];
      ghost var start := Abs();
      var i := 0;
      assert registered[0..] == registered;
      while i < |registered|
        invariant 0 <= i <= |registered| && linkUp == old(linkUp) && bpPaused == old(bpPaused)
        invariant var o := Accept(Abs(), id, registered[i..]);
                  Out(o.ch, frames + o.frames) == Accept(start, id, registered)
      {
        assert registered[i..][1..] == registered[i + 1..];
        if linkUp {
          var slot, next := FindSlot(conns, nextSlot);
          nextSlot := next;
          if slot.Some? && registered[i] {
            conns := conns[slot.value := Conn([], false, false)];
            var announce := [Frame(F_TCONN, id, Pack16(slot.value))];
            ghost var later := Accept(Abs(), id, registered[i + 1..]).frames;
            assert frames + (announce + later) == frames + announce + later;
            frames := frames + announce;
          }
        }
        i := i + 1;
      }
      assert registered[i..] == [];
    }

    /** `close_slot`. */
    method CloseSlot(slot: nat, notify: bool) returns (frames: seq<Frame>)
      requires slot < MAX_TCP_CONNS && slot in conns
      modifies this`conns
      ensures conns == old(conns) - {slot} && frames == CloseFrames(id, slot, notify && linkUp)
    {
      conns := conns - {slot};
      frames := [];
      if notify && linkUp {
        frames := [Frame(F_TCLOSE, id, Pack16(slot))];
      }
    }

    method SlotEvent(e: ChannelEvent) returns (frames: seq<Frame>)
      requires e.Slot?
      modifies this`conns
      ensures Out(conns, frames) == SourceSlotEvent(old(conns), linkUp, id, e)
    {
      frames := [];
      var slot := e.slot;
      if slot !in conns || slot >= MAX_TCP_CONNS {
        return;
      }
      if e.readable && !conns[slot].closePending {
        var fs, eof := ReadLoop(id, slot, e.inputs);
        frames := fs;
        if eof {
          var close := CloseSlot(slot, true);
          frames := frames + close;
          return;
        }
        assert frames == frames + [];
      }
      if e.writable {
        var c := conns[slot];
        if c.txbuf != [] && !c.connecting {
          if e.write == WriteFailed {
            var close := CloseSlot(slot, true);
            frames := frames + close;
            return;
          }
          c := c.(txbuf := AfterWrite(c.txbuf, e.write));
          conns := conns[slot := c];
        }
        assert conns == old(conns)[slot := c];
        if c.txbuf == [] && c.closePending {
          var close := CloseSlot(slot, false);
          assert conns == old(conns) - {slot};
        }
        assert frames == frames + [];
      }
    }

    method OnFrame(f: Frame) returns (frames: seq<Frame>)
      modifies this`conns
      ensures Out(conns, frames) == SlotOnFrame(old(conns), linkUp, id, f)
    {
      frames := [];
      var cid := CidOf(f.payload);
      if cid.None? || cid.value !in conns {
        return;
      }
      var slot, data, c := cid.value, f.payload[2..], conns[cid.value];
      if f.ftype == F_TDATA && data != [] {
        if |c.txbuf| > CONN_HIGH_WATER || |data| > CONN_HIGH_WATER + MAX_PAYLOAD - |c.txbuf| {
          frames := CloseSlot(slot, true);
        } else {
          conns := conns[slot := c.(txbuf := c.txbuf + data)];
        }
      } else if f.ftype == F_TCLOSE {
        if c.txbuf == [] {
          frames := CloseSlot(slot, false);
        } else {
          conns := conns[slot := c.(closePending := true)];
        }
      }
    }

    method HandleEvent(e: ChannelEvent) returns (frames: seq<Frame>)
      modifies this`conns, this`nextSlot
      ensures Out(Abs(), frames) == SourceEvent(old(Abs()), id, e)
    {
      frames := [];
      match e
      case Listener(registered) => frames := AcceptAll(registered);
      case Slot(_, _, _, _, _, _) => frames := SlotEvent(e);
      case Primary(_, _, _, _, _) =>
    }

    method OnLinkDisconnect()
      modifies this`linkUp, this`conns
      ensures SourceCh(Abs()) == Channels.OnLinkDisconnect(SourceCh(old(Abs())))
    {
      linkUp := false;
      conns := map[];
    }
  }

  // ---------------------------------------------------------------- TcpDestChannel

  class TcpDestChannel {
    const id: byte
    var conns: map<nat, Conn>
    var bpPaused: bool

    function Abs(): TcpDest
      reads this
    {
      TcpDest(conns, bpPaused)
    }

    constructor (id: byte)
      ensures this.id == id && Abs() == TcpDest(map[], false)
    {
      this.id := id;
      conns, bpPaused := map[], false;
    }

    method CloseSlot(slot: nat, notify: bool) returns (frames: seq<Frame>)
      requires slot < MAX_TCP_CONNS && slot in conns
      modifies this`conns
      ensures conns == old(conns) - {slot} && frames == CloseFrames(id, slot, notify)
    {
      conns := conns - {slot};
      frames := [];
      if notify {
        frames := [Frame(F_TCLOSE, id, Pack16(slot))];
      }
    }

    /** The writable half of `tcp_event`; `done` when the slot was closed. */
    method Write(slot: nat, write: Write) returns (frames: seq<Frame>, done: bool)
      requires slot < MAX_TCP_CONNS && slot in conns
      modifies this`conns
      ensures Out(conns, frames) == WriteSlot(old(conns), true, id, slot, write)
      ensures done <==> slot !in conns
    {
      frames, done := [], false;
      var c := conns[slot];
      if !c.connecting && c.txbuf != [] {
        if write == WriteFailed {
          frames := CloseSlot(slot, true);
          return frames, true;
        }
        c := c.(txbuf := AfterWrite(c.txbuf, write));
        conns := conns[slot := c];
      }
      assert conns == old(conns)[slot := c];
      if c.txbuf == [] && c.closePending {
        frames := CloseSlot(slot, false);
        done := true;
        assert conns == old(conns) - {slot};
      }
    }

    method SlotEvent(e: ChannelEvent) returns (frames: seq<Frame>)
      requires e.Slot?
      modifies this`conns
      ensures Out(conns, frames) == DestSlotEvent(old(conns), id, e)
    {
      hide WriteSlot;
      frames := [];
      var slot := e.slot;
      if slot !in conns || slot >= MAX_TCP_CONNS {
        return;
      }
      if conns[slot].connecting && e.writable && !e.connected {
        frames := CloseSlot(slot, true);
        return;
      }
      if e.writable {
        conns := conns[slot := conns[slot].(connecting := false)];
        var done;
        frames, done := Write(slot, e.write);
        if done {
          return;
        }
      }
      if e.readable && !conns[slot].connecting && !conns[slot].closePending {
        var fs, eof := ReadLoop(id, slot, e.inputs);
        var close := [];
        if eof {
          close := CloseSlot(slot, true);
        }
        assert frames + (fs + close) == frames + fs + close;
        frames := frames + fs + close;
      }
    }

    method OnFrame(f: Frame, io: Io) returns (frames: seq<Frame>)
      modifies this`conns
      ensures Out(conns, frames) == DestOnFrame(old(conns), id, f, io)
    {
      frames := [];
      var cid := CidOf(f.payload);
      if cid.None? {
        return;
      }
      var slot, data := cid.value, f.payload[2..];
      if f.ftype == F_TCONN {
        if slot !in conns {
          if io.connects {
            conns := conns[slot := Conn([], true, false)];
          } else {
            frames := [Frame(F_TCLOSE, id, Pack16(slot))];
          }
        }
      } else if slot in conns {
        var c := conns[slot];
        if f.ftype == F_TDATA && data != [] {
          if |c.txbuf| > CONN_HIGH_WATER || |data| > CONN_HIGH_WATER + MAX_PAYLOAD - |c.txbuf| {
            frames := CloseSlot(slot, true);
          } else {
            conns := conns[slot := c.(txbuf := c.txbuf + data)];
          }
        } else if f.ftype == F_TCLOSE {
          if c.txbuf == [] {
            frames := CloseSlot(slot, false);
          } else {
            conns := conns[slot := c.(closePending := true)];
          }
        }
      }
    }
  }
  // ---------------------------------------------------------------- any channel

  /** A reference to a channel of some kind, with the operations that every channel has. */
  datatype ChannelObject =
    | McuObject(mcu: McuChannel)
    | PtyObject(pty: PtyChannel)
    | SourceObject(src: TcpSourceChannel)
    | DestObject(dst: TcpDestChannel)
  {
    function Ref(): object {
      match this
      case McuObject(m) => m
      case PtyObject(p) => p
      case SourceObject(s) => s
      case DestObject(d) => d
    }

    function Id(): byte {
      match this
      case McuObject(m) => m.id
      case PtyObject(p) => p.id
      case SourceObject(s) => s.id
      case DestObject(d) => d.id
    }

    function Abs(): Channel
      reads Ref()
    {
      match this
      case McuObject(m) => McuCh(m.Abs())
      case PtyObject(p) => PtyCh(p.Abs())
      case SourceObject(s) => SourceCh(s.Abs())
      case DestObject(d) => DestCh(d.Abs())
    }

    method OnFrame(f: Frame, io: Io) returns (frames: seq<Frame>)
      modifies Ref()
      ensures Out(Abs(), frames) == Channels.OnFrame(old(Abs()), Id(), f, io)
    {
      hide McuOnFrame, PtyOnFrame, SlotOnFrame, DestOnFrame;
      frames := [];
      match this
      case McuObject(m) => m.OnFrame(f, io);
      case PtyObject(p) => p.OnFrame(f, io);
      case SourceObject(s) => frames := s.OnFrame(f);
      case DestObject(d) => frames := d.OnFrame(f, io);
    }

    method OnLinkConnect() returns (frames: seq<Frame>)
      modifies Ref()
      ensures Out(Abs(), frames) == Channels.OnLinkConnect(old(Abs()), Id())
    {
      frames := [];
      match this
      case McuObject(m) => frames := m.OnLinkConnect();
      case PtyObject(p) => p.Close();
      case SourceObject(s) => s.linkUp := true;
      case DestObject(d) => d.conns := map[];
    }

    method OnLinkDisconnect()
      modifies Ref()
      ensures Abs() == Channels.OnLinkDisconnect(old(Abs()))
    {
      match this
      case McuObject(m) => m.OnLinkDisconnect();
      case PtyObject(p) => p.Close();
      case SourceObject(s) => s.OnLinkDisconnect();
      case DestObject(d) => d.conns := map[];
    }

    method Tick(now: int, io: Io) returns (frames: seq<Frame>)
      modifies Ref()
      ensures Out(Abs(), frames) == Channels.Tick(old(Abs()), Id(), now, io)
    {
      hide McuTick;
      frames := [];
      if this.McuObject? {
        frames := mcu.Tick(now, io);
      }
    }

    method HandleEvent(e: ChannelEvent) returns (frames: seq<Frame>)
      modifies Ref()
      ensures Out(Abs(), frames) == Channels.HandleEvent(old(Abs()), Id(), e)
    {
      hide McuEvent, PtyEvent, SourceEvent, DestSlotEvent;
      frames := [];
      match this
      case McuObject(m) => frames := m.HandleEvent(e);
      case PtyObject(p) => frames := p.HandleEvent(e);
      case SourceObject(s) => frames := s.HandleEvent(e);
      case DestObject(d) =>
        if e.Slot? {
          frames := d.SlotEvent(e);
        }
    }

    /** `bp_pause` and `bp_resume`. */
    method SetPaused(b: bool)
      modifies Ref()
      ensures Abs() == old(Abs()).SetPaused(b)
    {
      match this
      case McuObject(m) => m.bpPaused := b;
      case PtyObject(p) => p.bpPaused := b;
      case SourceObject(s) => s.bpPaused := b;
      case DestObject(d) => d.bpPaused := b;
    }
  }
}
