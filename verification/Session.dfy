/** One end of the link at the level of frames: the handshake flag and the channels. */
module Session {
  import opened Bytes
  import opened LinkFrame
  import opened Channels

  /** `order` is the order in which the daemon visits its channels; it never changes. */
  datatype Node = Node(up: bool, order: seq<byte>, chans: map<byte, Channel>)

  datatype NodeOut = NodeOut(node: Node, frames: seq<Frame>)

  const HELLO := Frame(F_HELLO, 0, [])
  const ACK := Frame(F_ACK, 0, [])
  const PING := Frame(F_PING, 0, [])
  const PONG := Frame(F_PONG, 0, [])

  datatype MapOut = MapOut(chans: map<byte, Channel>, frames: seq<Frame>)

  /** Announce the completed handshake to every channel in turn. */
  function Broadcast(chans: map<byte, Channel>, ids: seq<byte>): MapOut
    decreases |ids|
  {
    if ids == [] then MapOut(chans, [])
    else if ids[0] !in chans then Broadcast(chans, ids[1..])
    else
      var o := OnLinkConnect(chans[ids[0]], ids[0]);
      var more := Broadcast(chans[ids[0] := o.ch], ids[1..]);
      MapOut(more.chans, o.frames + more.frames)
  }

  function LinkUp(n: Node): NodeOut {
    var b := Broadcast(n.chans, n.order);
    NodeOut(n.(up := true, chans := b.chans), b.frames)
  }

  predicate IsControl(ftype: byte) {
    ftype == F_PING || ftype == F_PONG || ftype == F_HELLO || ftype == F_ACK
  }

  /** Reaction to a frame from the peer. */
  function Receive(n: Node, f: Frame, io: Io): NodeOut {
    if f.ftype == F_PING then NodeOut(n, [PONG])
    else if f.ftype == F_PONG then NodeOut(n, [])
    else if f.ftype == F_HELLO then
      var u := LinkUp(n);
      NodeOut(u.node, [ACK] + u.frames)
    else if f.ftype == F_ACK then
      if n.up then NodeOut(n, []) else LinkUp(n)
    else if f.channel in n.chans then
      var o := OnFrame(n.chans[f.channel], f.channel, f, io);
      NodeOut(n.(chans := n.chans[f.channel := o.ch]), o.frames)
    else NodeOut(n, [])
  }

  function Disconnect(n: Node): Node {
    n.(up := false, chans := map id | id in n.chans :: OnLinkDisconnect(n.chans[id]))
  }

  /** Every channel paused, or resumed. */
  function PausedAll(chans: map<byte, Channel>, b: bool): map<byte, Channel> {
    map id | id in chans :: chans[id].SetPaused(b)
  }

  function Paused(n: Node, b: bool): Node {
    n.(chans := PausedAll(n.chans, b))
  }

  function Happens(n: Node, id: byte, e: ChannelEvent): NodeOut {
    if id in n.chans then
      var o := HandleEvent(n.chans[id], id, e);
      NodeOut(n.(chans := n.chans[id := o.ch]), o.frames)
    else NodeOut(n, [])
  }

  function TickOne(n: Node, id: byte, now: int, io: Io): NodeOut {
    if id in n.chans then
      var o := Tick(n.chans[id], id, now, io);
      NodeOut(n.(chans := n.chans[id := o.ch]), o.frames)
    else NodeOut(n, [])
  }

  // ---------------------------------------------------------------- what every operation keeps

  /** The visiting order lists every channel exactly once. */
  ghost predicate Ordered(n: Node) {
    && (forall i :: 0 <= i < |n.order| ==> n.order[i] in n.chans)
    && (forall id :: id in n.chans ==> id in n.order)
    && (forall i, j :: 0 <= i < j < |n.order| ==> n.order[i] != n.order[j])
  }

  /** Channels that track the link agree with the daemon; a UART that is closed is never considered
      active and always has a time at which it will be opened again; a closed PTY has nothing buffered. */
  predicate InStep(ch: Channel, up: bool) {
    && (ch.McuCh? ==> ch.mcu.linkUp == up && (!ch.mcu.fd ==> ch.mcu.state != Active && ch.mcu.reopenAt.Some?))
    && (ch.SourceCh? ==> ch.src.linkUp == up)
    && (ch.PtyCh? && !ch.pty.open ==> ch.pty.txbuf == [])
  }

  /** Nothing of a session is left: no PTY, no TCP slot, no belief in the link, no buffered bytes. */
  predicate Idle(ch: Channel) {
    match ch
    case McuCh(m) => !m.linkUp && m.txbuf == []
    case PtyCh(p) => !p.open && p.txbuf == []
    case SourceCh(s) => !s.linkUp && s.conns == map[]
    case DestCh(d) => d.conns == map[]
  }

  predicate SameKind(a: Channel, b: Channel) {
    (a.McuCh? <==> b.McuCh?) && (a.PtyCh? <==> b.PtyCh?) && (a.SourceCh? <==> b.SourceCh?)
  }

  /** `b` is a next state of `a` that keeps kind, pause flag and agreement with the link flag. */
  ghost predicate Keeps(a: Channel, b: Channel, up: bool) {
    SameKind(a, b) && b.BpPaused() == a.BpPaused() && (InStep(a, up) ==> InStep(b, up))
  }

  lemma {:induction false} AcceptKeeps(s: TcpSource, id: byte, registered: seq<bool>)
    ensures var o := Accept(s, id, registered);
            && o.ch.bpPaused == s.bpPaused && o.ch.linkUp == s.linkUp
            && (!s.linkUp ==> o == Quiet(s))
            && forall f :: f in o.frames ==> f.ftype == F_TCONN && f.channel == id
    decreases |registered|
  {
    if registered != [] {
      if !s.linkUp {
        AcceptKeeps(s, id, registered[1..]);
      } else {
        var (slot, next) := AllocSlot(s.conns, s.nextSlot, MAX_TCP_CONNS);
        if slot.None? || !registered[0] {
          AcceptKeeps(s.(nextSlot := next), id, registered[1..]);
        } else {
          var taken := s.(nextSlot := next, conns := s.conns[slot.value := Conn([], false, false)]);
          AcceptKeeps(taken, id, registered[1..]);
        }
      }
    }
  }

  ghost predicate EventLaw(ch: Channel, o: Out<Channel>, up: bool) {
    Keeps(ch, o.ch, up) && (Idle(ch) ==> Idle(o.ch) && o.frames == [])
  }

  lemma McuEventKeeps(m: Mcu, id: byte, e: ChannelEvent, up: bool)
    ensures EventLaw(McuCh(m), HandleEvent(McuCh(m), id, e), up)
  {
    hide UartRead;
    if e.Primary? {
      UartReadKeeps(m, id, e.read, e.now, up);
    }
  }

  lemma UartReadKeeps(m: Mcu, id: byte, read: Read, now: int, up: bool)
    ensures var o := UartRead(m, id, read, now); EventLaw(McuCh(m), Out(McuCh(o.ch), o.frames), up)
  {
  }

  /** A readiness event changes neither the kind nor the pause flag of a channel nor its view of the
      link, and on an idle channel it has no effect on the link at all. */
  lemma EventKeeps(ch: Channel, id: byte, e: ChannelEvent, up: bool)
    ensures EventLaw(ch, HandleEvent(ch, id, e), up)
  {
    hide ReadSlot, WriteSlot, McuEvent, Accept;
    if ch.McuCh? {
      McuEventKeeps(ch.mcu, id, e, up);
    } else if ch.SourceCh? && e.Listener? {
      AcceptKeeps(ch.src, id, e.registered);
    }
  }

  lemma TickKeeps(ch: Channel, id: byte, now: int, io: Io, up: bool)
    ensures Keeps(ch, Tick(ch, id, now, io).ch, up)
    ensures Idle(ch) ==> Idle(Tick(ch, id, now, io).ch) && Tick(ch, id, now, io).frames == []
  {
  }

  lemma FrameKeeps(ch: Channel, id: byte, f: Frame, io: Io, up: bool)
    ensures Keeps(ch, OnFrame(ch, id, f, io).ch, up)
  {
    hide SlotOnFrame;
  }

  /** After a broadcast every visited channel is connected, and the frames of one channel are exactly the
      ones its own announcement produced. */
  lemma {:induction false} BroadcastConnects(chans: map<byte, Channel>, ids: seq<byte>, id: byte)
    requires id in chans && forall i, j :: 0 <= i < j < |ids| ==> ids[i] != ids[j]
    ensures var b := Broadcast(chans, ids);
            && b.chans.Keys == chans.Keys
            && b.chans[id] == (if id in ids then OnLinkConnect(chans[id], id).ch else chans[id])
            && OfChannel(b.frames, id) == (if id in ids then OnLinkConnect(chans[id], id).frames else [])
            && forall f :: f in b.frames ==> f.ftype == F_READY || f.ftype == F_FLUSH
    decreases |ids|
  {
    hide OnLinkConnect;
    if ids != [] {
      if ids[0] !in chans {
        BroadcastConnects(chans, ids[1..], id);
      } else {
        var o := OnLinkConnect(chans[ids[0]], ids[0]);
        var rest := chans[ids[0] := o.ch];
        BroadcastConnects(rest, ids[1..], id);
        var more := Broadcast(rest, ids[1..]);
        OfChannelAppend(o.frames, more.frames, id);
        assert id in ids <==> id == ids[0] || id in ids[1..];
        OwnStatus(chans[ids[0]], ids[0], id);
      }
    }
  }

  /** An announcement is addressed to the channel's own peer. */
  lemma OwnStatus(ch: Channel, own: byte, id: byte)
    ensures var fs := OnLinkConnect(ch, own).frames;
            && OfChannel(fs, id) == (if own == id then fs else [])
            && forall f :: f in fs ==> f.ftype == F_READY || f.ftype == F_FLUSH
  {
    if ch.McuCh? {
      var fs := OnLinkConnect(ch, own).frames;
      assert fs[1..] == [];
    }
  }

  /** The frames addressed to one channel, in order. */
  function OfChannel(fs: seq<Frame>, id: byte): seq<Frame> {
    if fs == [] then [] else (if fs[0].channel == id then [fs[0]] else []) + OfChannel(fs[1..], id)
  }

  lemma {:induction false} OfChannelAppend(a: seq<Frame>, b: seq<Frame>, id: byte)
    ensures OfChannel(a + b, id) == OfChannel(a, id) + OfChannel(b, id)
    decreases |a|
  {
    if a == [] {
      assert a + b == b;
    } else {
      assert (a + b)[0] == a[0] && (a + b)[1..] == a[1..] + b;
      OfChannelAppend(a[1..], b, id);
      Assoc(if a[0].channel == id then [a[0]] else [], OfChannel(a[1..], id), OfChannel(b, id));
    }
  }
}
