/** One direction of the link, end to end: frames are offered to the transmit queue, drained to the
    wire in arbitrary pieces, and delivered to the parser in arbitrary chunks. */
module Link {
  import opened Bytes
  import opened Streaming
  import opened LinkFrame
  import opened TxQueue

  /** `accepted` and `emitted` record the frames that went in and came out so far. */
  datatype State = State(
    queue: seq<byte>, wire: seq<byte>, parser: seq<byte>, accepted: seq<Frame>, emitted: seq<Frame>)

  const RESET := State([], [], [], [], [])

  datatype Event =
    | Offer(frame: Frame)   // build_frame, then enqueue
    | Drain(n: nat)         // the system takes up to n queued bytes
    | Deliver(n: nat)       // the receiver reads up to n bytes

  predicate Accepts(q: seq<byte>, f: Frame) {
    |f.payload| <= MAX_PAYLOAD && |q| + |Build(f)| <= QUEUE_CAP
  }

  function Step(s: State, e: Event): State {
    match e
    case Offer(f) =>
      s.(queue := Push(s.queue, Build(f)), accepted := if Accepts(s.queue, f) then s.accepted + [f] else s.accepted)
    case Drain(n) =>
      var k := Min(n, |s.queue|);
      s.(queue := s.queue[k..], wire := s.wire + s.queue[..k])
    case Deliver(n) =>
      var k := Min(n, |s.wire|);
      var r := Scan(s.parser + s.wire[..k]);
      s.(wire := s.wire[k..], parser := r.rest, emitted := s.emitted + r.out)
  }

  function Exec(s: State, events: seq<Event>): State
    decreases |events|
  {
    if events == [] then s else Exec(Step(s, events[0]), events[1..])
  }

  lemma {:induction false} ExecSnoc(s: State, events: seq<Event>, e: Event)
    ensures Exec(s, events + [e]) == Step(Exec(s, events), e)
    decreases |events|
  {
    hide Step;
    if events == [] {
      assert [] + [e] == [e] && [e][1..] == [];
    } else {
      assert (events + [e])[1..] == events[1..] + [e];
      ExecSnoc(Step(s, events[0]), events[1..], e);
    }
  }

  /** `delivered` is everything the parser has been given: the accepted frames are written on what was
      delivered, what is on the wire and what is queued, and the parser is where a single scan of the
      delivered bytes would be. */
  ghost predicate Inv(s: State, delivered: seq<byte>) {
    && Flat(BuildAll(s.accepted)) == delivered + s.wire + s.queue
    && Fit(s.accepted)
    && Scan(delivered) == Result(s.emitted, (), s.parser)
  }

  /** A frame that is not accepted leaves no trace; one that is leaves all its bytes. */
  lemma OfferIsAtomic(s: State, f: Frame)
    ensures Accepts(s.queue, f) ==> Step(s, Offer(f)).queue == s.queue + Build(f)
    ensures !Accepts(s.queue, f) ==> Step(s, Offer(f)) == s
  {
    hide Checksum;
    if |f.payload| > MAX_PAYLOAD {
      assert s.queue + Build(f) == s.queue;
    }
  }

  lemma OfferKeeps(s: State, f: Frame, delivered: seq<byte>)
    requires Inv(s, delivered)
    ensures Inv(Step(s, Offer(f)), delivered)
  {
    hide Build, Scan;
    OfferIsAtomic(s, f);
    if Accepts(s.queue, f) {
      assert BuildAll(s.accepted + [f]) == BuildAll(s.accepted) + [Build(f)];
      FlatAppend(BuildAll(s.accepted), Build(f));
    }
  }

  lemma DeliverKeeps(s: State, n: nat, delivered: seq<byte>)
    requires Inv(s, delivered)
    ensures Inv(Step(s, Deliver(n)), delivered + s.wire[..Min(n, |s.wire|)])
  {
    hide Build, Scan;
    var k := Min(n, |s.wire|);
    var chunk := s.wire[..k];
    ScanSplit(delivered, chunk);
    assert s.wire == chunk + s.wire[k..];
    assert Scan(s.parser + chunk).state == ();
  }

  lemma StepKeeps(s: State, e: Event, delivered: seq<byte>) returns (delivered': seq<byte>)
    requires Inv(s, delivered)
    ensures Inv(Step(s, e), delivered')
  {
    hide Build, Scan, BuildAll;
    delivered' := delivered;
    match e
    case Offer(f) => OfferKeeps(s, f, delivered);
    case Drain(n) =>
      assert s.queue == s.queue[..Min(n, |s.queue|)] + s.queue[Min(n, |s.queue|)..];
    case Deliver(n) =>
      DeliverKeeps(s, n, delivered);
      delivered' := delivered + s.wire[..Min(n, |s.wire|)];
  }

  lemma {:induction false} ExecKeeps(s: State, events: seq<Event>, delivered: seq<byte>) returns (delivered': seq<byte>)
    requires Inv(s, delivered)
    ensures Inv(Exec(s, events), delivered')
    decreases |events|
  {
    hide Inv, Step;
    delivered' := delivered;
    if events != [] {
      delivered' := StepKeeps(s, events[0], delivered);
      delivered' := ExecKeeps(Step(s, events[0]), events[1..], delivered');
    }
  }

  lemma InvDelivers(s: State, delivered: seq<byte>)
    requires Inv(s, delivered)
    ensures s.emitted <= s.accepted
    ensures s.queue == [] && s.wire == [] ==> s.emitted == s.accepted && s.parser == []
  {
    hide Build, Scan, BuildAll;
    var all := Flat(BuildAll(s.accepted));
    ScanInvertsBuild(s.accepted, []);
    assert all + [] == all;
    EmptyScan();
    ScanSplit(delivered, s.wire + s.queue);
    assert all == delivered + (s.wire + s.queue);
    assert s.accepted + [] == s.accepted;
    if s.queue == [] && s.wire == [] {
      assert delivered == all;
    }
  }

  /** End to end, from reset ends and for every interleaving: the frames emitted are a prefix of the
      frames accepted, and all of them once queue and wire are empty. */
  lemma EndToEnd(events: seq<Event>)
    ensures var s := Exec(RESET, events);
            && s.emitted <= s.accepted
            && (s.queue == [] && s.wire == [] ==> s.emitted == s.accepted && s.parser == [])
  {
    EmptyScan();
    assert Inv(RESET, []);
    var delivered := ExecKeeps(RESET, events, []);
    InvDelivers(Exec(RESET, events), delivered);
  }

  // ---------------------------------------------------------------- the C daemon's three pushes

  /** The bytes of a frame in the C daemon, whose length field is all that limits the payload. */
  function Parts(f: Frame): (w: seq<byte>)
    requires |f.payload| < 0x1_0000
    ensures |w| == HDR_SIZE + |f.payload| + CRC_SIZE
    ensures |f.payload| <= MAX_PAYLOAD ==> w == Build(f)
  {
    [0xAA, 0x55, f.ftype, f.channel] + Pack16(|f.payload|) + f.payload + Checksum(f.payload)
  }

  /** `enqueue_frame` of the C daemon pushes header, payload and checksum separately, each all or nothing. */
  function EnqueueInParts(q: seq<byte>, f: Frame): seq<byte>
    requires |f.payload| < 0x1_0000
  {
    var header := [0xAA, 0x55, f.ftype, f.channel] + Pack16(|f.payload|);
    var q1 := Push(q, header);
    var q2 := if f.payload == [] then q1 else Push(q1, f.payload);
    Push(q2, Checksum(f.payload))
  }

  /** The queue takes such a frame whole exactly when it has room for all of it. */
  lemma PartsWholeIffRoom(q: seq<byte>, f: Frame)
    requires |f.payload| < 0x1_0000 && |q| <= QUEUE_CAP
    ensures EnqueueInParts(q, f) == q + Parts(f) <==> |q| + |Parts(f)| <= QUEUE_CAP
  {
    hide Checksum, Build;
    if |q| + |Parts(f)| <= QUEUE_CAP {
      var header := [0xAA, 0x55, f.ftype, f.channel] + Pack16(|f.payload|);
      assert q + header + f.payload + Checksum(f.payload) == q + Parts(f);
      assert f.payload == [] ==> q + header == q + header + f.payload;
    }
  }

  /** It refuses such a frame whole exactly when not even the checksum, nor a non-empty payload, fits. */
  lemma PartsRefusedIffFull(q: seq<byte>, f: Frame)
    requires |f.payload| < 0x1_0000 && |q| <= QUEUE_CAP
    ensures EnqueueInParts(q, f) == q <==>
            |q| + CRC_SIZE > QUEUE_CAP && (f.payload == [] || |q| + |f.payload| > QUEUE_CAP)
  {
    hide Checksum, Build;
    assert |EnqueueInParts(q, f)| == |q| ==> EnqueueInParts(q, f) == q;
  }

  /** So frames are not all-or-nothing there: with room for a header only, a truncated frame is sent. */
  lemma PartsTruncate(q: seq<byte>)
    requires |q| == QUEUE_CAP - HDR_SIZE
    ensures var f := Frame(F_DATA, 0, [0, 0, 0, 0, 0, 0, 0]);
            EnqueueInParts(q, f) != q && EnqueueInParts(q, f) != q + Parts(f)
  {
    var f := Frame(F_DATA, 0, [0, 0, 0, 0, 0, 0, 0]);
    PartsWholeIffRoom(q, f);
    PartsRefusedIffFull(q, f);
  }
}
