/** Frames of the serial link: the builder, and the receiver's view of a byte stream as a naive
    left-to-right scan that tries every offset. */
module LinkFrame {
  import opened Bytes
  import opened Streaming
  import opened Crc

  const HDR_SIZE := 6
  const CRC_SIZE := 4
  const MAX_PAYLOAD := 16 * 1024
  const MAX_FRAME := HDR_SIZE + MAX_PAYLOAD + CRC_SIZE

  const F_DATA: byte := 0x01
  const F_FLUSH: byte := 0x02
  const F_READY: byte := 0x03
  const F_HELLO: byte := 0x05
  const F_ACK: byte := 0x06
  const F_TCONN: byte := 0x10
  const F_TDATA: byte := 0x11
  const F_TCLOSE: byte := 0x12
  const F_PING: byte := 0x20
  const F_PONG: byte := 0x21

  datatype Frame = Frame(ftype: byte, channel: byte, payload: seq<byte>)

  /** `build_frame`: an oversize payload builds nothing at all. */
  function Build(f: Frame): (w: seq<byte>)
    ensures w == [] <==> |f.payload| > MAX_PAYLOAD
    ensures w != [] ==> |w| == HDR_SIZE + |f.payload| + CRC_SIZE <= MAX_FRAME
  {
    if |f.payload| > MAX_PAYLOAD then []
    else
      [0xAA, 0x55, f.ftype, f.channel] + Pack16(|f.payload|) + f.payload + Checksum(f.payload)
  }

  function Checksum(payload: seq<byte>): (s: seq<byte>)
    ensures |s| == CRC_SIZE
  {
    RegBytes(Crc32(payload))
  }

  /** The receiver's comparison, on 32-bit values. */
  predicate Matches(four: seq<byte>, payload: seq<byte>)
    requires |four| == CRC_SIZE
  {
    BytesReg(four) == Crc32(payload)
  }

  lemma MatchesIffChecksum(four: seq<byte>, payload: seq<byte>)
    requires |four| == CRC_SIZE
    ensures Matches(four, payload) <==> four == Checksum(payload)
  {
    BytesRegInverts(Crc32(payload));
    RegBytesInverts(four);
  }

  function BuildAll(fs: seq<Frame>): seq<seq<byte>> {
    seq(|fs|, i requires 0 <= i < |fs| => Build(fs[i]))
  }

  /** No frame exceeds the payload limit. */
  predicate Fit(fs: seq<Frame>) {
    forall i :: 0 <= i < |fs| ==> |fs[i].payload| <= MAX_PAYLOAD
  }

  lemma FitAppend(a: seq<Frame>, b: seq<Frame>)
    requires Fit(a) && Fit(b)
    ensures Fit(a + b)
  {
  }

  lemma NothingFits()
    ensures Fit([])
  {
  }

  lemma NothingFlat()
    ensures Flat(BuildAll([])) == []
  {
  }

  lemma {:induction false} FlatBuildAppend(a: seq<Frame>, b: seq<Frame>)
    ensures Flat(BuildAll(a + b)) == Flat(BuildAll(a)) + Flat(BuildAll(b))
    decreases |a|
  {
    hide Build;
    if a == [] {
      assert a + b == b;
      NothingFlat();
    } else {
      assert BuildAll(a + b)[1..] == BuildAll(a[1..] + b) && BuildAll(a)[1..] == BuildAll(a[1..]);
      FlatBuildAppend(a[1..], b);
      Assoc(Build(a[0]), Flat(BuildAll(a[1..])), Flat(BuildAll(b)));
    }
  }

  /** The length field of a buffered header. */
  function LengthAt(b: seq<byte>): nat
    requires |b| >= HDR_SIZE
  {
    Unpack16(b[4], b[5])
  }

  /** The scan of the receiver at one offset: accept a complete valid frame, wait while the bytes could
      still become one, and otherwise move on by a single byte. */
  function LinkStep(u: (), b: seq<byte>): Outcome<(), Frame> {
    if |b| < 2 then Wait
    else if !(b[0] == 0xAA && b[1] == 0x55) then Take(1, (), [])
    else if |b| < HDR_SIZE then Wait
    else if LengthAt(b) > MAX_PAYLOAD then Take(1, (), [])
    else
      var n := LengthAt(b);
      if |b| < HDR_SIZE + n + CRC_SIZE then Wait
      else if !Matches(b[HDR_SIZE + n..HDR_SIZE + n + CRC_SIZE], b[HDR_SIZE..HDR_SIZE + n]) then Take(1, (), [])
      else Take(HDR_SIZE + n + CRC_SIZE, (), [Frame(b[2], b[3], b[HDR_SIZE..HDR_SIZE + n])])
  }

  /** Frames and residual after receiving `b` from a reset parser. */
  function Scan(b: seq<byte>): Result<(), Frame> {
    Run(LinkStep, (), b)
  }

  lemma LinkStepStable()
    ensures Stable(LinkStep)
  {
    forall u, b, x ensures DecidedFor(LinkStep, u, b, x) {
      LinkStepDecided(u, b, x);
    }
  }

  lemma LinkStepDecided(u: (), b: seq<byte>, x: seq<byte>)
    ensures DecidedFor(LinkStep, u, b, x)
  {
    if |b| >= HDR_SIZE {
      assert LengthAt(b + x) == LengthAt(b);
      var n := LengthAt(b);
      if |b| >= HDR_SIZE + n + CRC_SIZE {
        assert (b + x)[HDR_SIZE..HDR_SIZE + n] == b[HDR_SIZE..HDR_SIZE + n];
        assert (b + x)[HDR_SIZE + n..HDR_SIZE + n + CRC_SIZE] == b[HDR_SIZE + n..HDR_SIZE + n + CRC_SIZE];
      }
    }
  }

  /** Chunk independence of the link parser. */
  lemma ScanSplit(a: seq<byte>, b: seq<byte>)
    ensures Scan(a + b) == Prepend(Scan(a).out, Scan(Scan(a).rest + b))
    ensures Scan(a).out <= Scan(a + b).out
  {
    LinkStepStable();
    RunSplit(LinkStep, (), a, b);
    assert Scan(a).state == ();
  }

  /** Undecided bytes are always fewer than one largest frame. */
  lemma WaitBound(b: seq<byte>)
    requires !Takes(LinkStep, (), b)
    ensures |b| < MAX_FRAME
  {
  }

  lemma ResidualBound(b: seq<byte>)
    ensures |Scan(b).rest| < MAX_FRAME && Scan(Scan(b).rest) == Result([], (), Scan(b).rest)
  {
    RunSettles(LinkStep, (), b);
    WaitBound(Scan(b).rest);
  }

  lemma EmptyScan()
    ensures Scan([]) == Result([], (), [])
  {
  }

  // ---------------------------------------------------------------- printer and parser are inverse

  lemma BuildDecodes(f: Frame)
    requires |f.payload| <= MAX_PAYLOAD
    ensures LinkStep((), Build(f)) == Take(|Build(f)|, (), [f])
  {
    hide LinkStep, Checksum, Matches;
    var n := |f.payload|;
    var h := [0xAA, 0x55, f.ftype, f.channel] + Pack16(n);
    Unpack16Inverts(n);
    MatchesIffChecksum(Checksum(f.payload), f.payload);
    StepOnParts(h, f.payload, Checksum(f.payload), []);
    assert Build(f) == h + f.payload + Checksum(f.payload) + [];
  }

  /** Any list of frames, written back to back, is received as that list with nothing left over. */
  lemma ScanInvertsBuild(fs: seq<Frame>, tail: seq<byte>)
    requires Fit(fs)
    ensures Scan(Flat(BuildAll(fs)) + tail) == Prepend(fs, Scan(tail))
  {
    LinkStepStable();
    forall i | 0 <= i < |fs|
      ensures BuildAll(fs)[i] != [] && LinkStep((), BuildAll(fs)[i]) == Take(|BuildAll(fs)[i]|, (), [fs[i]])
    {
      BuildDecodes(fs[i]);
    }
    RunInverts(LinkStep, (), BuildAll(fs), fs, tail);
  }

  /** A step that emits nothing only moves on by one byte. */
  lemma SkipsOne(b: seq<byte>)
    requires LinkStep((), b).Take? && LinkStep((), b).out == []
    ensures LinkStep((), b).n == 1
  {
  }

  /** Conversely, whatever the scan accepts is exactly what the builder writes for it. */
  lemma AcceptedIsBuilt(b: seq<byte>)
    requires LinkStep((), b).Take? && LinkStep((), b).out != []
    ensures var t := LinkStep((), b);
            |t.out| == 1 && |t.out[0].payload| <= MAX_PAYLOAD && t.n <= |b| && b[..t.n] == Build(t.out[0])
  {
    hide Checksum, Matches;
    var n := LengthAt(b);
    var t := LinkStep((), b);
    var f := t.out[0];
    assert f.payload == b[HDR_SIZE..HDR_SIZE + n];
    MatchesIffChecksum(b[HDR_SIZE + n..HDR_SIZE + n + CRC_SIZE], f.payload);
    Pack16Inverts(b[4], b[5]);
    assert Build(f) == [0xAA, 0x55, f.ftype, f.channel] + Pack16(n) + f.payload + Checksum(f.payload);
    assert b[..t.n] == b[..4] + b[4..6] + b[HDR_SIZE..HDR_SIZE + n] + b[HDR_SIZE + n..t.n];
    assert b[..4] == [0xAA, 0x55, f.ftype, f.channel];
    assert b[4..6] == [b[4], b[5]];
  }

  // ---------------------------------------------------------------- resynchronisation

  /** The scan of `b` stands at offset `p` at some point and accepts `f` there. */
  ghost predicate AcceptsAt(b: seq<byte>, p: nat, f: Frame)
    decreases |b|
  {
    && Takes(LinkStep, (), b)
    && var t := LinkStep((), b);
       || (p == 0 && t.out == [f])
       || (p >= t.n && AcceptsAt(b[t.n..], p - t.n, f))
  }

  /** The builder's bytes for `f` are in `b` at offset `p`. */
  ghost predicate BuiltAt(b: seq<byte>, p: nat, f: Frame) {
    var w := Build(f);
    w != [] && p + |w| <= |b| && b[p..p + |w|] == w
  }

  /** What is accepted at an offset is emitted, and is what the builder writes there. */
  lemma {:induction false} AcceptedIsEmitted(b: seq<byte>, p: nat, f: Frame)
    requires AcceptsAt(b, p, f)
    ensures f in Scan(b).out && BuiltAt(b, p, f)
    decreases |b|
  {
    hide LinkStep, Build;
    var t := LinkStep((), b);
    assert Scan(b).out == t.out + Scan(b[t.n..]).out by {
      assert t.state == ();
    }
    if p == 0 && t.out == [f] {
      AcceptedIsBuilt(b);
      assert b[0..t.n] == b[..t.n];
    } else {
      AcceptedIsEmitted(b[t.n..], p - t.n, f);
      SliceOfRest(b, t.n, p, |Build(f)|);
    }
  }

  /** Nothing is invented: every emitted frame was accepted at an offset holding its bytes. */
  lemma {:induction false} EmittedWasAccepted(b: seq<byte>, f: Frame) returns (p: nat)
    requires f in Scan(b).out
    ensures AcceptsAt(b, p, f)
    decreases |b|
  {
    hide LinkStep, Build;
    var t := LinkStep((), b);
    assert Scan(b).out == t.out + Scan(b[t.n..]).out by {
      assert t.state == ();
    }
    if f in t.out {
      AcceptedIsBuilt(b);
      p := 0;
    } else {
      p := EmittedWasAccepted(b[t.n..], f);
      p := p + t.n;
    }
  }

  ghost predicate NotOverlapped(b: seq<byte>, p: nat) {
    forall q: nat, g :: AcceptsAt(b, q, g) ==> !(q < p < q + |Build(g)|)
  }

  /** Recovery: a valid frame at offset `p` that no earlier accepted frame overlaps is accepted once
      `p + MAX_FRAME` bytes have arrived, whatever bytes surround it. */
  lemma {:induction false} Delivered(b: seq<byte>, p: nat, f: Frame)
    requires p + MAX_FRAME <= |b| && BuiltAt(b, p, f)
    requires NotOverlapped(b, p)
    ensures AcceptsAt(b, p, f)
    decreases |b|
  {
    hide LinkStep, Build;
    if !Takes(LinkStep, (), b) {
      WaitBound(b);
      assert false;
    }
    var t := LinkStep((), b);
    if p == 0 {
      AcceptsBuilt(b, f);
    } else {
      StepReaches(b, p);
      SliceOfRest(b, t.n, p, |Build(f)|);
      forall q: nat, g | AcceptsAt(b[t.n..], q, g) ensures !(q < p - t.n < q + |Build(g)|) {
        assert AcceptsAt(b, q + t.n, g);
      }
      Delivered(b[t.n..], p - t.n, f);
    }
  }

  lemma AcceptsBuilt(b: seq<byte>, f: Frame)
    requires BuiltAt(b, 0, f)
    ensures AcceptsAt(b, 0, f)
  {
    hide LinkStep, Checksum;
    var w := Build(f);
    BuildDecodes(f);
    LinkStepDecided((), w, b[|w|..]);
    assert b == w + b[|w|..];
  }

  /** A step does not jump over an offset unless a frame accepted here covers it. */
  lemma StepReaches(b: seq<byte>, p: nat)
    requires Takes(LinkStep, (), b) && p > 0
    requires forall g :: AcceptsAt(b, 0, g) ==> !(p < |Build(g)|)
    ensures LinkStep((), b).n <= p
  {
    hide LinkStep, Build;
    var t := LinkStep((), b);
    if t.out == [] {
      SkipsOne(b);
    } else {
      AcceptedIsBuilt(b);
      assert AcceptsAt(b, 0, t.out[0]);
    }
  }

  /** The decision about a complete candidate depends on its header, its payload and its last four bytes. */
  lemma StepOnParts(h: seq<byte>, payload: seq<byte>, four: seq<byte>, tail: seq<byte>)
    requires |h| == HDR_SIZE && h[0] == 0xAA && h[1] == 0x55 && Unpack16(h[4], h[5]) == |payload| <= MAX_PAYLOAD
    requires |four| == CRC_SIZE
    ensures LinkStep((), h + payload + four + tail) ==
            if Matches(four, payload) then Take(HDR_SIZE + |payload| + CRC_SIZE, (), [Frame(h[2], h[3], payload)])
            else Take(1, (), [])
  {
    hide Matches;
    var b, n := h + payload + four + tail, |payload|;
    assert b[4] == h[4] && b[5] == h[5];
    assert b[HDR_SIZE..HDR_SIZE + n] == payload;
    assert b[HDR_SIZE + n..HDR_SIZE + n + CRC_SIZE] == four;
  }

  lemma BurstMismatch(payload: seq<byte>, damaged: seq<byte>, at: nat)
    requires |damaged| == |payload| + CRC_SIZE && damaged != payload + Checksum(payload)
    requires forall j :: 0 <= j < 8 * |damaged| && !(at <= j < at + 32) ==>
               Bits(payload + Checksum(payload))[j] == Bits(damaged)[j]
    ensures !Matches(damaged[|payload|..], damaged[..|payload|])
  {
    hide Checksum, Crc32, Bits;
    var v, y := damaged[..|payload|], damaged[|payload|..];
    assert damaged == v + y;
    MatchesIffChecksum(Checksum(payload), payload);
    WireBurstDetected(payload, Checksum(payload), v, y, at);
  }

  /** A frame hit by a burst of at most 32 bits anywhere behind its header, in the payload, in the checksum or
      across both, is never accepted where it starts. */
  lemma CorruptedRejected(f: Frame, damaged: seq<byte>, at: nat, tail: seq<byte>)
    requires |f.payload| <= MAX_PAYLOAD && |damaged| == |Build(f)| - HDR_SIZE && damaged != Build(f)[HDR_SIZE..]
    requires forall j :: 0 <= j < 8 * |damaged| && !(at <= j < at + 32) ==>
               Bits(Build(f)[HDR_SIZE..])[j] == Bits(damaged)[j]
    ensures LinkStep((), Build(f)[..HDR_SIZE] + damaged + tail) == Take(1, (), [])
  {
    hide LinkStep, Checksum, Matches, Bits;
    var w, n := Build(f), |f.payload|;
    var h := [0xAA, 0x55, f.ftype, f.channel] + Pack16(n);
    Unpack16Inverts(n);
    assert w[..HDR_SIZE] == h;
    assert w[HDR_SIZE..] == f.payload + Checksum(f.payload);
    BurstMismatch(f.payload, damaged, at);
    StepOnParts(h, damaged[..n], damaged[n..], tail);
    assert h + damaged[..n] + damaged[n..] + tail == w[..HDR_SIZE] + damaged + tail;
  }
}
