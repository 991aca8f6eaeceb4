/** The codecs of the Klipper relay: the raw serial framer, the channel-tagged tunnel and the
    length-prefixed payload tunnel.  Each decoder is a streaming step; the loops that run it on a
    growing buffer are proved to compute what the step defines. */
module KlipperCodecs {
  import opened Bytes
  import opened Streaming

  const MESSAGE_LENGTH_MIN := 5
  const MESSAGE_LENGTH_MAX := 64
  const SYNC: byte := 0x7E

  datatype TunnelFrame = TunnelFrame(chId: byte, frame: seq<byte>)

  datatype PayloadFrame = PayloadFrame(chId: byte, payload: seq<byte>)

  predicate GoodLength(b: byte) {
    MESSAGE_LENGTH_MIN <= b as int <= MESSAGE_LENGTH_MAX
  }

  /** A complete Klipper frame: its first byte is its length and its last byte is the sync byte. */
  predicate WellFormed(f: seq<byte>) {
    f != [] && GoodLength(f[0]) && |f| == f[0] as int && f[|f| - 1] == SYNC
  }

  // ---------------------------------------------------------------- decoders as steps

  function TunnelStep(u: (), b: seq<byte>): Outcome<(), TunnelFrame> {
    if |b| < 2 then Wait
    else if !GoodLength(b[1]) then Take(1, (), [])
    else
      var n := b[1] as int;
      if |b| < 1 + n then Wait
      else if b[n] != SYNC then Take(1, (), [])
      else Take(1 + n, (), [TunnelFrame(b[0], b[1..1 + n])])
  }

  /** The state is the framer's `synced` flag. */
  function KlipperStep(synced: bool, b: seq<byte>): Outcome<bool, seq<byte>> {
    if b == [] then Wait
    else if !synced then Take(1, b[0] == SYNC, [])
    else if b[0] == SYNC then Take(1, true, [])
    else if !GoodLength(b[0]) then Take(1, false, [])
    else
      var n := b[0] as int;
      if |b| < n then Wait
      else if b[n - 1] != SYNC then Take(1, false, [])
      else Take(n, true, [b[..n]])
  }

  function PayloadStep(u: (), b: seq<byte>): Outcome<(), PayloadFrame> {
    if |b| < 2 then Wait
    else
      var n := b[1] as int;
      if |b| < 2 + n then Wait else Take(2 + n, (), [PayloadFrame(b[0], b[2..2 + n])])
  }

  lemma TunnelStable()
    ensures Stable(TunnelStep)
  {
    forall u, b, x ensures DecidedFor(TunnelStep, u, b, x) {
      if Takes(TunnelStep, u, b) && GoodLength(b[1]) {
        var n := b[1] as int;
        assert (b + x)[1..1 + n] == b[1..1 + n];
      }
    }
  }

  lemma KlipperStable()
    ensures Stable(KlipperStep)
  {
    forall s, b, x ensures DecidedFor(KlipperStep, s, b, x) {
      if Takes(KlipperStep, s, b) && s && GoodLength(b[0]) {
        var n := b[0] as int;
        assert (b + x)[..n] == b[..n];
      }
    }
  }

  lemma PayloadStable()
    ensures Stable(PayloadStep)
  {
    forall u, b, x ensures DecidedFor(PayloadStep, u, b, x) {
      if Takes(PayloadStep, u, b) {
        var n := b[1] as int;
        assert (b + x)[2..2 + n] == b[2..2 + n];
      }
    }
  }

  lemma TunnelWaits(b: seq<byte>)
    requires !Takes(TunnelStep, (), b)
    ensures |b| <= MESSAGE_LENGTH_MAX
  {
  }

  lemma KlipperWaits(synced: bool, b: seq<byte>)
    requires !Takes(KlipperStep, synced, b)
    ensures |b| < MESSAGE_LENGTH_MAX
  {
  }

  /** Streaming laws of the two resynchronising decoders: any chunking gives the same items, flag and
      residual, and residuals never exceed 64 and 63 bytes. */
  lemma TunnelStreams(chunks: seq<seq<byte>>)
    ensures Feed(TunnelStep, Result([], (), []), chunks) == Run(TunnelStep, (), Flat(chunks))
    ensures |Run(TunnelStep, (), Flat(chunks)).rest| <= MESSAGE_LENGTH_MAX
  {
    TunnelStable();
    FeedFromReset(TunnelStep, (), chunks);
    RunSettles(TunnelStep, (), Flat(chunks));
    TunnelWaits(Run(TunnelStep, (), Flat(chunks)).rest);
  }

  lemma KlipperStreams(synced: bool, chunks: seq<seq<byte>>)
    ensures Feed(KlipperStep, Result([], synced, []), chunks) == Run(KlipperStep, synced, Flat(chunks))
    ensures |Run(KlipperStep, synced, Flat(chunks)).rest| < MESSAGE_LENGTH_MAX
  {
    KlipperStable();
    FeedFromReset(KlipperStep, synced, chunks);
    RunSettles(KlipperStep, synced, Flat(chunks));
    var r := Run(KlipperStep, synced, Flat(chunks));
    KlipperWaits(r.state, r.rest);
  }

  // ---------------------------------------------------------------- encoders

  function TunnelEncode(t: TunnelFrame): seq<byte> {
    [t.chId] + t.frame
  }

  function TunnelEncodeAll(ts: seq<TunnelFrame>): seq<seq<byte>> {
    seq(|ts|, i requires 0 <= i < |ts| => TunnelEncode(ts[i]))
  }

  /** Oversize payloads are refused. */
  function PayloadEncode(p: PayloadFrame): Option<seq<byte>> {
    if |p.payload| > 255 then None else Some([p.chId, |p.payload| as byte] + p.payload)
  }

  /** The tunnel carries any list of well-formed frames unchanged. */
  lemma TunnelInverts(ts: seq<TunnelFrame>, tail: seq<byte>)
    requires forall i :: 0 <= i < |ts| ==> WellFormed(ts[i].frame)
    ensures Run(TunnelStep, (), Flat(TunnelEncodeAll(ts)) + tail) == Prepend(ts, Run(TunnelStep, (), tail))
  {
    TunnelStable();
    var words := TunnelEncodeAll(ts);
    forall i | 0 <= i < |ts| ensures words[i] != [] && TunnelStep((), words[i]) == Take(|words[i]|, (), [ts[i]]) {
      var f := ts[i].frame;
      assert words[i] == [ts[i].chId] + f;
      assert words[i][1..] == f && words[i][1..1 + |f|] == f;
      assert words[i][1] == f[0] && words[i][|f|] == f[|f| - 1];
    }
    RunInverts(TunnelStep, (), words, ts, tail);
  }

  // ---------------------------------------------------------------- resynchronisation of the framer

  /** Every frame the framer emits, from any state and for any input, is well formed. */
  lemma {:induction false} FramerEmitsWellFormed(synced: bool, b: seq<byte>)
    ensures forall f :: f in Run(KlipperStep, synced, b).out ==> WellFormed(f)
    decreases |b|
  {
    if Takes(KlipperStep, synced, b) {
      var t := KlipperStep(synced, b);
      FramerEmitsWellFormed(t.state, b[t.n..]);
      assert forall f :: f in t.out ==> WellFormed(f);
    }
  }

  /** Noise without a sync byte is dropped and does not synchronise the framer. */
  lemma {:induction false} FramerIgnoresNoise(noise: seq<byte>, b: seq<byte>)
    requires SYNC !in noise
    ensures Run(KlipperStep, false, noise + b) == Run(KlipperStep, false, b)
    decreases |noise|
  {
    if noise == [] {
      assert noise + b == b;
    } else {
      assert (noise + b)[0] == noise[0] && noise[0] in noise;
      assert (noise + b)[1..] == noise[1..] + b;
      FramerIgnoresNoise(noise[1..], b);
      PrependNothing(Run(KlipperStep, false, noise[1..] + b));
    }
  }

  datatype Token = Idle | Message(frame: seq<byte>)

  function TokenBytes(ts: seq<Token>): seq<byte> {
    if ts == [] then [] else (if ts[0].Idle? then [SYNC] else ts[0].frame) + TokenBytes(ts[1..])
  }

  function Messages(ts: seq<Token>): seq<seq<byte>> {
    if ts == [] then [] else (if ts[0].Idle? then [] else [ts[0].frame]) + Messages(ts[1..])
  }

  /** A synchronised framer reads one token off the front. */
  lemma TokenStep(t: Token, rest: seq<byte>)
    requires t.Message? ==> WellFormed(t.frame)
    ensures var w := if t.Idle? then [SYNC] else t.frame;
            && w != [] && KlipperStep(true, w + rest) == Take(|w|, true, if t.Idle? then [] else [t.frame])
            && (w + rest)[|w|..] == rest
  {
    var w := if t.Idle? then [SYNC] else t.frame;
    assert (w + rest)[0] == w[0] && (w + rest)[|w| - 1] == w[|w| - 1] && (w + rest)[..|w|] == w;
  }

  lemma {:induction false} SyncedFramerReads(ts: seq<Token>)
    requires forall t :: t in ts && t.Message? ==> WellFormed(t.frame)
    ensures Run(KlipperStep, true, TokenBytes(ts)) == Result(Messages(ts), true, [])
    decreases |ts|
  {
    hide KlipperStep, WellFormed;
    if ts != [] {
      SyncedFramerReads(ts[1..]);
      assert ts[0] in ts;
      TokenStep(ts[0], TokenBytes(ts[1..]));
      RunEmits(KlipperStep, true, TokenBytes(ts));
    }
  }

  /** From an unsynchronised start, noise without a sync byte, a sync byte and then any mix of frames and
      idle sync bytes yields exactly those frames. */
  lemma FramerSynchronises(noise: seq<byte>, ts: seq<Token>)
    requires SYNC !in noise && forall t :: t in ts && t.Message? ==> WellFormed(t.frame)
    ensures Run(KlipperStep, false, noise + [SYNC] + TokenBytes(ts)) == Result(Messages(ts), true, [])
  {
    var b := [SYNC] + TokenBytes(ts);
    assert noise + [SYNC] + TokenBytes(ts) == noise + b;
    FramerIgnoresNoise(noise, b);
    SyncedFramerReads(ts);
    assert b[1..] == TokenBytes(ts);
    PrependNothing(Run(KlipperStep, true, TokenBytes(ts)));
  }

  /** In numbers: a frame is 5 to 64 bytes long, starts with its length and ends with 0x7E. */
  lemma WellFormedMeans(f: seq<byte>)
    ensures WellFormed(f) <==> 5 <= |f| <= 64 && f[0] as int == |f| && f[|f| - 1] == 0x7E
  {
  }

  /** The first byte cannot start a frame of the complete input: it is no length, or the byte where the frame
      would end is not the sync byte. */
  predicate StartsNoFrame(b: seq<byte>) {
    b != [] && (!GoodLength(b[0]) || (|b| >= b[0] as int && b[b[0] as int - 1] != SYNC))
  }

  /** Resynchronisation: a synchronised framer that meets a byte which starts no frame, a bad length or a
      frame without its trailing sync byte, drops everything up to the next sync byte and then yields exactly
      the frames that follow. */
  lemma FramerResynchronises(x: byte, noise: seq<byte>, ts: seq<Token>)
    requires x != SYNC && SYNC !in noise && forall t :: t in ts && t.Message? ==> WellFormed(t.frame)
    requires StartsNoFrame([x] + noise + [SYNC] + TokenBytes(ts))
    ensures Run(KlipperStep, true, [x] + noise + [SYNC] + TokenBytes(ts)) == Result(Messages(ts), true, [])
  {
    var rest := noise + [SYNC] + TokenBytes(ts);
    var b := [x] + noise + [SYNC] + TokenBytes(ts);
    assert b == [x] + rest && b[1..] == rest;
    RunSkips(KlipperStep, true, b, false);
    FramerSynchronises(noise, ts);
  }

  /** Until the byte that decides has arrived, a synchronised framer waits. */
  lemma FramerWaits(b: seq<byte>)
    requires b != [] && GoodLength(b[0]) && |b| < b[0] as int && b[0] != SYNC
    ensures Run(KlipperStep, true, b) == Result([], true, b)
  {
  }

  // ---------------------------------------------------------------- resynchronisation of the tunnel

  /** A tunnel frame may begin at offset `i`: its length byte is good, and its last byte is the sync byte or
      has not arrived. */
  predicate MayBegin(b: seq<byte>, i: nat) {
    i + 1 < |b| && GoodLength(b[i + 1]) && var n := b[i + 1] as int; i + n < |b| ==> b[i + n] == SYNC
  }

  lemma MayBeginLater(b: seq<byte>, i: nat)
    requires b != []
    ensures MayBegin(b, i + 1) <==> MayBegin(b[1..], i)
  {
  }

  /** The decision at the front: skip one byte exactly where no frame may begin, and otherwise take exactly a
      frame. */
  lemma TunnelDecides(b: seq<byte>)
    ensures |b| >= 2 && !MayBegin(b, 0) <==> TunnelStep((), b) == Take(1, (), [])
    ensures var t := TunnelStep((), b);
            t.Take? && t.out != [] ==>
              var f := t.out[0].frame;
              && |t.out| == 1 && WellFormed(f) && t.n == 1 + |f| <= |b| && b[..t.n] == TunnelEncode(t.out[0])
    ensures var t := TunnelStep((), b); t.Take? && t.out == [] ==> t == Take(1, (), [])
  {
  }

  /** The tunnel decoder tries every offset: garbage in which no frame may begin is dropped a byte at a time,
      and the frame behind it is found. */
  lemma {:induction false} TunnelFinds(garbage: seq<byte>, t: TunnelFrame, tail: seq<byte>)
    requires WellFormed(t.frame)
    requires forall i :: 0 <= i < |garbage| ==> !MayBegin(garbage + TunnelEncode(t) + tail, i)
    ensures Run(TunnelStep, (), garbage + TunnelEncode(t) + tail) == Prepend([t], Run(TunnelStep, (), tail))
    decreases |garbage|
  {
    hide TunnelStep, MayBegin, Run, TunnelEncode, Prepend;
    var w := TunnelEncode(t);
    var b := garbage + w + tail;
    if garbage == [] {
      TunnelInverts([t], tail);
      assert TunnelEncodeAll([t]) == [w] && [w][1..] == [] && w + [] == w;
      assert b == Flat(TunnelEncodeAll([t])) + tail;
    } else {
      var c := garbage[1..] + w + tail;
      assert b[1..] == c && !MayBegin(b, 0);
      Encoded(t);
      TunnelDecides(b);
      RunSkips(TunnelStep, (), b, ());
      forall i | 0 <= i < |garbage[1..]| ensures !MayBegin(c, i) {
        MayBeginLater(b, i);
      }
      TunnelFinds(garbage[1..], t, tail);
    }
  }

  lemma Encoded(t: TunnelFrame)
    ensures |TunnelEncode(t)| == 1 + |t.frame|
  {
  }

  /** It never skips more: what it emits first from any input lies at the first offset where a frame is. */
  lemma {:induction false} TunnelFirst(b: seq<byte>) returns (i: nat)
    requires Run(TunnelStep, (), b).out != []
    ensures var t := Run(TunnelStep, (), b).out[0];
            && WellFormed(t.frame) && i + 1 + |t.frame| <= |b| && b[i..i + 1 + |t.frame|] == TunnelEncode(t)
            && forall k: nat :: k < i ==> !MayBegin(b, k)
    decreases |b|
  {
    hide TunnelStep, MayBegin, TunnelEncode, WellFormed;
    var t := TunnelStep((), b);
    TunnelDecides(b);
    if t.out != [] {
      i := 0;
      assert b[0..1 + |t.out[0].frame|] == b[..t.n];
    } else {
      RunSkips(TunnelStep, (), b, ());
      i := TunnelFirst(b[1..]);
      forall k: nat | k < i + 1 ensures !MayBegin(b, k) {
        if k > 0 {
          MayBeginLater(b, k - 1);
        }
      }
      SliceOfRest(b, 1, i + 1, 1 + |Run(TunnelStep, (), b[1..]).out[0].frame|);
      i := i + 1;
    }
  }

  // ---------------------------------------------------------------- the decoding loops

  /** `TunnelCodec::decode`: skip bytes until a frame or a shortage is at the front. */
  method TunnelDecode(src: seq<byte>) returns (item: Option<TunnelFrame>, rest: seq<byte>)
    ensures item.None? ==> Run(TunnelStep, (), src) == Result([], (), rest)
    ensures item.Some? ==>
              |rest| < |src| && Run(TunnelStep, (), src) == Prepend([item.value], Run(TunnelStep, (), rest))
  {
    rest := src;
    while true
      invariant |rest| <= |src|
      invariant Run(TunnelStep, (), src) == Run(TunnelStep, (), rest)
      decreases |rest|
    {
      if |rest| < 2 {
        return None, rest;
      }
      var frameLen := rest[1] as int;
      if frameLen < MESSAGE_LENGTH_MIN || frameLen > MESSAGE_LENGTH_MAX {
        RunSkips(TunnelStep, (), rest, ());
        rest := rest[1..];
        continue;
      }
      var total := 1 + frameLen;
      if |rest| < total {
        return None, rest;
      }
      if rest[total - 1] != SYNC {
        RunSkips(TunnelStep, (), rest, ());
        rest := rest[1..];
        continue;
      }
      return Some(TunnelFrame(rest[0], rest[1..total])), rest[total..];
    }
  }

  class KlipperFramer {
    var synced: bool

    constructor ()
      ensures !synced
    {
      synced := false;
    }

    /** `KlipperFramer::decode`: search for a sync byte when lost, then collect one frame. */
    method Decode(src: seq<byte>) returns (item: Option<seq<byte>>, rest: seq<byte>)
      modifies this
      ensures item.None? ==> Run(KlipperStep, old(synced), src) == Result([], synced, rest)
      ensures item.Some? ==> |rest| < |src|
      ensures item.Some? ==> Run(KlipperStep, old(synced), src) == Prepend([item.value], Run(KlipperStep, synced, rest))
    {
      hide Run, Prepend;
      rest := src;
      while true
        invariant |rest| <= |src|
        invariant Run(KlipperStep, old(synced), src) == Run(KlipperStep, synced, rest)
        decreases |rest|
      {
        if rest == [] {
          RunWaits(KlipperStep, synced, rest);
          return None, rest;
        }
        if !synced {
          var pos := SyncPosition(rest);
          FramerIgnoresNoise(rest[..pos], rest[pos..]);
          assert rest == rest[..pos] + rest[pos..];
          if pos == |rest| {
            rest := [];
            RunWaits(KlipperStep, synced, rest);
            return None, rest;
          }
          assert rest[pos..][1..] == rest[pos + 1..];
          RunSkips(KlipperStep, false, rest[pos..], true);
          rest, synced := rest[pos + 1..], true;
          continue;
        }
        if rest[0] == SYNC {
          RunSkips(KlipperStep, true, rest, true);
          rest := rest[1..];
          continue;
        }
        var frameLen := rest[0] as int;
        if frameLen < MESSAGE_LENGTH_MIN || frameLen > MESSAGE_LENGTH_MAX {
          RunSkips(KlipperStep, true, rest, false);
          rest, synced := rest[1..], false;
          continue;
        }
        if |rest| < frameLen {
          RunWaits(KlipperStep, synced, rest);
          return None, rest;
        }
        if rest[frameLen - 1] != SYNC {
          RunSkips(KlipperStep, true, rest, false);
          rest, synced := rest[1..], false;
          continue;
        }
        RunEmits(KlipperStep, synced, rest);
        return Some(rest[..frameLen]), rest[frameLen..];
      }
    }

    /** A framed read calls `decode` until it asks for more input. */
    method DecodeAll(src: seq<byte>) returns (items: seq<seq<byte>>, rest: seq<byte>)
      modifies this
      ensures Run(KlipperStep, old(synced), src) == Result(items, synced, rest)
    {
      items, rest := [], src;
      PrependNothing(Run(KlipperStep, synced, rest));
      while true
        invariant Run(KlipperStep, old(synced), src) == Prepend(items, Run(KlipperStep, synced, rest))
        decreases |rest|
      {
        var item, more := Decode(rest);
        if item.None? {
          rest := more;
          break;
        }
        PrependPrepend(items, [item.value], Run(KlipperStep, synced, more));
        items, rest := items + [item.value], more;
      }
    }
  }

  /** The first sync byte, or the length when there is none. */
  method SyncPosition(b: seq<byte>) returns (pos: nat)
    ensures pos <= |b| && SYNC !in b[..pos]
    ensures pos < |b| ==> b[pos] == SYNC
  {
    pos := 0;
    while pos < |b| && b[pos] != SYNC
      invariant pos <= |b| && SYNC !in b[..pos]
    {
      pos := pos + 1;
    }
  }

  /** `PayloadTunnelCodec::decode`. */
  method PayloadDecode(src: seq<byte>) returns (item: Option<PayloadFrame>, rest: seq<byte>)
    ensures item.None? ==> Run(PayloadStep, (), src) == Result([], (), rest)
    ensures item.Some? ==>
              |rest| < |src| && Run(PayloadStep, (), src) == Prepend([item.value], Run(PayloadStep, (), rest))
  {
    if |src| < 2 {
      return None, src;
    }
    var total := 2 + src[1] as int;
    if |src| < total {
      return None, src;
    }
    return Some(PayloadFrame(src[0], src[2..total])), src[total..];
  }

  // ---------------------------------------------------------------- relay composition

  /** The frames of one channel, in order. */
  function OfChannel(ts: seq<TunnelFrame>, ch: byte): seq<seq<byte>> {
    if ts == [] then []
    else (if ts[0].chId == ch then [ts[0].frame] else []) + OfChannel(ts[1..], ch)
  }

  lemma {:induction false} OfChannelGrows(a: seq<TunnelFrame>, b: seq<TunnelFrame>, ch: byte)
    ensures OfChannel(a + b, ch) == OfChannel(a, ch) + OfChannel(b, ch)
    decreases |a|
  {
    if a == [] {
      assert a + b == b;
    } else {
      assert (a + b)[0] == a[0] && (a + b)[1..] == a[1..] + b;
      OfChannelGrows(a[1..], b, ch);
      Assoc(if a[0].chId == ch then [a[0].frame] else [], OfChannel(a[1..], ch), OfChannel(b, ch));
    }
  }

  lemma {:induction false} FrameOfItsChannel(ts: seq<TunnelFrame>, i: nat)
    requires i < |ts|
    ensures ts[i].frame in OfChannel(ts, ts[i].chId)
    decreases |ts|
  {
    if i > 0 {
      FrameOfItsChannel(ts[1..], i - 1);
    }
  }

  /** `mixed` interleaves what the framers of the channels produced from their serial inputs. */
  ghost predicate Interleaves(mixed: seq<TunnelFrame>, inputs: map<byte, seq<byte>>) {
    && (forall i :: 0 <= i < |mixed| ==> mixed[i].chId in inputs)
    && forall ch :: ch in inputs ==> OfChannel(mixed, ch) == Run(KlipperStep, false, inputs[ch]).out
  }

  /** The relay as a whole: whatever bytes the serial ports carry, however the channels interleave and
      however the tunnel bytes are chunked, what has been demultiplexed for a channel is a prefix of the
      frames its framer produced, and all of them once every tunnel byte has arrived. */
  lemma RelayDelivers(
      mixed: seq<TunnelFrame>, inputs: map<byte, seq<byte>>, chunks: seq<seq<byte>>, inFlight: seq<byte>, ch: byte)
    requires Interleaves(mixed, inputs) && ch in inputs
    requires Flat(chunks) + inFlight == Flat(TunnelEncodeAll(mixed))
    ensures var got := OfChannel(Feed(TunnelStep, Result([], (), []), chunks).out, ch);
            var sent := Run(KlipperStep, false, inputs[ch]).out;
            got <= sent && (inFlight == [] ==> got == sent)
  {
    MixedIsWellFormed(mixed, inputs);
    TunnelStreams(chunks);
    TunnelStable();
    var all := Flat(TunnelEncodeAll(mixed));
    TunnelInverts(mixed, []);
    assert all + [] == all && mixed + [] == mixed;
    assert Run(TunnelStep, (), []) == Result([], (), []);
    var out := Run(TunnelStep, (), Flat(chunks)).out;
    RunGrows(TunnelStep, (), Flat(chunks), inFlight);
    assert out <= mixed;
    OfChannelGrows(out, mixed[|out|..], ch);
    assert mixed == out + mixed[|out|..];
    if inFlight == [] {
      assert Flat(chunks) == all;
    }
  }

  lemma MixedIsWellFormed(mixed: seq<TunnelFrame>, inputs: map<byte, seq<byte>>)
    requires Interleaves(mixed, inputs)
    ensures forall i :: 0 <= i < |mixed| ==> WellFormed(mixed[i].frame)
  {
    forall i | 0 <= i < |mixed| ensures WellFormed(mixed[i].frame) {
      FrameOfItsChannel(mixed, i);
      FramerEmitsWellFormed(false, inputs[mixed[i].chId]);
    }
  }
}
