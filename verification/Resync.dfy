/** A receiver that starts, or is cut off, in the middle of a frame: old bytes of any kind are ahead of a
    stream of whole frames.  Unless a frame made of bytes from both is accepted, the receiver finds the
    start of the stream and reads every frame of it. */
module Resync {
  import opened Bytes
  import opened Streaming
  import opened LinkFrame

  /** `bytes` are `stale` bytes of any kind followed by the frames `pend`. */
  ghost predicate Flow(bytes: seq<byte>, stale: nat, pend: seq<Frame>) {
    stale <= |bytes| && bytes[stale..] == Flat(BuildAll(pend)) && Fit(pend)
  }

  function Less(stale: nat, n: int): nat {
    if 0 <= n < stale then stale - n else if n < 0 then stale else 0
  }

  /** A frame that has not arrived completely is waited for. */
  lemma PartWaits(p: seq<byte>, f: Frame)
    requires |f.payload| <= MAX_PAYLOAD && p <= Build(f) && |p| < |Build(f)|
    ensures !Takes(LinkStep, (), p)
  {
    hide LinkStep, Build;
    var w := Build(f);
    BuildDecodes(f);
    LinkStepDecided((), p, w[|p|..]);
    assert p + w[|p|..] == w;
  }

  /** In step with the stream: what is emitted is a prefix of the frames. */
  lemma {:induction false} ScanSynced(p: seq<byte>, tail: seq<byte>, pend: seq<Frame>) returns (m: nat)
    requires p + tail == Flat(BuildAll(pend)) && Fit(pend)
    ensures m <= |pend| && Scan(p).out == pend[..m] && Scan(p).rest + tail == Flat(BuildAll(pend[m..]))
    decreases |pend|
  {
    hide LinkStep, Build, Scan, Flat;
    if pend == [] {
      m := 0;
      NothingFlat();
      assert BuildAll(pend) == BuildAll([]);
      assert p == [];
      EmptyScan();
    } else {
      var w, more := Build(pend[0]), pend[1..];
      FirstBuilt(pend);
      if |p| < |w| {
        m := 0;
        assert p <= w by {
          assert p == (p + tail)[..|p|] && (w + Flat(BuildAll(more)))[..|p|] == w[..|p|];
        }
        PartWaits(p, pend[0]);
        ScanStays(p);
        assert pend[0..] == pend;
      } else {
        var q := p[|w|..];
        assert w == p[..|w|] && q + tail == Flat(BuildAll(more)) by {
          assert w == (p + tail)[..|w|] && q + tail == (p + tail)[|w|..];
        }
        ScanFirst(p, pend[0]);
        m := ScanSynced(q, tail, more);
        assert [pend[0]] + more[..m] == pend[..m + 1] && more[m..] == pend[m + 1..];
        m := m + 1;
      }
    }
  }

  lemma FirstBuilt(pend: seq<Frame>)
    requires pend != []
    ensures Flat(BuildAll(pend)) == Build(pend[0]) + Flat(BuildAll(pend[1..]))
  {
    hide Build;
    assert BuildAll(pend)[1..] == BuildAll(pend[1..]);
  }

  lemma ScanStays(p: seq<byte>)
    requires !Takes(LinkStep, (), p)
    ensures Scan(p) == Result([], (), p)
  {
  }

  lemma ScanFirst(p: seq<byte>, f: Frame)
    requires |f.payload| <= MAX_PAYLOAD && Build(f) <= p
    ensures Scan(p) == Prepend([f], Scan(p[|Build(f)|..]))
  {
    hide LinkStep, Build;
    var w := Build(f);
    BuildDecodes(f);
    LinkStepDecided((), w, p[|w|..]);
    assert p == w + p[|w|..];
  }

  lemma ScanTakes(p: seq<byte>)
    requires Takes(LinkStep, (), p)
    ensures var t := LinkStep((), p); Scan(p) == Prepend(t.out, Scan(p[t.n..]))
  {
    assert LinkStep((), p).state == ();
  }

  /** Behind old bytes: first come `k` stale frames, whatever they are, and then a prefix of the stream. */
  lemma {:induction false} ScanCrosses(p: seq<byte>, tail: seq<byte>, stale: nat, pend: seq<Frame>)
    returns (k: nat, m: nat)
    requires Flow(p + tail, stale, pend) && NotOverlapped(p, stale)
    ensures k <= |Scan(p).out| && m <= |pend| && Scan(p).out[k..] == pend[..m]
    ensures |Scan(p).rest| <= |p| && Flow(Scan(p).rest + tail, Less(stale, |p| - |Scan(p).rest|), pend[m..])
    ensures k + Less(stale, |p| - |Scan(p).rest|) <= stale
    ensures m > 0 ==> Less(stale, |p| - |Scan(p).rest|) == 0
    decreases |p|
  {
    hide LinkStep, Build, Scan, BuildAll, Flat;
    if stale == 0 {
      k := 0;
      assert (p + tail)[0..] == p + tail;
      m := ScanSynced(p, tail, pend);
      ScanShrinks(p);
      assert (Scan(p).rest + tail)[0..] == Scan(p).rest + tail;
    } else if !Takes(LinkStep, (), p) {
      k, m := 0, 0;
      ScanStays(p);
      assert pend[0..] == pend;
    } else {
      var t := LinkStep((), p);
      forall g | AcceptsAt(p, 0, g) ensures !(stale < |Build(g)|) {
      }
      StepReaches(p, stale);
      var q := p[t.n..];
      forall i: nat, g | AcceptsAt(q, i, g) ensures !(i < stale - t.n < i + |Build(g)|) {
        assert AcceptsAt(p, i + t.n, g);
      }
      assert (q + tail)[stale - t.n..] == (p + tail)[stale..];
      k, m := ScanCrosses(q, tail, stale - t.n, pend);
      ScanTakes(p);
      if t.out != [] {
        AcceptedIsBuilt(p);
      }
      var more := Scan(q).out;
      assert (t.out + more)[|t.out| + k..] == more[k..];
      k := |t.out| + k;
    }
  }

  lemma ScanShrinks(p: seq<byte>)
    ensures |Scan(p).rest| <= |p|
  {
    RunSettles(LinkStep, (), p);
  }

  /** Old bytes cannot hold a receiver up for long: once MAX_FRAME bytes behind them have arrived, they have
      been passed. */
  lemma OldBytesPassed(p: seq<byte>, stale: nat)
    requires |p| >= stale + MAX_FRAME
    ensures |Scan(p).rest| <= |p| && Less(stale, |p| - |Scan(p).rest|) == 0
  {
    hide Scan;
    ScanShrinks(p);
    ResidualBound(p);
  }
}
