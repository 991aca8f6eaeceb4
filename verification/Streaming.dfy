/** Streaming decoders: a step function looks at the front of the buffered bytes and either waits for
    more input or consumes a non-empty prefix, possibly emitting items.  Everything that holds of any
    decoder whose decisions do not change when more bytes arrive is proved here once. */
module Streaming {
  import opened Bytes

  datatype Outcome<+S, +F> = Wait | Take(n: nat, state: S, out: seq<F>)

  /** Items emitted, decoder state and undecided bytes after running to exhaustion. */
  datatype Result<+S, +F> = Result(out: seq<F>, state: S, rest: seq<byte>)

  /** A decoder that takes nothing, or more than there is, is treated as waiting. */
  predicate Takes<S, F>(step: (S, seq<byte>) -> Outcome<S, F>, s: S, b: seq<byte>) {
    step(s, b).Take? && 0 < step(s, b).n <= |b|
  }

  function Run<S, F>(step: (S, seq<byte>) -> Outcome<S, F>, s: S, b: seq<byte>): Result<S, F>
    decreases |b|
  {
    if Takes(step, s, b) then
      var t := step(s, b);
      Prepend(t.out, Run(step, t.state, b[t.n..]))
    else
      Result([], s, b)
  }

  function Prepend<S, F>(out: seq<F>, r: Result<S, F>): Result<S, F> {
    r.(out := out + r.out)
  }

  /** Continue a finished run with more input. */
  function Continue<S, F>(step: (S, seq<byte>) -> Outcome<S, F>, r: Result<S, F>, b: seq<byte>): Result<S, F> {
    Prepend(r.out, Run(step, r.state, r.rest + b))
  }

  /** Feed the chunks one after the other, running to exhaustion after each. */
  function Feed<S, F>(step: (S, seq<byte>) -> Outcome<S, F>, r: Result<S, F>, chunks: seq<seq<byte>>): Result<S, F>
    decreases |chunks|
  {
    if chunks == [] then r else Feed(step, Continue(step, r, chunks[0]), chunks[1..])
  }

  /** A decision, once made, is not revised when `x` arrives behind `b`. */
  ghost predicate DecidedFor<S, F>(step: (S, seq<byte>) -> Outcome<S, F>, s: S, b: seq<byte>, x: seq<byte>) {
    Takes(step, s, b) ==> step(s, b + x) == step(s, b)
  }

  ghost predicate Stable<S(!new), F>(step: (S, seq<byte>) -> Outcome<S, F>) {
    forall s, b, x :: DecidedFor(step, s, b, x)
  }

  lemma PrependPrepend<S, F>(a: seq<F>, b: seq<F>, r: Result<S, F>)
    ensures Prepend(a, Prepend(b, r)) == Prepend(a + b, r)
  {
    assert a + (b + r.out) == a + b + r.out;
  }

  lemma PrependNothing<S, F>(r: Result<S, F>)
    ensures Prepend([], r) == r
  {
    assert [] + r.out == r.out;
  }

  lemma RunWaits<S, F>(step: (S, seq<byte>) -> Outcome<S, F>, s: S, b: seq<byte>)
    requires step(s, b).Wait?
    ensures Run(step, s, b) == Result([], s, b)
  {
  }

  lemma RunEmits<S, F>(step: (S, seq<byte>) -> Outcome<S, F>, s: S, b: seq<byte>)
    requires Takes(step, s, b)
    ensures var t := step(s, b); Run(step, s, b) == Prepend(t.out, Run(step, t.state, b[t.n..]))
  {
  }

  lemma RunSkips<S, F>(step: (S, seq<byte>) -> Outcome<S, F>, s: S, b: seq<byte>, s': S)
    requires b != [] && step(s, b) == Take(1, s', [])
    ensures Run(step, s, b) == Run(step, s', b[1..])
  {
    PrependNothing(Run(step, s', b[1..]));
  }

  /** What a run leaves behind is undecided: running again changes nothing. */
  lemma {:induction false} RunSettles<S, F>(step: (S, seq<byte>) -> Outcome<S, F>, s: S, b: seq<byte>)
    ensures var r := Run(step, s, b);
            !Takes(step, r.state, r.rest) && |r.rest| <= |b| && r.rest == b[|b| - |r.rest|..]
    decreases |b|
  {
    if Takes(step, s, b) {
      var t := step(s, b);
      RunSettles(step, t.state, b[t.n..]);
    }
  }

  /** Chunk independence: splitting the input anywhere changes neither items, state nor residual. */
  lemma {:induction false} RunSplit<S(!new), F>(step: (S, seq<byte>) -> Outcome<S, F>, s: S, a: seq<byte>, b: seq<byte>)
    requires Stable(step)
    ensures Run(step, s, a + b) == Continue(step, Run(step, s, a), b)
    decreases |a|
  {
    if Takes(step, s, a) {
      var t := step(s, a);
      assert DecidedFor(step, s, a, b);
      assert (a + b)[t.n..] == a[t.n..] + b;
      RunSplit(step, t.state, a[t.n..], b);
      var r := Run(step, t.state, a[t.n..]);
      PrependPrepend(t.out, r.out, Run(step, r.state, r.rest + b));
    } else {
      PrependNothing(Run(step, s, a + b));
    }
  }

  /** Chunk independence for any list of chunks. */
  lemma {:induction false} FeedSplit<S(!new), F>(
      step: (S, seq<byte>) -> Outcome<S, F>, s: S, a: seq<byte>, chunks: seq<seq<byte>>)
    requires Stable(step)
    ensures Feed(step, Run(step, s, a), chunks) == Run(step, s, a + Flat(chunks))
    decreases |chunks|
  {
    if chunks == [] {
      assert a + Flat(chunks) == a;
    } else {
      RunSplit(step, s, a, chunks[0]);
      FeedSplit(step, s, a + chunks[0], chunks[1..]);
      assert a + chunks[0] + Flat(chunks[1..]) == a + Flat(chunks);
    }
  }

  lemma FeedFromReset<S(!new), F>(step: (S, seq<byte>) -> Outcome<S, F>, s: S, chunks: seq<seq<byte>>)
    requires Stable(step)
    ensures Feed(step, Result([], s, []), chunks) == Run(step, s, Flat(chunks))
  {
    assert Run(step, s, []) == Result([], s, []);
    FeedSplit(step, s, [], chunks);
    assert [] + Flat(chunks) == Flat(chunks);
  }

  /** More input never retracts an item. */
  lemma RunGrows<S(!new), F>(step: (S, seq<byte>) -> Outcome<S, F>, s: S, a: seq<byte>, b: seq<byte>)
    requires Stable(step)
    ensures Run(step, s, a).out <= Run(step, s, a + b).out
  {
    RunSplit(step, s, a, b);
  }

  /** `words[i]` is read back, whole, as the single item `items[i]`. */
  ghost predicate Decodes<S, F>(step: (S, seq<byte>) -> Outcome<S, F>, s: S, words: seq<seq<byte>>, items: seq<F>) {
    && |words| == |items|
    && forall i :: 0 <= i < |words| ==> words[i] != [] && step(s, words[i]) == Take(|words[i]|, s, [items[i]])
  }

  /** Printer/parser inversion: a concatenation of words is read back as exactly the list of items. */
  lemma {:induction false} RunInverts<S(!new), F>(
      step: (S, seq<byte>) -> Outcome<S, F>, s: S, words: seq<seq<byte>>, items: seq<F>, tail: seq<byte>)
    requires Stable(step) && Decodes(step, s, words, items)
    ensures Run(step, s, Flat(words) + tail) == Prepend(items, Run(step, s, tail))
    decreases |words|
  {
    if words == [] {
      assert Flat(words) + tail == tail;
      PrependNothing(Run(step, s, tail));
    } else {
      var w, later := words[0], Flat(words[1..]) + tail;
      assert Flat(words) + tail == w + later;
      assert DecidedFor(step, s, w, later);
      assert (w + later)[|w|..] == later;
      RunInverts(step, s, words[1..], items[1..], tail);
      PrependPrepend([items[0]], items[1..], Run(step, s, tail));
      assert [items[0]] + items[1..] == items;
    }
  }
}
