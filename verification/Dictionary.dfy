/** Transfer of the MCU dictionaries: fragmentation by the exporter, reassembly by the host from any
    interleaving of channels, and the paged look-up that Klipper reads it with. */
module Dictionary {
  import opened Bytes
  import opened Streaming
  import opened KlipperCodecs

  const CTRL_CH: byte := 0xFF
  const CTRL_DICT_FRAG: byte := 0x01
  const CTRL_DICT_DONE: byte := 0x02
  const DICT_FRAG_MAX := 253

  // ---------------------------------------------------------------- fragmentation

  predicate IsFragment(m: seq<byte>, ch: byte) {
    2 < |m| <= 2 + DICT_FRAG_MAX && m[0] == CTRL_DICT_FRAG && m[1] == ch
  }

  /** The dictionary bytes carried by a list of fragments. */
  function Carried(ms: seq<seq<byte>>): seq<byte> {
    if ms == [] then [] else (if |ms[0]| < 2 then [] else ms[0][2..]) + Carried(ms[1..])
  }

  /** Fragments carrying exactly `dict`, then the end marker. */
  predicate IsTransfer(ms: seq<seq<byte>>, ch: byte, dict: seq<byte>) {
    && ms != []
    && var frags := ms[..|ms| - 1];
       && (forall i :: 0 <= i < |frags| ==> IsFragment(frags[i], ch))
       && Carried(frags) == dict
       && ms[|ms| - 1] == [CTRL_DICT_DONE, ch]
  }

  lemma {:induction false} CarriedAppend(ms: seq<seq<byte>>, m: seq<byte>)
    requires |m| >= 2
    ensures Carried(ms + [m]) == Carried(ms) + m[2..]
  {
    if ms == [] {
      assert [m][1..] == [];
    } else {
      assert (ms + [m])[1..] == ms[1..] + [m];
      CarriedAppend(ms[1..], m);
      Assoc(if |ms[0]| < 2 then [] else ms[0][2..], Carried(ms[1..]), m[2..]);
    }
  }

  function Payloads(ps: seq<PayloadFrame>): seq<seq<byte>> {
    seq(|ps|, i requires 0 <= i < |ps| => ps[i].payload)
  }

  /** `send_dictionary`: the messages are a transfer of the dictionary on the control channel, and every
      one of them fits the 255-byte payload tunnel. */
  method SendDictionary(ch: byte, dict: seq<byte>) returns (sent: seq<PayloadFrame>)
    ensures IsTransfer(Payloads(sent), ch, dict)
    ensures forall i :: 0 <= i < |sent| ==> sent[i].chId == CTRL_CH && PayloadEncode(sent[i]).Some?
    ensures |sent| == (|dict| + DICT_FRAG_MAX - 1) / DICT_FRAG_MAX + 1
  {
    sent := [];
    var at := 0;
    while at < |dict|
      invariant 0 <= at <= |dict|
      invariant forall i :: 0 <= i < |sent| ==> sent[i].chId == CTRL_CH && IsFragment(sent[i].payload, ch)
      invariant Carried(Payloads(sent)) == dict[..at]
      invariant at == DICT_FRAG_MAX * |sent| ||
                (at == |dict| && DICT_FRAG_MAX * (|sent| - 1) < at < DICT_FRAG_MAX * |sent|)
    {
      var end := Min(at + DICT_FRAG_MAX, |dict|);
      var payload := [CTRL_DICT_FRAG, ch] + dict[at..end];
      CarriedAppend(Payloads(sent), payload);
      assert payload[2..] == dict[at..end] && dict[..at] + dict[at..end] == dict[..end];
      assert Payloads(sent + [PayloadFrame(CTRL_CH, payload)]) == Payloads(sent) + [payload];
      sent := sent + [PayloadFrame(CTRL_CH, payload)];
      at := end;
    }
    assert dict[..at] == dict;
    ghost var frags := Payloads(sent);
    sent := sent + [PayloadFrame(CTRL_CH, [CTRL_DICT_DONE, ch])];
    assert Payloads(sent)[..|sent| - 1] == frags;
  }

  // ---------------------------------------------------------------- reassembly

  /** Accumulating buffers and the dictionaries published so far. */
  datatype Gatherer = Gatherer(dicts: map<byte, seq<byte>>, published: map<byte, seq<byte>>)

  function Accumulated(g: Gatherer, ch: byte): seq<byte> {
    if ch in g.dicts then g.dicts[ch] else []
  }

  function GatherStep(watched: set<byte>, g: Gatherer, m: seq<byte>): Gatherer {
    if |m| < 2 then g
    else if m[0] == CTRL_DICT_FRAG then
      g.(dicts := g.dicts[m[1] := Accumulated(g, m[1]) + m[2..]])
    else if m[0] == CTRL_DICT_DONE then
      Gatherer(g.dicts - {m[1]},
               if m[1] in watched then g.published[m[1] := Accumulated(g, m[1])] else g.published)
    else g
  }

  function Gather(watched: set<byte>, g: Gatherer, ms: seq<seq<byte>>): Gatherer
    decreases |ms|
  {
    if ms == [] then g else Gather(watched, GatherStep(watched, g, ms[0]), ms[1..])
  }

  /** `gather_dictionary`, over the control payloads received until the sender goes away. */
  method GatherDictionary(ms: seq<seq<byte>>, watched: set<byte>) returns (published: map<byte, seq<byte>>)
    ensures published == Gather(watched, Gatherer(map[], map[]), ms).published
  {
    var dicts: map<byte, seq<byte>> := map[];
    published := map[];
    for i := 0 to |ms|
      invariant Gather(watched, Gatherer(dicts, published), ms[i..]) == Gather(watched, Gatherer(map[], map[]), ms)
    {
      assert ms[i..][0] == ms[i] && ms[i..][1..] == ms[i + 1..];
      var m := ms[i];
      if |m| < 2 {
        continue;
      }
      if m[0] == CTRL_DICT_FRAG {
        var sofar := if m[1] in dicts then dicts[m[1]] else [];
        dicts := dicts[m[1] := sofar + m[2..]];
      } else if m[0] == CTRL_DICT_DONE {
        var dict := if m[1] in dicts then dicts[m[1]] else [];
        dicts := dicts - {m[1]};
        if m[1] in watched {
          published := published[m[1] := dict];
        }
      }
    }
  }

  predicate Concerns(m: seq<byte>, ch: byte) {
    |m| >= 2 && m[1] == ch && (m[0] == CTRL_DICT_FRAG || m[0] == CTRL_DICT_DONE)
  }

  /** The control messages of one channel, in order. */
  function Project(ms: seq<seq<byte>>, ch: byte): seq<seq<byte>> {
    if ms == [] then [] else (if Concerns(ms[0], ch) then [ms[0]] else []) + Project(ms[1..], ch)
  }

  ghost predicate SameFor(g: Gatherer, h: Gatherer, ch: byte) {
    && Accumulated(g, ch) == Accumulated(h, ch)
    && (ch in g.published <==> ch in h.published)
    && (ch in g.published ==> g.published[ch] == h.published[ch])
  }

  /** What the gatherer knows about a channel depends on that channel's messages only. */
  lemma {:induction false} GatherProjects(watched: set<byte>, g: Gatherer, h: Gatherer, ms: seq<seq<byte>>, ch: byte)
    requires SameFor(g, h, ch)
    ensures SameFor(Gather(watched, g, ms), Gather(watched, h, Project(ms, ch)), ch)
    decreases |ms|
  {
    if ms != [] {
      var g' := GatherStep(watched, g, ms[0]);
      if Concerns(ms[0], ch) {
        var h' := GatherStep(watched, h, ms[0]);
        assert Project(ms, ch)[1..] == Project(ms[1..], ch);
        GatherProjects(watched, g', h', ms[1..], ch);
      } else {
        assert Project(ms, ch) == Project(ms[1..], ch);
        GatherProjects(watched, g', h, ms[1..], ch);
      }
    }
  }

  lemma {:induction false} GatherFragments(
      watched: set<byte>, g: Gatherer, ms: seq<seq<byte>>, ch: byte, last: seq<byte>)
    requires forall i :: 0 <= i < |ms| ==> IsFragment(ms[i], ch)
    requires ch in watched && last == [CTRL_DICT_DONE, ch]
    ensures var r := Gather(watched, g, ms + [last]);
            ch in r.published && r.published[ch] == Accumulated(g, ch) + Carried(ms)
    decreases |ms|
  {
    if ms == [] {
      var r := GatherStep(watched, g, last);
      assert [last][1..] == [];
      assert (ms + [last])[0] == last && (ms + [last])[1..] == [];
      assert Accumulated(g, ch) + Carried(ms) == Accumulated(g, ch);
    } else {
      var g' := GatherStep(watched, g, ms[0]);
      assert (ms + [last])[0] == ms[0] && (ms + [last])[1..] == ms[1..] + [last];
      GatherFragments(watched, g', ms[1..], ch, last);
      assert Accumulated(g', ch) + Carried(ms[1..]) == Accumulated(g, ch) + Carried(ms);
    }
  }

  /** A watched channel whose messages form a transfer is published exactly, whatever else is
      interleaved with them. */
  lemma TransferPublishes(watched: set<byte>, ms: seq<seq<byte>>, ch: byte, dict: seq<byte>)
    requires ch in watched && IsTransfer(Project(ms, ch), ch, dict)
    ensures var r := Gather(watched, Gatherer(map[], map[]), ms);
            ch in r.published && r.published[ch] == dict
  {
    var start := Gatherer(map[], map[]);
    var own := Project(ms, ch);
    var frags := own[..|own| - 1];
    GatherProjects(watched, start, start, ms, ch);
    GatherFragments(watched, start, frags, ch, [CTRL_DICT_DONE, ch]);
    assert frags + [[CTRL_DICT_DONE, ch]] == own;
    assert Accumulated(start, ch) + dict == dict;
  }

  /** Several transfers, one after the other, of the dictionaries `dicts`. */
  predicate AreTransfers(ms: seq<seq<byte>>, parts: seq<seq<seq<byte>>>, ch: byte, dicts: seq<seq<byte>>) {
    && ms == Flat(parts) && |parts| == |dicts|
    && forall i :: 0 <= i < |parts| ==> IsTransfer(parts[i], ch, dicts[i])
  }

  /** After a transfer nothing is left over for the next one. */
  lemma OneTransfer(watched: set<byte>, g: Gatherer, ms: seq<seq<byte>>, ch: byte, dict: seq<byte>)
    requires ch in watched && IsTransfer(ms, ch, dict) && Accumulated(g, ch) == []
    ensures var r := Gather(watched, g, ms);
            ch in r.published && r.published[ch] == dict && Accumulated(r, ch) == []
  {
    var frags, last := ms[..|ms| - 1], [CTRL_DICT_DONE, ch];
    GatherFragments(watched, g, frags, ch, last);
    assert frags + [last] == ms;
    assert [] + dict == dict;
    GatherAppend(watched, g, frags, [last]);
    assert [last][1..] == [];
  }

  lemma {:induction false} GatherAppend(watched: set<byte>, g: Gatherer, p: seq<seq<byte>>, q: seq<seq<byte>>)
    ensures Gather(watched, g, p + q) == Gather(watched, Gather(watched, g, p), q)
    decreases |p|
  {
    hide GatherStep;
    if p == [] {
      assert p + q == q;
    } else {
      assert (p + q)[0] == p[0] && (p + q)[1..] == p[1..] + q;
      GatherAppend(watched, GatherStep(watched, g, p[0]), p[1..], q);
    }
  }

  lemma {:induction false} TransfersGather(
      watched: set<byte>, g: Gatherer, ms: seq<seq<byte>>, parts: seq<seq<seq<byte>>>, ch: byte, dicts: seq<seq<byte>>)
    requires ch in watched && AreTransfers(ms, parts, ch, dicts) && parts != [] && Accumulated(g, ch) == []
    ensures var r := Gather(watched, g, ms); ch in r.published && r.published[ch] == dicts[|dicts| - 1]
    decreases |parts|
  {
    hide IsTransfer, Gather;
    OneTransfer(watched, g, parts[0], ch, dicts[0]);
    GatherAppend(watched, g, parts[0], Flat(parts[1..]));
    if |parts| > 1 {
      TransfersGather(watched, Gather(watched, g, parts[0]), Flat(parts[1..]), parts[1..], ch, dicts[1..]);
    } else {
      assert parts[1..] == [] && Flat(parts[1..]) == [];
      assert parts[0] + [] == parts[0];
      GatherNothing(watched, Gather(watched, g, parts[0]));
    }
  }

  lemma GatherNothing(watched: set<byte>, g: Gatherer)
    ensures Gather(watched, g, []) == g
  {
  }

  /** A channel that is transferred several times ends up with the last dictionary, unmixed. */
  lemma LastTransferPublishes(
      watched: set<byte>, ms: seq<seq<byte>>, parts: seq<seq<seq<byte>>>, ch: byte, dicts: seq<seq<byte>>)
    requires ch in watched && AreTransfers(Project(ms, ch), parts, ch, dicts) && parts != []
    ensures var r := Gather(watched, Gatherer(map[], map[]), ms);
            ch in r.published && r.published[ch] == dicts[|dicts| - 1]
  {
    hide IsTransfer, Gather;
    var start := Gatherer(map[], map[]);
    GatherProjects(watched, start, start, ms, ch);
    TransfersGather(watched, start, Project(ms, ch), parts, ch, dicts);
  }

  /** Only watched channels are ever published. */
  lemma {:induction false} OnlyWatched(watched: set<byte>, g: Gatherer, ms: seq<seq<byte>>)
    requires g.published.Keys <= watched
    ensures Gather(watched, g, ms).published.Keys <= watched
    decreases |ms|
  {
    if ms != [] {
      OnlyWatched(watched, GatherStep(watched, g, ms[0]), ms[1..]);
    }
  }

  // ---------------------------------------------------------------- over the payload tunnel

  function EncodeAll(ps: seq<PayloadFrame>): seq<seq<byte>>
    requires forall i :: 0 <= i < |ps| ==> PayloadEncode(ps[i]).Some?
  {
    seq(|ps|, i requires 0 <= i < |ps| => PayloadEncode(ps[i]).value)
  }

  lemma PayloadInverts(ps: seq<PayloadFrame>)
    requires forall i :: 0 <= i < |ps| ==> PayloadEncode(ps[i]).Some?
    ensures Run(PayloadStep, (), Flat(EncodeAll(ps))) == Result(ps, (), [])
  {
    PayloadStable();
    var words := EncodeAll(ps);
    forall i | 0 <= i < |ps| ensures words[i] != [] && PayloadStep((), words[i]) == Take(|words[i]|, (), [ps[i]]) {
      var p := ps[i].payload;
      assert words[i] == [ps[i].chId, |p| as byte] + p;
      assert words[i][2..] == p && words[i][2..2 + |p|] == p;
    }
    RunInverts(PayloadStep, (), words, ps, []);
    assert Flat(words) + [] == Flat(words) && ps + [] == ps;
    RunWaits(PayloadStep, (), []);
  }

  /** The control payloads among the received frames. */
  function Control(ps: seq<PayloadFrame>): seq<seq<byte>> {
    if ps == [] then [] else (if ps[0].chId == CTRL_CH then [ps[0].payload] else []) + Control(ps[1..])
  }

  lemma {:induction false} ControlOnly(sent: seq<PayloadFrame>, ch: byte)
    requires forall i :: 0 <= i < |sent| ==> sent[i].chId == CTRL_CH && Concerns(sent[i].payload, ch)
    ensures Project(Control(sent), ch) == Payloads(sent)
    decreases |sent|
  {
    hide Concerns;
    if sent != [] {
      ControlOnly(sent[1..], ch);
      assert Control(sent) == [sent[0].payload] + Control(sent[1..]);
      assert Control(sent)[1..] == Control(sent[1..]);
      assert Payloads(sent) == [sent[0].payload] + Payloads(sent[1..]);
    }
  }

  /** What one exporter sends for a dictionary is received as a transfer of it. */
  lemma SentIsTransfer(sent: seq<PayloadFrame>, ch: byte, dict: seq<byte>)
    requires IsTransfer(Payloads(sent), ch, dict)
    requires forall i :: 0 <= i < |sent| ==> sent[i].chId == CTRL_CH
    ensures IsTransfer(Project(Control(sent), ch), ch, dict)
  {
    var ms := Payloads(sent);
    forall i | 0 <= i < |sent| ensures Concerns(sent[i].payload, ch) {
      assert ms[i] == sent[i].payload;
      if i < |ms| - 1 {
        assert ms[..|ms| - 1][i] == ms[i];
      }
    }
    ControlOnly(sent, ch);
  }

  /** Dictionary transfer end to end: for any frames sent over the tunnel and any chunking of its bytes,
      every watched channel whose control messages form a transfer of its dictionary gets exactly it. */
  lemma DictionariesArrive(
      sent: seq<PayloadFrame>, chunks: seq<seq<byte>>, dicts: map<byte, seq<byte>>, watched: set<byte>)
    requires forall i :: 0 <= i < |sent| ==> PayloadEncode(sent[i]).Some?
    requires Flat(chunks) == Flat(EncodeAll(sent))
    requires forall ch :: ch in dicts ==> ch in watched && IsTransfer(Project(Control(sent), ch), ch, dicts[ch])
    ensures var got := Feed(PayloadStep, Result([], (), []), chunks).out;
            var r := Gather(watched, Gatherer(map[], map[]), Control(got));
            forall ch :: ch in dicts ==> ch in r.published && r.published[ch] == dicts[ch]
  {
    hide IsTransfer, Project, Gather, Control;
    PayloadStable();
    FeedFromReset(PayloadStep, (), chunks);
    PayloadInverts(sent);
    forall ch | ch in dicts
      ensures var r := Gather(watched, Gatherer(map[], map[]), Control(sent));
              ch in r.published && r.published[ch] == dicts[ch]
    {
      TransferPublishes(watched, Control(sent), ch, dicts[ch]);
    }
  }

  // ---------------------------------------------------------------- paged look-up

  /** The chunk returned by `identify(offset, count)`. */
  function Identify(dict: seq<byte>, offset: nat, count: nat): seq<byte> {
    var end := Min(offset + count, |dict|);
    if offset <= |dict| then dict[offset..end] else []
  }

  /** A reader that advances its offset by the length of each chunk. */
  function ReadPages(dict: seq<byte>, offset: nat, counts: seq<nat>): seq<byte>
    decreases |counts|
  {
    if counts == [] then []
    else
      var chunk := Identify(dict, offset, counts[0]);
      chunk + ReadPages(dict, offset + |chunk|, counts[1..])
  }

  function Sum(counts: seq<nat>): nat {
    if counts == [] then 0 else counts[0] + Sum(counts[1..])
  }

  lemma FirstPage(dict: seq<byte>, offset: nat, counts: seq<nat>)
    requires offset <= |dict| && counts != []
    ensures var mid := Min(offset + counts[0], |dict|);
            ReadPages(dict, offset, counts) == dict[offset..mid] + ReadPages(dict, mid, counts[1..])
  {
    hide Sum;
    var mid := Min(offset + counts[0], |dict|);
    assert Identify(dict, offset, counts[0]) == dict[offset..mid];
    assert offset + |dict[offset..mid]| == mid;
  }

  lemma SumStep(counts: seq<nat>)
    requires counts != []
    ensures Sum(counts) == counts[0] + Sum(counts[1..])
  {
  }

  /** Whatever page sizes the reader asks for, it reads the dictionary from its offset on, and stops
      exactly at its end. */
  lemma {:induction false} PagesReconstruct(dict: seq<byte>, offset: nat, counts: seq<nat>)
    requires offset <= |dict|
    ensures ReadPages(dict, offset, counts) == dict[offset..Min(offset + Sum(counts), |dict|)]
    decreases |counts|
  {
    hide Sum, ReadPages;
    if counts == [] {
      NoPages(dict, offset);
    } else {
      var mid := Min(offset + counts[0], |dict|);
      SumStep(counts);
      FirstPage(dict, offset, counts);
      PagesReconstruct(dict, mid, counts[1..]);
      SliceJoins(dict, offset, mid, Min(offset + Sum(counts), |dict|));
    }
  }

  lemma NoPages(dict: seq<byte>, offset: nat)
    ensures ReadPages(dict, offset, []) == [] && Sum([]) == 0
  {
  }

  lemma SliceJoins(s: seq<byte>, i: nat, j: nat, k: nat)
    requires i <= j <= k <= |s|
    ensures s[i..j] + s[j..k] == s[i..k]
  {
  }

  lemma {:induction false} SumOfPositive(counts: seq<nat>)
    requires forall i :: 0 <= i < |counts| ==> counts[i] > 0
    ensures Sum(counts) >= |counts|
  {
    if counts != [] {
      SumOfPositive(counts[1..]);
    }
  }

  /** Paging from the start with any positive counts reconstructs the dictionary once as many pages as
      bytes have been asked for, and an empty page is returned exactly at (or past) the end. */
  lemma PagingCompletes(dict: seq<byte>, counts: seq<nat>)
    requires (forall i :: 0 <= i < |counts| ==> counts[i] > 0) && |counts| >= |dict|
    ensures ReadPages(dict, 0, counts) == dict
    ensures forall offset: nat, count: nat :: count > 0 ==> (Identify(dict, offset, count) == [] <==> offset >= |dict|)
  {
    PagesReconstruct(dict, 0, counts);
    SumOfPositive(counts);
    assert dict[0..|dict|] == dict;
    forall offset: nat, count: nat | count > 0
      ensures Identify(dict, offset, count) == [] <==> offset >= |dict|
    {
      if offset < |dict| {
        assert Identify(dict, offset, count)[0] == dict[offset];
      }
    }
  }
}
