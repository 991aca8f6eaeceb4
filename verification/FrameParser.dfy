/** The receiver as it runs: bytes accumulate in a fixed array that is searched for the magic pair and
    shifted in place.  Its result is the naive scan of `LinkFrame`. */
module FrameParser {
  import opened Bytes
  import opened Streaming
  import opened LinkFrame

  const PARSER_BUF_CAP := MAX_FRAME + 64

  predicate MagicAt(b: seq<byte>, i: nat)
    requires i + 1 < |b|
  {
    b[i] == 0xAA && b[i + 1] == 0x55
  }

  /** The scan walks over any stretch that holds no magic pair. */
  lemma {:induction false} ScanSkips(b: seq<byte>, i: nat)
    requires i < |b| && forall j :: 0 <= j < i ==> !MagicAt(b, j)
    ensures Scan(b) == Scan(b[i..])
    decreases i
  {
    if i == 0 {
      assert b[0..] == b;
    } else {
      assert !MagicAt(b, 0);
      ScanStep(b);
      PrependNothing(Scan(b[1..]));
      assert forall j :: 0 <= j < i - 1 ==> MagicAt(b[1..], j) == MagicAt(b, j + 1);
      ScanSkips(b[1..], i - 1);
      assert b[1..][i - 1..] == b[i..];
    }
  }

  /** One step of the scan, unfolded. */
  lemma ScanStep(b: seq<byte>)
    ensures var t := LinkStep((), b);
            Scan(b) == if Takes(LinkStep, (), b) then Prepend(t.out, Scan(b[t.n..])) else Result([], (), b)
  {
    if Takes(LinkStep, (), b) {
      assert LinkStep((), b).state == ();
    }
  }

  /** After a rejected candidate the second magic byte cannot start a frame, so two bytes may be skipped. */
  lemma ScanRejects(b: seq<byte>)
    requires |b| >= HDR_SIZE && MagicAt(b, 0) && LinkStep((), b) == Take(1, (), [])
    ensures Scan(b) == Scan(b[2..])
  {
    hide LinkStep;
    ScanStep(b);
    PrependNothing(Scan(b[1..]));
    ScanSkips(b[1..], 1);
    assert b[1..][1..] == b[2..];
  }

  class FrameParser {
    const buf: array<byte>
    var len: nat

    /** Between calls the buffer holds only bytes about which nothing can be decided yet. */
    ghost predicate Valid()
      reads this, buf
    {
      Sized() && !Takes(LinkStep, (), buf[..len])
    }

    ghost predicate Sized()
      reads this
    {
      buf.Length == PARSER_BUF_CAP && len <= buf.Length
    }

    ghost function Contents(): seq<byte>
      requires Sized()
      reads this, buf
    {
      buf[..len]
    }

    constructor ()
      ensures Valid() && Contents() == [] && fresh(buf)
    {
      buf := new byte[PARSER_BUF_CAP];
      len := 0;
    }

    method Reset()
      requires Valid()
      modifies this`len
      ensures Valid() && Contents() == []
    {
      len := 0;
    }

    /** Drop the first `n` bytes, sliding the others to the front. */
    method Discard(n: nat)
      requires Sized() && n <= len
      modifies this`len, buf
      ensures Sized() && Contents() == old(Contents())[n..]
    {
      forall k | 0 <= k < len - n {
        buf[k] := buf[k + n];
      }
      len := len - n;
    }

    /** The first offset of a magic pair, or `len - 1` when there is none. */
    method FindMagic(ghost b: seq<byte>) returns (i: nat)
      requires Sized() && len >= 2 && b == Contents()
      ensures i < len
      ensures forall j :: 0 <= j < i ==> !MagicAt(b, j)
      ensures i + 1 < len ==> MagicAt(b, i)
    {
      i := 0;
      while i + 1 < len && !(buf[i] == 0xAA && buf[i + 1] == 0x55)
        invariant i < len
        invariant forall j :: 0 <= j < i ==> !MagicAt(b, j)
      {
        i := i + 1;
      }
    }

    /** The decision about the candidate at the front, which starts with a magic pair. */
    method Candidate(ghost b: seq<byte>) returns (wait: bool, total: nat, frames: seq<Frame>)
      requires Sized() && b == Contents() && len >= 2 && MagicAt(b, 0)
      ensures wait <==> !Takes(LinkStep, (), b)
      ensures !wait ==> LinkStep((), b) == Take(if frames == [] then 1 else total, (), frames)
      ensures frames == [] ==> total == 2
      ensures !wait ==> HDR_SIZE <= len && 0 < total <= len
    {
      hide Matches;
      wait, total, frames := true, 2, [];
      if len < HDR_SIZE {
        return;
      }
      var length := Unpack16(buf[4], buf[5]);
      assert LengthAt(b) == length;
      if length > MAX_PAYLOAD {
        wait := false;
        return;
      }
      if len < HDR_SIZE + length + CRC_SIZE {
        return;
      }
      wait := false;
      var at := HDR_SIZE + length;
      var payload, four := buf[HDR_SIZE..at], buf[at..at + CRC_SIZE];
      assert forall j :: 0 <= j < len ==> buf[j] == b[j];
      assert payload == b[HDR_SIZE..at];
      assert four == b[at..at + CRC_SIZE];
      if Matches(four, payload) {
        total, frames := HDR_SIZE + length + CRC_SIZE, [Frame(buf[2], buf[3], payload)];
      }
    }

    /** `drain_frames`: search, slide, decide, skip two bytes on a bad length or checksum. */
    method DrainFrames() returns (frames: seq<Frame>)
      requires Sized()
      modifies this`len, buf
      ensures Valid()
      ensures Scan(old(Contents())) == Result(frames, (), Contents())
    {
      hide LinkStep, Scan, Takes, Prepend;
      frames := [];
      PrependNothing(Scan(Contents()));
      while true
        invariant Sized()
        invariant Scan(old(Contents())) == Prepend(frames, Scan(Contents()))
        decreases len
      {
        ghost var b := Contents();
        if len < 2 {
          ShortWaits(b);
          ScanEnds(frames, b);
          break;
        }
        var i := FindMagic(b);
        ScanSkips(b, i);
        Discard(i);
        if len == 1 {
          ShortWaits(Contents());
          ScanEnds(frames, Contents());
          break;
        }
        ghost var c := Contents();
        var wait, total, found := Candidate(c);
        if wait {
          ScanEnds(frames, c);
          break;
        }
        ScanCandidate(c, total, found);
        PrependPrepend(frames, found, Scan(c[total..]));
        Discard(total);
        frames := frames + found;
      }
    }

    /** Copy as much of `data[pos..]` as there is room for, which is never nothing: fewer than MAX_FRAME
        bytes survive a drain. */
    method Fill(data: seq<byte>, pos: nat) returns (copy: nat)
      requires Valid() && pos < |data|
      modifies this`len, buf
      ensures Sized() && 0 < copy && pos + copy <= |data|
      ensures Contents() == old(Contents()) + data[pos..pos + copy]
    {
      hide LinkStep;
      WaitBound(Contents());
      copy := Min(|data| - pos, PARSER_BUF_CAP - len);
      forall k | 0 <= k < copy {
        buf[len + k] := data[pos + k];
      }
      len := len + copy;
    }

    /** One pass of the receive loop: fill as far as there is room, then drain. */
    method FillAndDrain(data: seq<byte>, pos: nat) returns (copy: nat, frames: seq<Frame>)
      requires Valid() && pos < |data|
      modifies this`len, buf
      ensures Valid() && 0 < copy && pos + copy <= |data|
      ensures Scan(old(Contents()) + data[pos..]) == Prepend(frames, Scan(Contents() + data[pos + copy..]))
    {
      hide LinkStep, Scan, Takes, Prepend;
      ghost var held := Contents();
      copy := Fill(data, pos);
      ghost var filled := held + data[pos..pos + copy];
      assert held + data[pos..] == filled + data[pos + copy..];
      ScanSplit(filled, data[pos + copy..]);
      frames := DrainFrames();
    }

    /** `feed`: its guard against a full buffer never fires, so no input is dropped. */
    method Feed(data: seq<byte>) returns (frames: seq<Frame>)
      requires Valid()
      modifies this`len, buf
      ensures Valid()
      ensures Scan(old(Contents()) + data) == Result(frames, (), Contents())
    {
      hide LinkStep, Scan, Takes, Prepend;
      var pos := 0;
      frames := [];
      FeedStarts(Contents(), data);
      while pos < |data|
        invariant Valid() && 0 <= pos <= |data|
        invariant Scan(old(Contents()) + data) == Prepend(frames, Scan(Contents() + data[pos..]))
      {
        WaitBound(Contents());
        if len == PARSER_BUF_CAP {
          break;
        }
        var copy, more := FillAndDrain(data, pos);
        PrependPrepend(frames, more, Scan(Contents() + data[pos + copy..]));
        frames, pos := frames + more, pos + copy;
      }
      FeedEnds(frames, Contents(), data);
    }

    /** `fp_feed` of the C daemon, whose loop has no such guard: every pass consumes at least one byte, so
        it ends on every input, with the same result. */
    method FeedUnguarded(data: seq<byte>) returns (frames: seq<Frame>)
      requires Valid()
      modifies this`len, buf
      ensures Valid()
      ensures Scan(old(Contents()) + data) == Result(frames, (), Contents())
    {
      hide LinkStep, Scan, Takes, Prepend;
      var pos := 0;
      frames := [];
      FeedStarts(Contents(), data);
      while pos < |data|
        invariant Valid() && 0 <= pos <= |data|
        invariant Scan(old(Contents()) + data) == Prepend(frames, Scan(Contents() + data[pos..]))
      {
        var copy, more := FillAndDrain(data, pos);
        PrependPrepend(frames, more, Scan(Contents() + data[pos + copy..]));
        frames, pos := frames + more, pos + copy;
      }
      FeedEnds(frames, Contents(), data);
    }
  }

  lemma FeedStarts(held: seq<byte>, data: seq<byte>)
    ensures Scan(held + data) == Prepend([], Scan(held + data[0..]))
  {
    hide Scan;
    PrependNothing(Scan(held + data));
    assert data[0..] == data;
  }

  lemma FeedEnds(frames: seq<Frame>, held: seq<byte>, data: seq<byte>)
    requires !Takes(LinkStep, (), held)
    ensures Prepend(frames, Scan(held + data[|data|..])) == Result(frames, (), held)
  {
    hide LinkStep, Scan;
    assert held + data[|data|..] == held;
    ScanEnds(frames, held);
  }

  lemma ShortWaits(b: seq<byte>)
    requires |b| < 2
    ensures !Takes(LinkStep, (), b)
  {
  }

  lemma ScanEnds(frames: seq<Frame>, b: seq<byte>)
    requires !Takes(LinkStep, (), b)
    ensures Prepend(frames, Scan(b)) == Result(frames, (), b)
  {
  }

  lemma ScanCandidate(b: seq<byte>, total: nat, frames: seq<Frame>)
    requires HDR_SIZE <= |b| && MagicAt(b, 0) && 0 < total <= |b|
    requires LinkStep((), b) == Take(if frames == [] then 1 else total, (), frames)
    requires frames == [] ==> total == 2
    ensures Scan(b) == Prepend(frames, Scan(b[total..]))
  {
    hide LinkStep;
    ScanStep(b);
    if frames == [] {
      ScanRejects(b);
      PrependNothing(Scan(b[2..]));
    }
  }
}
