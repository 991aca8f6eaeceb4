/** The transmit ring buffer: head and tail move around a fixed array, and represent a byte queue. */
module TxQueue {
  import opened Bytes
  import opened LinkFrame

  const LINK_HIGH_WATER := 512 * 1024
  const LINK_LOW_WATER := 256 * 1024
  const LINK_TXBUF_SIZE := LINK_HIGH_WATER + MAX_FRAME + 64
  /** One slot stays free so that a full ring differs from an empty one. */
  const QUEUE_CAP := LINK_TXBUF_SIZE - 1

  /** The queue after offering `data`: appended whole or, when it does not fit, not at all. */
  function Push(q: seq<byte>, data: seq<byte>): seq<byte> {
    if |q| + |data| <= QUEUE_CAP then q + data else q
  }

  /** What the operating system made of one `write`. */
  datatype Write = Wrote(n: nat) | WouldBlock | WriteFailed

  datatype Drained = Emptied | Remaining | Broken

  /** The bytes from `head` up to `tail` of a ring. */
  function Ring(a: seq<byte>, head: nat, tail: nat): (q: seq<byte>)
    requires head < |a| && tail < |a|
    ensures |q| == if head <= tail then tail - head else tail + |a| - head
  {
    if head <= tail then a[head..tail] else a[head..] + a[..tail]
  }

  /** The position `k` places after `p` on a ring of `size` cells. */
  function Ahead(size: nat, p: nat, k: nat): nat
    requires p < size
  {
    if p + k < size then p + k else p + k - size
  }

  /** Cell `i` is not one of the `n` cells from `p` on. */
  predicate Outside(size: nat, p: nat, n: nat, i: nat) {
    if p + n <= size then i < p || p + n <= i else p + n - size <= i < p
  }

  lemma RingAt(a: seq<byte>, head: nat, tail: nat, k: nat)
    requires head < |a| && tail < |a| && k < |Ring(a, head, tail)|
    ensures Ahead(|a|, head, k) < |a| && Ring(a, head, tail)[k] == a[Ahead(|a|, head, k)]
  {
  }

  lemma ModIsAhead(p: nat, k: nat)
    requires p < LINK_TXBUF_SIZE && k <= LINK_TXBUF_SIZE
    ensures (p + k) % LINK_TXBUF_SIZE == Ahead(LINK_TXBUF_SIZE, p, k)
  {
  }

  /** Bytes stored from the tail on, the rest of the ring being kept, extend the queue. */
  lemma RingAppend(a: seq<byte>, b: seq<byte>, head: nat, tail: nat, data: seq<byte>)
    requires |a| == |b| && head < |a| && tail < |a| && |Ring(a, head, tail)| + |data| < |a|
    requires forall k :: 0 <= k < |data| ==> b[Ahead(|a|, tail, k)] == data[k]
    requires forall k :: 0 <= k < |Ring(a, head, tail)| ==> b[Ahead(|a|, head, k)] == a[Ahead(|a|, head, k)]
    ensures Ahead(|a|, tail, |data|) < |a|
    ensures Ring(b, head, Ahead(|a|, tail, |data|)) == Ring(a, head, tail) + data
  {
    var q, end := Ring(a, head, tail), Ahead(|a|, tail, |data|);
    var r := Ring(b, head, end);
    assert |r| == |q| + |data|;
    forall k | 0 <= k < |r| ensures r[k] == (q + data)[k] {
      RingAt(b, head, end, k);
      if k < |q| {
        RingAt(a, head, tail, k);
      } else {
        assert Ahead(|a|, head, k) == Ahead(|a|, tail, k - |q|);
      }
    }
  }

  /** Moving the head inside the contiguous segment removes that prefix. */
  lemma RingDrop(a: seq<byte>, head: nat, tail: nat, n: nat)
    requires head < |a| && tail < |a| && n <= Segment(|a|, head, tail)
    ensures Ahead(|a|, head, n) < |a|
    ensures Ring(a, head, tail) == a[head..head + n] + Ring(a, Ahead(|a|, head, n), tail)
  {
    if head + n == |a| {
      assert a[..tail] == a[0..tail];
    }
  }

  /** The length of the stretch at the head that does not wrap. */
  function Segment(size: nat, head: nat, tail: nat): nat
    requires head < size && tail < size
  {
    if tail >= head then tail - head else size - head
  }

  class TxQueue {
    const buf: array<byte>
    var head: nat
    var tail: nat

    ghost predicate Valid()
      reads this
    {
      buf.Length == LINK_TXBUF_SIZE && head < LINK_TXBUF_SIZE && tail < LINK_TXBUF_SIZE
    }

    /** The queued bytes, oldest first. */
    ghost function Contents(): (q: seq<byte>)
      requires Valid()
      reads this, buf
      ensures |q| <= QUEUE_CAP
    {
      Ring(buf[..], head, tail)
    }

    constructor ()
      ensures Valid() && Contents() == [] && fresh(buf)
    {
      buf := new byte[LINK_TXBUF_SIZE];
      head, tail := 0, 0;
    }

    method Reset()
      requires Valid()
      modifies this
      ensures Valid() && Contents() == []
    {
      head, tail := 0, 0;
    }

    /** `used`: the modular difference is the queue's length. */
    function Used(): (n: nat)
      requires Valid()
      reads this, buf
      ensures n == |Contents()|
    {
      (tail + LINK_TXBUF_SIZE - head) % LINK_TXBUF_SIZE
    }

    function IsEmpty(): (b: bool)
      requires Valid()
      reads this, buf
      ensures b <==> Contents() == []
    {
      head == tail
    }

    /** Copy `data` to the cells from the tail on, in two parts where the tail wraps. */
    method Store(data: seq<byte>)
      requires Valid() && |data| < LINK_TXBUF_SIZE
      modifies buf
      ensures forall k :: 0 <= k < |data| ==> buf[Ahead(LINK_TXBUF_SIZE, tail, k)] == data[k]
      ensures forall i :: 0 <= i < LINK_TXBUF_SIZE && Outside(LINK_TXBUF_SIZE, tail, |data|, i) ==>
                buf[i] == old(buf[i])
    {
      var n, spaceToEnd := |data|, LINK_TXBUF_SIZE - tail;
      if n <= spaceToEnd {
        forall k | 0 <= k < n {
          buf[tail + k] := data[k];
        }
      } else {
        forall k | 0 <= k < spaceToEnd {
          buf[tail + k] := data[k];
        }
        forall k | 0 <= k < n - spaceToEnd {
          buf[k] := data[spaceToEnd + k];
        }
        assert forall k :: spaceToEnd <= k < n ==> buf[k - spaceToEnd] == data[k];
      }
    }

    /** `enqueue`: all or nothing. */
    method Enqueue(data: seq<byte>)
      requires Valid()
      modifies this`tail, buf
      ensures Valid()
      ensures Contents() == Push(old(Contents()), data)
    {
      hide Ring;
      var n := |data|;
      if n == 0 {
        assert Contents() + data == Contents();
        return;
      }
      if n > LINK_TXBUF_SIZE - 1 - Used() {
        return;
      }
      ghost var was := buf[..];
      Store(data);
      RingAppend(was, buf[..], head, tail, data);
      ModIsAhead(tail, n);
      tail := (tail + n) % LINK_TXBUF_SIZE;
    }

    /** `drain_to_fd`: one write of the contiguous bytes at the head, of which the system takes any
        number. */
    method DrainToFd(os: Write) returns (r: Drained, sent: seq<byte>)
      requires Valid()
      requires os.Wrote? ==> os.n <= Segment(LINK_TXBUF_SIZE, head, tail)
      modifies this`head
      ensures Valid()
      ensures old(Contents()) == sent + Contents()
      ensures r == Broken <==> os == WriteFailed && old(Contents()) != []
      ensures r == Emptied <==> Contents() == [] && r != Broken
      ensures |sent| == if os.Wrote? then os.n else 0
    {
      hide Ring;
      sent := [];
      if IsEmpty() {
        return Emptied, sent;
      }
      match os
      case WouldBlock =>
        return Remaining, sent;
      case WriteFailed =>
        return Broken, sent;
      case Wrote(n) =>
        RingDrop(buf[..], head, tail, n);
        ModIsAhead(head, n);
        assert buf[head..head + n] == buf[..][head..head + n];
        sent := buf[head..head + n];
        head := (head + n) % LINK_TXBUF_SIZE;
        r := if IsEmpty() then Emptied else Remaining;
    }
  }
}
