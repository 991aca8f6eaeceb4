/** The end-to-end state machine of `Link` run by the real objects: a ring buffer at one end and a
    resynchronising parser at the other. */
module LinkEnds {
  import opened Bytes
  import opened Streaming
  import opened LinkFrame
  import opened TxQueue
  import opened FrameParser
  import Link

  class LinkEnds {
    const tx: TxQueue
    const rx: FrameParser
    var wire: seq<byte>
    var accepted: seq<Frame>
    var emitted: seq<Frame>

    ghost predicate Valid()
      reads this, tx, rx, rx.buf
    {
      tx.Valid() && rx.Valid() && tx.buf != rx.buf
    }

    ghost function Abs(): Link.State
      requires Valid()
      reads this, tx, tx.buf, rx, rx.buf
    {
      Link.State(tx.Contents(), wire, rx.Contents(), accepted, emitted)
    }

    constructor ()
      ensures Valid() && Abs() == Link.RESET
      ensures fresh(tx) && fresh(tx.buf) && fresh(rx) && fresh(rx.buf)
    {
      tx := new TxQueue();
      rx := new FrameParser();
      wire, accepted, emitted := [], [], [];
    }

    method Offer(f: Frame)
      requires Valid()
      modifies this`accepted, tx`tail, tx.buf
      ensures Valid() && Abs() == Link.Step(old(Abs()), Link.Offer(f))
    {
      hide Build;
      if |f.payload| <= MAX_PAYLOAD && tx.Used() + |Build(f)| <= QUEUE_CAP {
        accepted := accepted + [f];
      }
      tx.Enqueue(Build(f));
    }

    /** One write event; the system takes `n` bytes of the contiguous segment. */
    method Drain(n: nat)
      requires Valid() && n <= Segment(LINK_TXBUF_SIZE, tx.head, tx.tail)
      modifies this`wire, tx`head
      ensures Valid() && Abs() == Link.Step(old(Abs()), Link.Drain(n))
    {
      ghost var q := tx.Contents();
      var r, sent := tx.DrainToFd(Wrote(n));
      assert sent == q[..n] && tx.Contents() == q[n..];
      wire := wire + sent;
    }

    method Deliver(n: nat)
      requires Valid()
      modifies this`wire, this`emitted, rx`len, rx.buf
      ensures Valid() && Abs() == Link.Step(old(Abs()), Link.Deliver(n))
    {
      hide Scan;
      var k := Min(n, |wire|);
      var frames := rx.Feed(wire[..k]);
      wire, emitted := wire[k..], emitted + frames;
    }

    /** One event of the link; the system takes no more of a write than it is offered. */
    method Handle(e: Link.Event) returns (ran: Link.Event)
      requires Valid()
      modifies this, tx`head, tx`tail, tx.buf, rx`len, rx.buf
      ensures Valid() && Abs() == Link.Step(old(Abs()), ran)
      ensures ran == e || (e.Drain? && ran.Drain? && ran.n <= e.n)
    {
      hide Link.Step, Ring, LinkStep;
      ran := e;
      match e
      case Offer(f) => Offer(f);
      case Drain(n) =>
        ran := Link.Drain(Min(n, Segment(LINK_TXBUF_SIZE, tx.head, tx.tail)));
        Drain(ran.n);
      case Deliver(n) => Deliver(n);
    }

    /** End to end on the real ring and the real parser: after any events from new ends, what the parser
        emitted is a prefix of what the ring accepted, and all of it once ring and wire are empty. */
    method Run(events: seq<Link.Event>) returns (ran: seq<Link.Event>)
      requires Valid() && Abs() == Link.RESET
      modifies this, tx`head, tx`tail, tx.buf, rx`len, rx.buf
      ensures Valid() && |ran| == |events| && Abs() == Link.Exec(Link.RESET, ran)
      ensures emitted <= accepted
      ensures tx.Contents() == [] && wire == [] ==> emitted == accepted && rx.Contents() == []
    {
      hide Link.Step, Ring, LinkStep;
      ran := [];
      for i := 0 to |events|
        invariant Valid() && |ran| == i && Abs() == Link.Exec(Link.RESET, ran)
      {
        var e := Handle(events[i]);
        Link.ExecSnoc(Link.RESET, ran, e);
        ran := ran + [e];
      }
      Link.EndToEnd(ran);
    }
  }
}
