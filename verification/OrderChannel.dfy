/**
 The order channel from end to end: requests that the trade engine queues, framed by the gateway, cut anywhere by the
 network, read by the order server, put in order by the sequencer.
*/
module OrderChannel {
  import opened Types
  import opened EngineSpec
  import opened SessionSpec
  import opened SessionLive
  import opened OrderServers
  import opened SequencerSpec
  import OrderGateways
  import RequestWire
  import Wire

  /** Well-formed requests of one client, with fields the wire can carry. */
  predicate Requested(c: ClientId, qs: seq<Request>) {
    forall i :: 0 <= i < |qs| ==> RequestedBy(c, qs[i])
  }

  predicate RequestedBy(c: ClientId, q: Request) {
    && WellFormed(q) && q.client == c
    && q.orderId < TWO_64 && q.qty < 0x1_0000_0000 && -0x8000_0000_0000_0000 <= q.price < 0x8000_0000_0000_0000
  }

  lemma RequestInRange(c: ClientId, q: Request, n: nat, epoch: nat)
    requires RequestedBy(c, q) && n < TWO_64 && epoch < TWO_64
    ensures RequestWire.InRange(Frame(n, epoch, q))
  {
  }

  lemma FramedInSession(c: ClientId, epoch: nat, qs: seq<Request>)
    requires Requested(c, qs) && epoch < TWO_64 && |qs| < TWO_64
    ensures InSession(OrderGateways.Framed(1, epoch, qs), c, epoch, 1)
    ensures RequestWire.AllInRange(OrderGateways.Framed(1, epoch, qs))
  {
    hide WellFormed, RequestWire.InRange;
    var fs := OrderGateways.Framed(1, epoch, qs);
    forall i | 0 <= i < |fs| ensures RequestWire.InRange(fs[i]) && WellFormed(fs[i].request) && fs[i].request.client == c {
      assert RequestedBy(c, qs[i]);
      RequestInRange(c, qs[i], 1 + i, epoch);
    }
  }

  lemma {:induction false} FramedRequests(n: nat, epoch: nat, qs: seq<Request>)
    ensures RequestWire.Requests(OrderGateways.Framed(n, epoch, qs)) == qs
    decreases |qs|
  {
    var fs := OrderGateways.Framed(n, epoch, qs);
    if qs != [] {
      FramedRequests(n + 1, epoch, qs[1..]);
      assert fs[1..] == OrderGateways.Framed(n + 1, epoch, qs[1..]);
    }
  }

  /** Whatever the gateway of a fresh session sends, however its bytes are cut, and whatever others do: the order server
      forwards exactly the requests queued by the trade engine, in their order, with no byte left, while there is room. */
  lemma RequestsArrive(xs: seq<Input>, sock: Socket, healthy: set<Socket>, c: ClientId, epoch: nat, qs: seq<Request>,
                       chunks: seq<seq<Wire.byte>>, space: nat, room: nat)
    requires REQUEST_SIZE == Wire.SizeOf(Wire.REQUEST)
    requires Requested(c, qs) && 0 < epoch < TWO_64 && |qs| < TWO_64 && |qs| <= space
    requires c !in TakeAll(xs).sessions.socketOf && sock !in TakeAll(xs).sessions.clientOf
    requires Joined(chunks) == RequestWire.AllEncoded(OrderGateways.Framed(OrderGateways.Begin(c, epoch).outgoing, epoch, qs))
    ensures var r := RecvChunks(TakeAll(xs), sock, [], chunks, healthy, space, room);
            r.forwarded == qs && r.rest == [] && KnownNumbers(r.server.log, c) == KnownNumbers(TakeAll(xs).log, c) + Numbers(|qs|)
  {
    hide TakeAll, RecvChunks, Joined, RequestWire.AllEncoded, Wire.SizeOf;
    FramedInSession(c, epoch, qs);
    FramedRequests(1, epoch, qs);
    var fs := OrderGateways.Framed(1, epoch, qs);
    RequestWire.StreamIsServed(xs, sock, fs, healthy, c, epoch, chunks, space, room);
    NumbersForwarded(TakeAll(xs).log, fs, c, epoch);
  }

  function Numbers(n: nat): seq<nat> { seq(n, i => i + 1) }

  lemma {:induction false} NumbersForwarded(log: seq<Entry>, fs: seq<Frame>, c: ClientId, epoch: nat)
    requires InSession(fs, c, epoch, 1)
    ensures KnownNumbers(log + Forwards(fs), c) == KnownNumbers(log, c) + Numbers(|fs|)
    decreases |fs|
  {
    if fs == [] {
      assert log + Forwards(fs) == log;
    } else {
      var front, f := fs[..|fs| - 1], fs[|fs| - 1];
      NumbersForwarded(log, front, c, epoch);
      var es := log + Forwards(fs);
      assert es[|es| - 1] == Entry(f, true, false) && es[..|es| - 1] == log + Forwards(front);
      assert Numbers(|fs|) == Numbers(|front|) + [|fs|];
    }
  }
}
