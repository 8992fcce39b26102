/**
 What a whole run of the exchange means to those who receive its events: client, recovery and synthesizer
 follow it event by event, the synthesizer as long as its pool suffices, and a run for which it does not.
*/
module ReceiverRuns {
  import opened Types
  import opened PriceBooks
  import opened MatchSpec
  import opened MatchInvariants
  import opened OrderLife
  import opened EngineSpec
  import opened EngineRuns
  import opened Replay
  import opened MarketStream
  import opened SynthesizerSpec
  import RecoverySpec
  import RecoveryComplete
  import RecoveryProps
  import Protocol
  import ProtocolBounds
  import ProtocolProgress

  /** In every run, at every event: the client has applied all events before it, to exactly the exchange's books,
      and accepts it; recovery, rebuilding from those books, accepts it and reaches the next; the synthesizer has
      passed all before it exactly when all tickers' orders fitted its pool so far, and then passes it exactly
      when they still do. */
  lemma EveryReceiverFollows(qs: seq<Request>, k: nat)
    requires k < |Run(qs).events|
    ensures var es := Run(qs).events; var bs, e := BooksAt(es, k), es[k];
            && Protocol.RunQueue(EMPTY_BOOKS, es[..k]) == Some(bs)
            && e.ticker < ME_MAX_TICKERS && ClientAccepts(bs[e.ticker], e.ticker, e)
            && RecoverySpec.ApplyTo(OrdersOf(bs), e) == Some(OrdersOf(BooksAt(es, k + 1)))
            && (SynthAfter(es, k).Some? <==> PoolSuffices(es, k))
            && (SynthAfter(es, k).Some? ==>
                  && SynthAfter(es, k).value == OrdersOf(bs)
                  && (Passes(OrdersOf(bs), e) <==> PoolSuffices(es, k + 1))
                  && (Passes(OrdersOf(bs), e) <==> (e.kind.Add? ==> TotalLive(OrdersOf(bs)) < ME_MAX_ORDER_IDS)))
  {
    hide Run, Genuine, BooksAt, OrdersOf, TotalLive, PoolSuffices, SynthAfter, GenuineStream, Protocol.RunQueue, Effect,
         RecoverySpec.ApplyTo, ClientAccepts, SynthesizerAccepts;
    var es := Run(qs).events;
    EventsRebuildTheBooks(qs);
    ClientFollows(es, k);
    GenuineNow(es, k);
    GenuineIs(BooksAt(es, k)[es[k].ticker], es[k].ticker, es[k]);
    RecoveryComplete.StreamApplies(es, k);
    PassesExactlyWhen(es, k);
    PassesExactlyWhen(es, k + 1);
    SynthStep(es, k + 1);
    AppliedIs(BooksAt(es, k), es[k]);
  }

  lemma GenuineIs(b: PriceBook, t: TickerId, e: Event)
    requires Genuine(b, t, e)
    ensures ClientAccepts(b, t, e)
  {
  }

  /** Applied from the start by the client's own rule, the stream leads to the exchange's books. */
  lemma ClientFollows(stream: seq<Event>, k: nat)
    requires GenuineStream(stream) && k <= |stream|
    ensures Protocol.RunQueue(EMPTY_BOOKS, stream[..k]) == Some(BooksAt(stream, k))
  {
    hide Protocol.RunQueue, Replayed, GenuineStream, EffectOn;
    assert stream[..k] == stream[0..k] && BooksAt(stream, 0) == EMPTY_BOOKS;
    ProtocolProgress.StreamRuns(stream, 0, k);
    ReplayedStream(stream, 0, k);
    forall i | 0 <= i < |stream[..k]| ensures !Protocol.IsMarker(stream[..k][i]) { Protocol.StreamPlain(stream, i); }
    Protocol.RunEffects(EMPTY_BOOKS, stream[..k]);
  }

  // ------------------------------------------------------------------ a run the pool does not suffice for

  function Bid(t: TickerId, id: OrderId): Request { Request(New, 0, t, id, Buy, 1, 1) }

  const MOST_IDS: nat := ME_MAX_ORDER_IDS - 1

  /** One client bids one for one, again and again, under new ids; when the ids of the first ticker are used
      up, on the second. */
  function Bids(n: nat): (r: seq<Request>)
    ensures |r| == n
  {
    seq(n, i requires 0 <= i < n => if i < MOST_IDS then Bid(0, i + 1) else Bid(1, i - MOST_IDS + 1))
  }

  /** A book that holds `n` such bids and has seen nothing else. */
  ghost predicate OnlyBids(b: Book, n: nat) {
    && |b.resting.orders| == n && b.nextId == n + 1
    && (forall k :: k in b.resting.fifo ==> k == (Buy, 1))
    && |b.resting.fifo| <= 1
    && (forall o :: o in b.used ==> o.clientOrderId <= n)
  }

  lemma NoSeller(b: PriceBook, t: Taker)
    requires Sound(b) && t.side.Buy? && forall k :: k in b.fifo ==> k == (Buy, 1)
    ensures MatchAll(b, t, 1) == Matched(b, 1, [], [])
  {
    forall id | id in b.orders ensures b.orders[id].side.Buy? { assert OrderWf(b, id); }
  }

  lemma OneKey(m: map<Key, seq<OrderId>>, k: Key)
    requires forall x :: x in m ==> x == k
    ensures |m| <= 1
  {
    SubsetSize(m.Keys, {k});
  }

  lemma InvGives(b: Book)
    requires BookInv(b)
    ensures Sound(b.resting) && forall id :: id in b.resting.orders ==> id < b.nextId
  {
    forall id | id in b.resting.orders ensures id < b.nextId { assert InBounds(b, id); }
  }

  lemma BidRests(b: Book, t: TickerId, n: nat)
    requires BookInv(b) && OnlyBids(b, n) && n < MOST_IDS
    ensures OnlyBids(AddOrder(b, t, Owner(0, n + 1), t, Buy, 1, 1).book, n + 1)
  {
    hide MatchAll, BookInv, Sound, RememberAll;
    InvGives(b);
    var tk := Taker(Owner(0, n + 1), t, Buy, 1, b.nextId);
    NoSeller(b.resting, tk);
    assert AddReason(b, t, Owner(0, n + 1), t, Buy, 1, 1) == NoReason;
    var b' := AddOrder(b, t, Owner(0, n + 1), t, Buy, 1, 1).book;
    OneKey(b'.resting.fifo, (Buy, 1));
  }

  lemma BidHandled(bs: seq<Book>, t: TickerId, n: nat)
    requires BooksOk(bs) && t < ME_MAX_TICKERS && OnlyBids(bs[t], n) && n < MOST_IDS
    ensures var bs' := Handle(bs, Bid(t, n + 1)).0;
            |bs'| == ME_MAX_TICKERS && OnlyBids(bs'[t], n + 1) && forall i :: 0 <= i < ME_MAX_TICKERS && i != t ==> bs'[i] == bs[i]
  {
    hide OnlyBids, BookInv, HistoryOk;
    BidRests(bs[t], t, n);
  }

  ghost predicate BidsIn(bs: seq<Book>, n: nat) {
    && |bs| == ME_MAX_TICKERS
    && OnlyBids(bs[0], Min(n, MOST_IDS)) && OnlyBids(bs[1], n - Min(n, MOST_IDS))
    && forall t :: 2 <= t < ME_MAX_TICKERS ==> OnlyBids(bs[t], 0)
  }

  lemma BidsMore(bs: seq<Book>, n: nat)
    requires BooksOk(bs) && BidsIn(bs, n) && n <= ME_MAX_ORDER_IDS
    ensures BidsIn(Handle(bs, if n < MOST_IDS then Bid(0, n + 1) else Bid(1, n - MOST_IDS + 1)).0, n + 1)
  {
    hide OnlyBids, BooksOk, Handle;
    if n < MOST_IDS { BidHandled(bs, 0, n); } else { BidHandled(bs, 1, n - MOST_IDS); }
  }

  lemma {:induction false} BidsRest(n: nat)
    requires n <= ME_MAX_ORDER_IDS + 1
    ensures BidsIn(Run(Bids(n)).engine.books, n)
  {
    hide BidsIn, BooksOk, EngineSpec.Process, Run, Handle;
    if n == 0 {
      NoBids();
    } else {
      BidsRest(n - 1);
      assert Bids(n)[..n - 1] == Bids(n - 1);
      RunStep(Bids(n));
      BidsMore(Run(Bids(n - 1)).engine.books, n - 1);
    }
  }

  lemma NoBids()
    ensures BidsIn(Run(Bids(0)).engine.books, 0)
  {
    hide BooksOk, EngineSpec.Process;
    assert Bids(0) == [];
    assert Run([]).engine == START;
    assert OnlyBids(EMPTY_BOOK, 0);
  }

  lemma RunStep(qs: seq<Request>)
    requires qs != []
    ensures Run(qs).engine.books == Handle(Run(qs[..|qs| - 1]).engine.books, qs[|qs| - 1]).0
  {
    hide BooksOk, Handle, StampAll;
  }

  lemma {:induction false} TwoTickers(ms: seq<map<OrderId, Order>>, n: nat)
    requires 2 <= n <= |ms| && forall t :: 2 <= t < |ms| ==> |ms[t]| == 0
    ensures LiveCount(ms, n) == |ms[0]| + |ms[1]|
  {
    if n > 2 { TwoTickers(ms, n - 1); } else { assert LiveCount(ms, 1) == |ms[0]|; }
  }

  /** All of them rest, on the exchange's books and on those its events describe. */
  lemma BidsLive(n: nat)
    requires n <= ME_MAX_ORDER_IDS + 1
    ensures var es := Run(Bids(n)).events; TotalLive(OrdersOf(BooksAt(es, |es|))) == n
  {
    hide Run, BooksAt, BooksOk, GenuineStream;
    BidsRest(n);
    EventsRebuildTheBooks(Bids(n));
    var bs := Run(Bids(n)).engine.books;
    forall t | 0 <= t < ME_MAX_TICKERS ensures |OrdersOf(PublicBooks(bs))[t]| == |bs[t].resting.orders| {
      PublicSizes(bs[t].resting);
    }
    TwoTickers(OrdersOf(PublicBooks(bs)), ME_MAX_TICKERS);
  }

  /** The pool is no larger than one ticker's range of ids, so a run of accepted requests overflows it: the
      exchange goes on, its books in order, and the synthesizer has stopped. */
  lemma SynthesizerCanStop()
    ensures var qs := Bids(ME_MAX_ORDER_IDS + 1); var es := Run(qs).events;
            && GenuineStream(es) && !PoolSuffices(es, |es|) && SynthAfter(es, |es|).None?
  {
    hide Run, BooksAt, TotalLive, OrdersOf, GenuineStream, SynthAfter, Bids;
    var qs := Bids(ME_MAX_ORDER_IDS + 1);
    BidsLive(ME_MAX_ORDER_IDS + 1);
    EventsRebuildTheBooks(qs);
    PassesExactlyWhen(Run(qs).events, |Run(qs).events|);
  }

  /** Nor does the client's cache take them all: whatever its limit, once the bids outgrow it no client ever builds
      a batch of a snapshot of these books; what it recovers can only be older. */
  lemma TooManyToRecover(n: nat, limit: nat, run: seq<Protocol.Sys>, i: nat)
    requires n <= ME_MAX_ORDER_IDS + 1 && limit < n + ME_MAX_TICKERS + 2
    requires Protocol.IsRun(Run(Bids(n)).events, limit, run) && i < |run| && run[i].consumer.candidate.Some?
    ensures var es := Run(Bids(n)).events;
            RecoveryProps.Mark(RecoveryProps.World(es, run[i].cycles), run[i].consumer.rec.cycle) < |es|
  {
    hide Run, BooksAt, TotalLive, OrdersOf, GenuineStream, Bids, Protocol.IsRun, RecoveryProps.Mark;
    BidsLive(n);
    EventsRebuildTheBooks(Bids(n));
    ProtocolBounds.CandidateFits(Run(Bids(n)).events, limit, run, i);
  }
}
