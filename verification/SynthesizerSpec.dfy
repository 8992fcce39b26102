/**
 What `SnapshotSynthesizer` keeps of the event stream, and when it stops. All tickers share one pool of
 order slots, so it can stop on a stream that every book of the exchange had room for.
*/
module SynthesizerSpec {
  import opened Types
  import opened PriceBooks
  import opened Replay
  import opened MarketStream
  import opened BookHashes
  import opened RecoverySpec
  import opened RecoveryProps

  /** `addToSnapshot` on one ticker's orders; MODIFY also takes over the price. */
  function SynthEffect(m: map<OrderId, Order>, e: Event): map<OrderId, Order> {
    if e.kind.Add? then m[e.orderId := EventOrder(e)]
    else if e.kind.Modify? && e.orderId in m then m[e.orderId := m[e.orderId].(qty := e.qty, price := e.price)]
    else if e.kind.Cancel? then m - {e.orderId}
    else m
  }

  /** Live orders of the first `n` tickers. */
  function LiveCount(ms: seq<map<OrderId, Order>>, n: nat): nat
    requires n <= |ms|
  {
    if n == 0 then 0 else LiveCount(ms, n - 1) + |ms[n - 1]|
  }

  /** Live orders of all tickers: the slots taken from the pool. */
  function TotalLive(ms: OrdersByTicker): nat { LiveCount(ms, ME_MAX_TICKERS) }

  lemma {:induction false} LiveCountSet(ms: seq<map<OrderId, Order>>, t: nat, m: map<OrderId, Order>, n: nat)
    requires t < |ms| && n <= |ms|
    ensures LiveCount(ms[t := m], n) == LiveCount(ms, n) + (if t < n then |m| - |ms[t]| else 0)
  {
    if n > 0 { LiveCountSet(ms, t, m, n - 1); }
  }

  /** None of the source's assertions stops on the event: a known ticker, an acceptable change of its orders,
      and for a new order a free slot. */
  predicate Passes(ms: OrdersByTicker, e: Event) {
    e.ticker < ME_MAX_TICKERS && SynthesizerAccepts(ms[e.ticker], e) && (e.kind.Add? ==> TotalLive(ms) < ME_MAX_ORDER_IDS)
  }

  function Applied(ms: OrdersByTicker, e: Event): OrdersByTicker
    requires e.ticker < ME_MAX_TICKERS
  {
    ms[e.ticker := SynthEffect(ms[e.ticker], e)]
  }

  /** The orders after the first `k` events, none if it stopped on one of them. */
  function SynthAfter(stream: seq<Event>, k: nat): Option<OrdersByTicker>
    requires k <= |stream|
  {
    if k == 0 then Some(NO_ORDERS)
    else
      match SynthAfter(stream, k - 1)
      case None => None
      case Some(ms) => if Passes(ms, stream[k - 1]) then Some(Applied(ms, stream[k - 1])) else None
  }

  /** One event of the exchange: acceptable in itself, and applied as everyone else applies it. */
  lemma SynthIsEffect(b: PriceBook, me: TickerId, e: Event)
    requires Genuine(b, me, e)
    ensures SynthesizerAccepts(b.orders, e) && SynthEffect(b.orders, e) == Effect(b, e).orders
  {
    if e.kind.Modify? { assert b.orders[e.orderId].(qty := e.qty, price := e.price) == b.orders[e.orderId].(qty := e.qty); }
  }

  lemma AppliedIs(bs: Books, e: Event)
    requires e.ticker < ME_MAX_TICKERS && Genuine(bs[e.ticker], e.ticker, e)
    ensures SynthesizerAccepts(OrdersOf(bs)[e.ticker], e) && Applied(OrdersOf(bs), e) == OrdersOf(EffectOn(bs, e))
  {
    hide Genuine, SynthEffect, Effect, SynthesizerAccepts;
    SynthIsEffect(bs[e.ticker], e.ticker, e);
  }

  /** An event leaves at most the pool's orders exactly when it was not an ADD to a full pool. */
  lemma RoomIs(bs: Books, e: Event)
    requires e.ticker < ME_MAX_TICKERS && Genuine(bs[e.ticker], e.ticker, e)
    requires TotalLive(OrdersOf(bs)) <= ME_MAX_ORDER_IDS
    ensures Passes(OrdersOf(bs), e) <==> TotalLive(OrdersOf(EffectOn(bs, e))) <= ME_MAX_ORDER_IDS
  {
    AppliedIs(bs, e);
    var m := OrdersOf(bs)[e.ticker];
    LiveCountSet(OrdersOf(bs), e.ticker, SynthEffect(m, e), ME_MAX_TICKERS);
    SizeAfter(bs[e.ticker], e.ticker, e);
    hide Genuine, SynthEffect, Effect, SynthesizerAccepts, OrdersOf;
  }

  lemma SizeAfter(b: PriceBook, me: TickerId, e: Event)
    requires Genuine(b, me, e)
    ensures e.kind.Add? ==> |SynthEffect(b.orders, e)| == |b.orders| + 1
    ensures !e.kind.Add? ==> |SynthEffect(b.orders, e)| <= |b.orders|
  {
    var m, m' := b.orders, SynthEffect(b.orders, e);
    if e.kind.Add? {
      assert m'.Keys == m.Keys + {e.orderId};
    } else {
      assert m'.Keys <= m.Keys;
      SubsetSize(m'.Keys, m.Keys);
    }
  }

  /** In none of the first `k` states of the stream do all tickers together hold more orders than the pool. */
  ghost predicate PoolSuffices(stream: seq<Event>, k: nat)
    requires k <= |stream|
  {
    forall i :: 0 <= i <= k ==> TotalLive(OrdersOf(BooksAt(stream, i))) <= ME_MAX_ORDER_IDS
  }

  /** What holds after `k` events also held before the last of them, and after it there was room. */
  lemma SufficesStep(stream: seq<Event>, k: nat)
    requires 0 < k <= |stream|
    ensures PoolSuffices(stream, k) <==>
              PoolSuffices(stream, k - 1) && TotalLive(OrdersOf(EffectOn(BooksAt(stream, k - 1), stream[k - 1]))) <= ME_MAX_ORDER_IDS
    ensures PoolSuffices(stream, k - 1) ==> TotalLive(OrdersOf(BooksAt(stream, k - 1))) <= ME_MAX_ORDER_IDS
    ensures BooksAt(stream, k) == EffectOn(BooksAt(stream, k - 1), stream[k - 1])
  {
    hide TotalLive, OrdersOf, EffectOn;
  }

  lemma SynthStep(stream: seq<Event>, k: nat)
    requires 0 < k <= |stream|
    ensures SynthAfter(stream, k).Some? <==>
              SynthAfter(stream, k - 1).Some? && Passes(SynthAfter(stream, k - 1).value, stream[k - 1])
    ensures SynthAfter(stream, k).Some? ==> SynthAfter(stream, k).value == Applied(SynthAfter(stream, k - 1).value, stream[k - 1])
  {
    hide Applied, SynthesizerAccepts, TotalLive;
  }

  /** On the exchange's events the synthesizer stops for one reason only. It passes the first `k` events if and
      only if all tickers' live orders have fitted its one pool after each of them; then its orders are exactly
      the exchange's. */
  lemma {:induction false} PassesExactlyWhen(stream: seq<Event>, k: nat)
    requires GenuineStream(stream) && k <= |stream|
    ensures SynthAfter(stream, k).Some? <==> PoolSuffices(stream, k)
    ensures SynthAfter(stream, k).Some? ==> SynthAfter(stream, k).value == OrdersOf(BooksAt(stream, k))
  {
    hide Genuine, Passes, Applied, TotalLive, OrdersOf, EffectOn, GenuineStream, SynthAfter, BooksAt, PoolSuffices;
    if k == 0 {
      NothingLive(stream);
    } else {
      PassesExactlyWhen(stream, k - 1);
      GenuineNow(stream, k - 1);
      SynthStep(stream, k);
      SufficesStep(stream, k);
      if SynthAfter(stream, k - 1).Some? {
        RoomIs(BooksAt(stream, k - 1), stream[k - 1]);
        AppliedIs(BooksAt(stream, k - 1), stream[k - 1]);
      }
    }
  }

  lemma GenuineNow(stream: seq<Event>, k: nat)
    requires GenuineStream(stream) && k < |stream|
    ensures stream[k].ticker < ME_MAX_TICKERS
    ensures Genuine(BooksAt(stream, k)[stream[k].ticker], stream[k].ticker, stream[k])
  {
    assert GenuineAt(stream, k);
  }

  lemma NothingLive(stream: seq<Event>)
    ensures OrdersOf(BooksAt(stream, 0)) == NO_ORDERS && SynthAfter(stream, 0) == Some(NO_ORDERS)
    ensures PoolSuffices(stream, 0)
  {
    assert OrdersOf(EMPTY_BOOKS) == NO_ORDERS;
    NoneLive(ME_MAX_TICKERS);
  }

  lemma {:induction false} NoneLive(n: nat)
    requires n <= ME_MAX_TICKERS
    ensures LiveCount(NO_ORDERS, n) == 0
  {
    if n > 0 { NoneLive(n - 1); }
  }

  // ------------------------------------------------------------------ what is sent

  /** Frames numbered from `from` on. */
  function Numbered(from: nat, es: seq<Event>, cycle: nat, w: nat, hash: nat): seq<Update> {
    seq(|es|, i requires 0 <= i < |es| => Update(from + i, es[i], cycle, w, hash))
  }

  lemma NumberedConcat(from: nat, a: seq<Event>, b: seq<Event>, cycle: nat, w: nat, hash: nat)
    ensures Numbered(from, a + b, cycle, w, hash) == Numbered(from, a, cycle, w, hash) + Numbered(from + |a|, b, cycle, w, hash)
  {
  }

  lemma NumberedNone(from: nat, cycle: nat, w: nat, hash: nat)
    ensures Numbered(from, [], cycle, w, hash) == []
  {
  }

  lemma NumberedIsFrames(cycle: nat, w: nat, orders: OrdersByTicker)
    ensures Numbered(0, SnapshotEvents(w, orders), cycle, w, BookHash(Flatten(orders, 0))) == SnapshotFrames(cycle, w, orders)
  {
    hide BookHash, Flatten, SnapshotEvents;
  }
}
