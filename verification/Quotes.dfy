/**
 The client's quotes: what a best price and its quantity are of the orders of a book, and that a ready client never
 shows a crossed market.
*/
module Quotes {
  import opened Types
  import opened Rings
  import opened PriceBooks
  import opened MatchSpec
  import opened Replay
  import opened MarketStream
  import opened Protocol
  import ProtocolProgress

  // ------------------------------------------------------------------ the quantity at a price

  ghost function AnyId(m: map<OrderId, Order>): (id: OrderId)
    requires m.Keys != {}
    ensures id in m
  {
    var id :| id in m;
    id
  }

  function At(o: Order, side: Side, price: int): nat { if o.side == side && o.price == price then o.qty else 0 }

  /** The quantities of all orders of a side at a price, added up. */
  ghost function QtyAt(m: map<OrderId, Order>, side: Side, price: int): nat
    decreases |m.Keys|
  {
    if m.Keys == {} then 0
    else
      var id := AnyId(m);
      assert (m - {id}).Keys == m.Keys - {id};
      At(m[id], side, price) + QtyAt(m - {id}, side, price)
  }

  lemma {:induction false} QtyWithout(m: map<OrderId, Order>, id: OrderId, side: Side, price: int)
    requires id in m
    ensures QtyAt(m, side, price) == At(m[id], side, price) + QtyAt(m - {id}, side, price)
    decreases |m.Keys|
  {
    hide At;
    var j := AnyId(m);
    if j != id {
      assert (m - {j}).Keys == m.Keys - {j} && (m - {id}).Keys == m.Keys - {id};
      QtyWithout(m - {j}, id, side, price);
      QtyWithout(m - {id}, j, side, price);
      assert m - {j} - {id} == m - {id} - {j};
    }
  }

  lemma {:induction false} NoneAt(m: map<OrderId, Order>, side: Side, price: int)
    requires forall id :: id in m ==> m[id].side != side || m[id].price != price
    ensures QtyAt(m, side, price) == 0
    decreases |m.Keys|
  {
    if m.Keys != {} {
      var id := AnyId(m);
      assert (m - {id}).Keys == m.Keys - {id};
      NoneAt(m - {id}, side, price);
    }
  }

  lemma {:induction false} SameQueueQty(b: PriceBook, c: PriceBook, ids: seq<OrderId>)
    requires forall i :: 0 <= i < |ids| ==> ids[i] in b.orders && ids[i] in c.orders && b.orders[ids[i]] == c.orders[ids[i]]
    ensures QueueQty(b, ids) == QueueQty(c, ids)
    decreases |ids|
  {
    if ids != [] { SameQueueQty(b, c, ids[..|ids| - 1]); }
  }

  /** A queue that holds exactly the orders of its side and price holds their quantity. */
  lemma {:induction false} QueueIsQty(b: PriceBook, ids: seq<OrderId>, side: Side, price: int)
    requires Distinct(ids)
    requires forall i :: 0 <= i < |ids| ==> ids[i] in b.orders && KeyOf(b.orders[ids[i]]) == (side, price)
    requires forall id :: id in b.orders && KeyOf(b.orders[id]) == (side, price) ==> id in ids
    ensures QueueQty(b, ids) == QtyAt(b.orders, side, price)
    decreases |ids|
  {
    if ids == [] {
      forall id | id in b.orders ensures b.orders[id].side != side || b.orders[id].price != price {
        assert KeyOf(b.orders[id]) != (side, price);
      }
      NoneAt(b.orders, side, price);
    } else {
      var last, front := ids[|ids| - 1], ids[..|ids| - 1];
      var c := PriceBook(b.orders - {last}, b.fifo);
      QtyWithout(b.orders, last, side, price);
      forall i | 0 <= i < |front| ensures front[i] in c.orders && b.orders[front[i]] == c.orders[front[i]] {
        assert front[i] == ids[i] && ids[i] != last;
      }
      forall id | id in c.orders && KeyOf(c.orders[id]) == (side, price) ensures id in front {
        var i :| 0 <= i < |ids| && ids[i] == id;
        assert front[i] == id;
      }
      QueueIsQty(c, front, side, price);
      SameQueueQty(b, c, front);
    }
  }

  // ------------------------------------------------------------------ the quote of one side

  predicate Rests(b: PriceBook, side: Side) { exists id :: id in b.orders && b.orders[id].side == side }

  /** A price at which an order of the side rests and than which none rests better, with the whole quantity there;
      the sentinels when no order of the side rests. */
  ghost predicate QuoteOf(b: PriceBook, side: Side, price: int, qty: nat) {
    if Rests(b, side) then
      && (exists id :: id in b.orders && b.orders[id].side == side && b.orders[id].price == price)
      && (forall id :: id in b.orders && b.orders[id].side == side ==>
            if side.Buy? then b.orders[id].price <= price else b.orders[id].price >= price)
      && qty == QtyAt(b.orders, side, price)
    else price == PRICE_INVALID && qty == BOOK_QTY_INVALID
  }

  lemma BestIsQuote(b: PriceBook, side: Side)
    requires Wf(b) && side.Valid()
    ensures var p := BestPrice(b, side);
            QuoteOf(b, side, if p.None? then PRICE_INVALID else p.value,
                    if p.None? then BOOK_QTY_INVALID else QueueQty(b, b.fifo[(side, p.value)]))
  {
    var best := BestPrice(b, side);
    forall id | id in b.orders && b.orders[id].side == side
      ensures best.Some? && !Better(side, b.orders[id].price, best.value)
    {
      assert OrderWf(b, id);
      assert (side, b.orders[id].price) in b.fifo;
    }
    if best.Some? {
      var k := (side, best.value);
      assert QueueWf(b, k);
      var id := b.fifo[k][0];
      assert id in b.orders && KeyOf(b.orders[id]) == k;
      forall id | id in b.orders && KeyOf(b.orders[id]) == k ensures id in b.fifo[k] { assert OrderWf(b, id); }
      QueueIsQty(b, b.fifo[k], side, best.value);
    }
  }

  /** Both sides of the quote, over the orders of any well-formed book. */
  lemma QuotesAre(b: PriceBook)
    requires Wf(b)
    ensures QuoteOf(b, Buy, BboOf(b).bidPrice, BboOf(b).bidQty) && QuoteOf(b, Sell, BboOf(b).askPrice, BboOf(b).askQty)
  {
    hide Wf, QuoteOf, BestPrice, QueueQty;
    BestIsQuote(b, Buy);
    BestIsQuote(b, Sell);
  }

  // ------------------------------------------------------------------ never crossed

  /** Every bid is below every ask. */
  ghost predicate Apart(b: PriceBook) {
    forall x, y :: x in b.orders && y in b.orders && b.orders[x].side.Buy? && b.orders[y].side.Sell?
                   ==> b.orders[x].price < b.orders[y].price
  }

  lemma GenuineKeepsApart(b: PriceBook, me: TickerId, e: Event)
    requires Apart(b) && Genuine(b, me, e)
    ensures Apart(Effect(b, e))
  {
    var b' := Effect(b, e);
    forall x, y | x in b'.orders && y in b'.orders && b'.orders[x].side.Buy? && b'.orders[y].side.Sell?
      ensures b'.orders[x].price < b'.orders[y].price
    {
      if e.kind.Add? && x == e.orderId { assert b.orders[y].side == e.side.Opposite(); }
      if e.kind.Add? && y == e.orderId { assert b.orders[x].side == e.side.Opposite(); }
    }
  }

  /** In every state of the exchange's stream, also in the middle of a request, no ticker's book is crossed. */
  lemma {:induction false} StreamApart(stream: seq<Event>, k: nat, t: TickerId)
    requires GenuineStream(stream) && k <= |stream| && t < ME_MAX_TICKERS
    ensures Apart(BooksAt(stream, k)[t])
  {
    hide Apart, Genuine, Effect, GenuineStream;
    if k == 0 {
      EmptyApart();
    } else {
      StreamApart(stream, k - 1, t);
      StreamAt(stream, k - 1);
      var e := stream[k - 1];
      if e.ticker == t { GenuineKeepsApart(BooksAt(stream, k - 1)[t], t, e); }
    }
  }

  lemma EmptyApart()
    ensures Apart(EMPTY)
  {
  }

  /** A quote with two sides whose bid is below its ask, or with at most one side. */
  predicate Uncrossed(q: BBO) { q.bidPrice == PRICE_INVALID || q.askPrice == PRICE_INVALID || q.bidPrice < q.askPrice }

  lemma ApartUncrossed(b: PriceBook)
    requires Wf(b) && Apart(b)
    ensures Uncrossed(BboOf(b))
  {
    hide Wf, BboOf, QtyAt;
    QuotesAre(b);
  }

  /** Whenever a client's market is ready, no quote it holds is crossed, and each is that of the orders the exchange
      has announced. */
  lemma ReadyQuotesUncrossed(stream: seq<Event>, limit: nat, run: seq<Sys>, i: nat, j: nat, t: TickerId)
    requires GenuineStream(stream) && IsRun(stream, limit, run) && i <= j < |run| && t < ME_MAX_TICKERS
    requires run[i].applied == run[j].generation
    ensures var b := run[j].books[t];
            && Uncrossed(BboOf(b))
            && QuoteOf(b, Buy, BboOf(b).bidPrice, BboOf(b).bidQty) && QuoteOf(b, Sell, BboOf(b).askPrice, BboOf(b).askQty)
            && (BboOf(b).bidPrice == PRICE_INVALID <==> !Rests(b, Buy))
            && (BboOf(b).askPrice == PRICE_INVALID <==> !Rests(b, Sell))
            && exists k: nat :: k <= run[j].numbered && k <= |stream| && b == BooksAt(stream, k)[t]
  {
    hide IsRun, BooksAt, Apart, Uncrossed, QuoteOf, BboOf, Wf, GenuineStream, ProtocolProgress.Fits, Rests;
    MarketReadyMeansExact(stream, limit, run, i, j);
    var k: nat :| k <= run[j].numbered && k <= |stream| && run[j].books == BooksAt(stream, k);
    StreamIndexed(stream, k);
    StreamApart(stream, k, t);
    IndexedWf(BooksAt(stream, k)[t]);
    ApartUncrossed(run[j].books[t]);
    QuotesAre(run[j].books[t]);
    ProtocolProgress.StreamFits(stream, k, t);
    RealPrice(run[j].books[t], Buy, BboOf(run[j].books[t]).bidPrice, BboOf(run[j].books[t]).bidQty);
    RealPrice(run[j].books[t], Sell, BboOf(run[j].books[t]).askPrice, BboOf(run[j].books[t]).askQty);
  }

  /** No order of an exchange state has the sentinel for its price. */
  lemma RealPrice(b: PriceBook, side: Side, price: int, qty: nat)
    requires ProtocolProgress.Fits(b) && QuoteOf(b, side, price, qty)
    ensures price == PRICE_INVALID <==> !Rests(b, side)
  {
    if id :| id in b.orders && b.orders[id].side == side && b.orders[id].price == price {
      assert ProtocolProgress.OrderGood(b, id);
    }
  }

  lemma IndexedWf(b: PriceBook)
    requires Indexed(b)
    ensures Wf(b)
  {
  }
}
