/**
 Market events and the books they drive. One event has one effect on a book; receivers differ only in
 what they accept.
*/
module Replay {
  import opened Types
  import opened Rings
  import opened PriceBooks
  import opened MatchSpec
  import opened MatchInvariants

  /** The book as market data shows it: the same orders and queues, without owners. */
  ghost function Public(b: PriceBook): PriceBook {
    PriceBook(map id | id in b.orders :: b.orders[id].(owner := ANONYMOUS), b.fifo)
  }

  function EventOrder(e: Event): Order {
    Order(ANONYMOUS, e.orderId, e.side, e.price, e.qty, e.priority)
  }

  /** TRADE does not change the book; MODIFY sets the remaining quantity; CANCEL removes. */
  function Effect(b: PriceBook, e: Event): PriceBook {
    if e.kind.Add? then Append(b, EventOrder(e))
    else if e.kind.Modify? && e.orderId in b.orders then SetQty(b, e.orderId, e.qty)
    else if e.kind.Cancel? && e.orderId in b.orders then Delete(b, e.orderId)
    else if e.kind.Clear? then EMPTY
    else b
  }

  predicate Names(b: PriceBook, e: Event) {
    e.orderId in b.orders && b.orders[e.orderId].side == e.side && b.orders[e.orderId].price == e.price
  }

  predicate GoodQty(q: nat) { q > 0 && q != QTY_INVALID }

  predicate GoodPrice(p: int) { p > 0 && p != PRICE_INVALID }

  /** `MarketOrderBook::onMarketUpdate`: what the client book of one ticker applies. */
  predicate ClientAccepts(b: PriceBook, me: TickerId, e: Event) {
    && e.ticker == me
    && (e.kind.Add? || e.kind.Modify? || e.kind.Cancel? ==> 0 < e.orderId < ME_MAX_ORDER_IDS)
    && (e.kind.Add? ==>
          && e.orderId !in b.orders && |b.orders| < ME_MAX_ORDER_IDS && e.side.Valid()
          && GoodPrice(e.price) && GoodQty(e.qty)
          && ((e.side, e.price) in b.fifo || |b.fifo| < ME_MAX_PRICE_LEVELS))
    && (e.kind.Modify? ==> Names(b, e) && GoodQty(e.qty))
    && (e.kind.Cancel? ==> Names(b, e))
  }

  /** `MarketRecovery::apply`: what the rebuilding of one ticker's orders accepts. */
  predicate RecoveryAccepts(orders: map<OrderId, Order>, e: Event) {
    match e.kind
    case Clear => true
    case Trade => GoodQty(e.qty) && GoodPrice(e.price) && e.side.Valid()
    case Add =>
      && 0 < e.orderId < ME_MAX_ORDER_IDS && e.orderId !in orders && GoodPrice(e.price) && GoodQty(e.qty)
      && e.priority != 0 && e.priority != PRIORITY_INVALID && e.side.Valid()
    case Modify =>
      && 0 < e.orderId < ME_MAX_ORDER_IDS && e.orderId in orders && orders[e.orderId].side == e.side
      && orders[e.orderId].price == e.price && GoodQty(e.qty)
    case Cancel =>
      && 0 < e.orderId < ME_MAX_ORDER_IDS && e.orderId in orders && orders[e.orderId].side == e.side
      && orders[e.orderId].price == e.price
    case _ => false
  }

  /** `addToSnapshot`: what the synthesizer does not stop on. */
  predicate SynthesizerAccepts(orders: map<OrderId, Order>, e: Event) {
    && (e.kind.Add? || e.kind.Modify? || e.kind.Cancel? ==> 0 < e.orderId < ME_MAX_ORDER_IDS)
    && (e.kind.Add? ==> e.orderId !in orders)
    && (e.kind.Modify? || e.kind.Cancel? ==> e.orderId in orders && orders[e.orderId].side == e.side)
  }

  /** What an exchange event satisfies against the public book it was emitted on. */
  ghost predicate Genuine(b: PriceBook, me: TickerId, e: Event) {
    && (e.kind.Add? || e.kind.Modify? || e.kind.Cancel? || e.kind.Trade?)
    && ClientAccepts(b, me, e)
    && RecoveryAccepts(b.orders, e)
    && (e.kind.Add? ==> e.priority <= e.orderId && forall id :: id in b.orders ==> id < e.orderId)
    && (e.kind.Add? ==> e.priority == NextPriorityOf(b, (e.side, e.price)) && Uncontested(b, e.side, e.price))
  }

  /** No order of the other side crosses the price. */
  ghost predicate Uncontested(b: PriceBook, side: Side, price: int) {
    forall id :: id in b.orders && b.orders[id].side == side.Opposite() ==>
              if side.Buy? then price < b.orders[id].price else b.orders[id].price < price
  }

  /** `getNextPriority` for a book that may not be well formed. */
  function NextPriorityOf(b: PriceBook, k: Key): nat {
    if k in b.fifo && b.fifo[k] != [] && b.fifo[k][|b.fifo[k]| - 1] in b.orders
    then b.orders[b.fifo[k][|b.fifo[k]| - 1]].priority + 1 else 1
  }

  /** All events of `es` in turn are genuine; `After` is where they lead. */
  ghost predicate GenuineRun(b: PriceBook, me: TickerId, es: seq<Event>)
    decreases |es|
  {
    es == [] || (Genuine(b, me, es[0]) && GenuineRun(Effect(b, es[0]), me, es[1..]))
  }

  function After(b: PriceBook, es: seq<Event>): PriceBook
    decreases |es|
  {
    if es == [] then b else After(Effect(b, es[0]), es[1..])
  }

  lemma {:induction false} RunConcat(b: PriceBook, me: TickerId, a: seq<Event>, c: seq<Event>)
    ensures After(b, a + c) == After(After(b, a), c)
    ensures GenuineRun(b, me, a + c) <==> GenuineRun(b, me, a) && GenuineRun(After(b, a), me, c)
    decreases |a|
  {
    if a == [] {
      assert a + c == c;
    } else {
      assert (a + c)[1..] == a[1..] + c;
      RunConcat(Effect(b, a[0]), me, a[1..], c);
    }
  }

  lemma RunOne(b: PriceBook, me: TickerId, e: Event)
    ensures After(b, [e]) == Effect(b, e) && (GenuineRun(b, me, [e]) <==> Genuine(b, me, e))
  {
    assert [e][1..] == [];
  }

  lemma RunTwo(b: PriceBook, me: TickerId, x: Event, y: Event)
    ensures After(b, [x, y]) == Effect(Effect(b, x), y)
    ensures GenuineRun(b, me, [x, y]) <==> Genuine(b, me, x) && Genuine(Effect(b, x), me, y)
  {
    assert [x, y][1..] == [y];
    RunOne(Effect(b, x), me, y);
  }

  lemma PublicAppend(b: PriceBook, o: Order)
    ensures Public(Append(b, o)) == Append(Public(b), o.(owner := ANONYMOUS))
  {
  }

  lemma PublicDelete(b: PriceBook, id: OrderId)
    requires id in b.orders
    ensures Public(Delete(b, id)) == Delete(Public(b), id)
  {
    assert Public(Delete(b, id)).orders == Delete(Public(b), id).orders;
  }

  lemma PublicSetQty(b: PriceBook, id: OrderId, qty: nat)
    requires id in b.orders
    ensures Public(SetQty(b, id, qty)) == SetQty(Public(b), id, qty)
  {
    assert Public(SetQty(b, id, qty)).orders == SetQty(Public(b), id, qty).orders;
  }

  lemma PublicSizes(b: PriceBook)
    ensures Public(b).orders.Keys == b.orders.Keys && |Public(b).orders| == |b.orders|
    ensures Public(b).fifo == b.fifo
  {
    assert Public(b).orders.Keys == b.orders.Keys;
  }

  /** A resting order that events may name. */
  ghost predicate Nameable(b: PriceBook) {
    forall id :: id in b.orders ==> 0 < id < ME_MAX_ORDER_IDS && GoodPrice(b.orders[id].price)
                                    && b.orders[id].qty <= INT32_MAX && b.orders[id].side.Valid()
                                    && b.orders[id].id == id
  }

  lemma TradeReplays(b: PriceBook, t: Taker, maker: OrderId, leaves: nat)
    requires Sound(b) && Nameable(b) && maker in b.orders && 0 < leaves <= INT32_MAX && t.side.Valid()
    ensures var e := Fill(b, t, maker, leaves).events[0];
            Genuine(Public(b), t.ticker, e) && Effect(Public(b), e) == Public(b)
  {
    hide Wf, Delete, SetQty;
  }

  lemma MakerReplays(b: PriceBook, t: Taker, maker: OrderId, leaves: nat)
    requires Sound(b) && Nameable(b) && maker in b.orders && 0 < leaves <= INT32_MAX && t.side.Valid()
    ensures var f := Fill(b, t, maker, leaves);
            && |f.events| == 2 && Genuine(Public(b), t.ticker, f.events[1])
            && Effect(Public(b), f.events[1]) == Public(f.book)
  {
    hide Wf, Delete, SetQty;
    PublicSizes(b);
    var m := b.orders[maker];
    if m.qty <= leaves { PublicDelete(b, maker); } else { PublicSetQty(b, maker, m.qty - leaves); }
  }

  lemma StaysNameable(b: PriceBook, t: Taker, maker: OrderId, leaves: nat)
    requires Sound(b) && Nameable(b) && maker in b.orders
    ensures Nameable(Fill(b, t, maker, leaves).book)
  {
    hide Wf;
  }

  /** One execution's events lead any replica from the old public book to the new one. */
  lemma FillReplays(b: PriceBook, t: Taker, maker: OrderId, leaves: nat)
    requires Sound(b) && Nameable(b) && maker in b.orders && leaves > 0 && leaves <= INT32_MAX && t.side.Valid()
    ensures var f := Fill(b, t, maker, leaves);
            && GenuineRun(Public(b), t.ticker, f.events)
            && After(Public(b), f.events) == Public(f.book)
            && Nameable(f.book)
  {
    hide Fill, Sound, Nameable, Genuine, Effect, Public;
    TradeReplays(b, t, maker, leaves);
    MakerReplays(b, t, maker, leaves);
    StaysNameable(b, t, maker, leaves);
    var f := Fill(b, t, maker, leaves);
    assert f.events == [f.events[0], f.events[1]];
    RunTwo(Public(b), t.ticker, f.events[0], f.events[1]);
  }

  lemma {:induction false} MatchReplays(b: PriceBook, t: Taker, leaves: nat)
    requires Sound(b) && Nameable(b) && leaves <= INT32_MAX && t.side.Valid()
    ensures var m := MatchAll(b, t, leaves);
            GenuineRun(Public(b), t.ticker, m.events) && After(Public(b), m.events) == Public(m.book)
    decreases leaves
  {
    if leaves > 0 && NextMaker(b, t).Some? {
      var maker := NextMaker(b, t).value;
      FillSound(b, t, maker, leaves);
      FillReplays(b, t, maker, leaves);
      var f := Fill(b, t, maker, leaves);
      MatchReplays(f.book, t, f.leaves);
      RunConcat(Public(b), t.ticker, f.events, MatchAll(f.book, t, f.leaves).events);
    }
  }

  lemma InvNameable(b: Book)
    requires BookInv(b)
    ensures Nameable(b.resting)
  {
    forall id | id in b.resting.orders
      ensures 0 < id < ME_MAX_ORDER_IDS && GoodPrice(b.resting.orders[id].price)
              && b.resting.orders[id].qty <= INT32_MAX && b.resting.orders[id].side.Valid()
              && b.resting.orders[id].id == id
    {
      assert InBounds(b, id) && OrderWf(b.resting, id) && QueueWf(b.resting, KeyOf(b.resting.orders[id]));
    }
  }

  /** The events of an `add` are genuine and lead from the old public book to the new one: replicas that
      were equal before the request are equal after it, orders and queues alike. */
  lemma AddReplays(b: Book, me: TickerId, o: Owner, ticker: TickerId, side: Side, price: int, qty: nat)
    requires BookInv(b)
    ensures var s := AddOrder(b, me, o, ticker, side, price, qty);
            GenuineRun(Public(b.resting), me, s.events) && After(Public(b.resting), s.events) == Public(s.book.resting)
  {
    hide MatchAll, Rest, Sound, Wf, AllAscending, Uncrossed, OwnersDiffer, Nameable, Genuine, Effect, Uncontested;
    if AddReason(b, me, o, ticker, side, price, qty) == NoReason {
      var t := Taker(o, ticker, side, price, b.nextId);
      InvNameable(b);
      MatchReplays(b.resting, t, qty);
      RoomForRest(b, me, t, qty);
      MatchThins(b.resting, t, qty);
      var m := MatchAll(b.resting, t, qty);
      forall id | id in m.book.orders ensures id < t.id && m.book.orders[id].priority <= id {
        assert InBounds(b, id);
      }
      if m.leaves > 0 {
        MeetsNone(m.book, t);
        RestReplays(m, me, t);
        var r := Rest(m, t);
        assert r.events == m.events + [r.events[|m.events|]];
        RunConcat(Public(b.resting), me, m.events, [r.events[|m.events|]]);
        RunOne(Public(m.book), me, r.events[|m.events|]);
      } else {
        NothingRests(m, t);
      }
    }
  }

  /** A taker that meets no order any more could trade with none. */
  lemma MeetsNone(b: PriceBook, t: Taker)
    requires Sound(b) && AllAscending(b) && t.side.Valid() && NextMaker(b, t).None?
    ensures Uncontested(b, t.side, t.price)
  {
    NextMakerIsFirst(b, t);
  }

  lemma NothingRests(m: Matched, t: Taker)
    requires Sound(m.book) && m.leaves == 0
    ensures Rest(m, t) == m
  {
  }

  lemma LastInQueue(b: PriceBook, k: Key)
    requires Wf(b)
    ensures k in b.fifo ==> b.fifo[k] != [] && b.fifo[k][|b.fifo[k]| - 1] in b.orders
  {
    assert k in b.fifo ==> QueueWf(b, k);
  }

  lemma RestReplays(m: Matched, me: TickerId, t: Taker)
    requires Sound(m.book) && 0 < m.leaves <= INT32_MAX && t.ticker == me
    requires 0 < t.id < ME_MAX_ORDER_IDS && t.side.Valid() && GoodPrice(t.price)
    requires forall id :: id in m.book.orders ==> id < t.id && m.book.orders[id].priority <= id
    requires |m.book.orders| < ME_MAX_ORDER_IDS
    requires (t.side, t.price) in m.book.fifo || |m.book.fifo| < ME_MAX_PRICE_LEVELS
    requires Uncontested(m.book, t.side, t.price)
    ensures var r := Rest(m, t);
            && |r.events| == |m.events| + 1 && r.events[..|m.events|] == m.events
            && Genuine(Public(m.book), me, r.events[|m.events|])
            && Effect(Public(m.book), r.events[|m.events|]) == Public(r.book)
  {
    hide Wf, Append, QueueWf;
    PublicSizes(m.book);
    var k := (t.side, t.price);
    LastInQueue(m.book, k);
    PublicAppend(m.book, Order(t.owner, t.id, t.side, t.price, m.leaves, NextPriority(m.book, k)));
  }

  /** So are the events of a `cancel`. */
  lemma CancelReplays(b: Book, me: TickerId, o: Owner, ticker: TickerId)
    requires BookInv(b)
    ensures var s := CancelOf(b, me, o, ticker);
            GenuineRun(Public(b.resting), me, s.events) && After(Public(b.resting), s.events) == Public(s.book.resting)
  {
    InvNameable(b);
    var s := CancelOf(b, me, o, ticker);
    if s.events != [] {
      var id := OrderOf(b.resting, o).value;
      PublicDelete(b.resting, id);
      assert s.events[1..] == [];
      assert Effect(Public(b.resting), s.events[0]) == Public(s.book.resting);
      assert Genuine(Public(b.resting), me, s.events[0]);
    }
  }
}
