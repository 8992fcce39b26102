/** The client's book under any events at all, genuine or not: what it takes never breaks it. */
module FedBooks {
  import opened Types
  import opened PriceBooks
  import opened MatchSpec
  import opened Replay
  import opened MarketStream
  import opened ProtocolProgress

  /** A book after some events, of which it takes those its checks accept. */
  function Fed(b: PriceBook, me: TickerId, es: seq<Event>): PriceBook {
    if es == [] then b
    else
      var c, e := Fed(b, me, es[..|es| - 1]), es[|es| - 1];
      if ClientAccepts(c, me, e) then Effect(c, e) else c
  }

  /** Consistent, within the client's pools, ids that index its arrays, prices and quantities that mean something. */
  ghost predicate Healthy(b: PriceBook) {
    Wf(b) && Fits(b) && forall id :: id in b.orders ==> 0 < id < ME_MAX_ORDER_IDS && Meaningful(b.orders[id])
  }

  predicate Meaningful(o: Order) {
    && (o.side.Buy? || o.side.Sell?) && o.price > 0 && o.price != PRICE_INVALID && o.qty > 0 && o.qty != QTY_INVALID
  }

  lemma AcceptedKeepsHealthy(b: PriceBook, me: TickerId, e: Event)
    requires Healthy(b) && ClientAccepts(b, me, e)
    ensures Healthy(Effect(b, e))
  {
    hide Append, Delete, SetQty, Wf, Fits;
    if e.kind.Add? {
      AppendWf(b, EventOrder(e));
      AppendFits(b, EventOrder(e));
      AppendIds(b, EventOrder(e));
    } else if e.kind.Modify? {
      SetQtyWf(b, e.orderId, e.qty);
      SetQtyFits(b, e.orderId, e.qty);
      SetQtyIds(b, e.orderId, e.qty);
    } else if e.kind.Cancel? {
      DeleteWf(b, e.orderId);
      DeleteFits(b, e.orderId);
      DeleteIds(b, e.orderId);
    } else if e.kind.Clear? {
      NothingHealthy();
    }
  }

  lemma AppendIds(b: PriceBook, o: Order)
    ensures Append(b, o).orders == b.orders[o.id := o]
  {
  }

  lemma SetQtyIds(b: PriceBook, id: OrderId, qty: nat)
    requires id in b.orders
    ensures SetQty(b, id, qty).orders == b.orders[id := b.orders[id].(qty := qty)]
  {
  }

  lemma DeleteIds(b: PriceBook, id: OrderId)
    requires id in b.orders
    ensures forall x :: x in Delete(b, id).orders ==> x in b.orders && Delete(b, id).orders[x] == b.orders[x]
  {
  }

  lemma NothingHealthy()
    ensures Healthy(EMPTY)
  {
  }

  /** Whatever arrives, the book stays healthy. */
  lemma {:induction false} AnyEvents(me: TickerId, es: seq<Event>)
    ensures Healthy(Fed(EMPTY, me, es))
    decreases |es|
  {
    hide Healthy, ClientAccepts, Effect;
    if es == [] {
      NothingHealthy();
    } else {
      AnyEvents(me, es[..|es| - 1]);
      var b := Fed(EMPTY, me, es[..|es| - 1]);
      if ClientAccepts(b, me, es[|es| - 1]) { AcceptedKeepsHealthy(b, me, es[|es| - 1]); }
    }
  }

  /** What is refused: another ticker's event, an ADD of a known id, and a MODIFY or CANCEL that names no order of the
      book or another side or price than its own. What an accepted one leaves alone: every other order. */
  lemma RefusedAndTouched(b: PriceBook, me: TickerId, e: Event)
    ensures e.ticker != me ==> !ClientAccepts(b, me, e)
    ensures e.kind.Add? && e.orderId in b.orders ==> !ClientAccepts(b, me, e)
    ensures (e.kind.Modify? || e.kind.Cancel?) && ClientAccepts(b, me, e) ==>
              e.orderId in b.orders && (e.side, e.price) == KeyOf(b.orders[e.orderId])
    ensures ClientAccepts(b, me, e) && !e.kind.Clear? ==>
              forall id :: id != e.orderId ==> (id in Effect(b, e).orders <==> id in b.orders)
                                               && (id in b.orders ==> Effect(b, e).orders[id] == b.orders[id])
  {
    hide Without;
  }
}
