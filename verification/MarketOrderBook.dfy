/** The client's book of one ticker: it validates every event, then applies it. */
module MarketOrderBooks {
  import opened Types
  import opened Rings
  import opened PriceBooks
  import opened PriceLadders
  import opened MemPools
  import opened Replay

  class MarketOrderBook {
    const tickerId: TickerId
    const ladder: PriceLadder
    var oidToOrder: map<OrderId, Slot>
    var liveOrderIds: set<OrderId>
    var bbo: BBO

    ghost function Repr(): set<object> { {this} + ladder.Repr() }

    ghost function Contents(): PriceBook
      reads ladder
    {
      ladder.view
    }

    /** The id index names exactly the orders of the book, and the best quotes are those of the book. */
    ghost predicate Valid()
      reads Repr()
    {
      && this !in ladder.Repr() && ladder.Valid()
      && oidToOrder == ladder.slotOf
      && liveOrderIds == ladder.view.orders.Keys
      && bbo == BboOf(ladder.view)
    }

    constructor (ticker: TickerId)
      ensures Valid() && fresh(Repr()) && tickerId == ticker && Contents() == EMPTY
    {
      hide PriceLadder.Valid, BboOf;
      tickerId := ticker;
      ladder := new PriceLadder();
      oidToOrder, liveOrderIds := map[], {};
      bbo := NO_BBO;
      new;
      ladder.EmptyIndex();
    }

    /** `updateBBO` for both sides. */
    method UpdateBBO()
      requires this !in ladder.Repr() && ladder.Valid()
      modifies `bbo
      ensures ladder.Valid() && bbo == BboOf(ladder.view)
    {
      hide PriceLadder.Shape;
      var bid, bidQty := ladder.BestOf(Buy);
      var ask, askQty := ladder.BestOf(Sell);
      bbo := BBO(bid, bidQty, ask, askQty);
    }

    /** Both pools have room for the order of an ADD. */
    ghost predicate Room(e: Event)
      reads ladder, ladder.orderPool, ladder.levelPool
    {
      && |ladder.orderPool.store| < ME_MAX_ORDER_IDS
      && ((e.side, e.price) in ladder.view.fifo || |ladder.levelPool.store| < ME_MAX_PRICE_LEVELS)
    }

    /** The checks of `onMarketUpdate`, made on the pools and the id index. */
    method Check(e: Event) returns (ok: bool)
      requires Valid()
      ensures ok == ClientAccepts(Contents(), tickerId, e)
      ensures ok && e.kind.Add? ==> Room(e)
    {
      hide PriceLadder.Shape, Wf, BboOf;
      ladder.Counts();
      if e.ticker != tickerId {
        return false;
      }
      if e.kind.Add? || e.kind.Modify? || e.kind.Cancel? {
        if e.orderId == 0 || e.orderId >= ME_MAX_ORDER_IDS {
          return false;
        }
        if e.kind.Add? {
          ladder.IdKeys();
          ok := e.orderId !in oidToOrder && ladder.orderPool.Available() > 0
                && (e.side == Buy || e.side == Sell) && e.price > 0 && e.price != PRICE_INVALID
                && e.qty != 0 && e.qty != QTY_INVALID
                && (ladder.LevelAt((e.side, e.price)) != NULL || ladder.levelPool.Available() > 0);
          return ok;
        }
        ladder.IdKeys();
        if e.orderId !in oidToOrder {
          return false;
        }
        ladder.IdFacts(e.orderId);
        var order := ladder.ReadOrder(oidToOrder[e.orderId]);
        ok := order.side == e.side && order.price == e.price
              && (e.kind.Modify? ==> e.qty != 0 && e.qty != QTY_INVALID);
        return ok;
      }
      ok := true;
    }

    /** Applies an event that passed the checks to the ladder and the id index. */
    method Apply(e: Event)
      requires Valid() && ClientAccepts(Contents(), tickerId, e)
      requires e.kind.Add? ==> Room(e)
      modifies `oidToOrder, `liveOrderIds, ladder.Repr()
      ensures ladder.Valid() && oidToOrder == ladder.slotOf && liveOrderIds == ladder.view.orders.Keys
      ensures Contents() == Effect(old(Contents()), e)
    {
      hide PriceLadder.Valid, BboOf, Without;
      if e.kind.Add? {
        var x := ladder.PlaceOrder(EventOrder(e));
        oidToOrder := oidToOrder[e.orderId := x];
        liveOrderIds := liveOrderIds + {e.orderId};
      } else if e.kind.Modify? {
        ladder.IdFacts(e.orderId);
        ladder.ValueId(e.orderId);
        ladder.SetOrderQty(oidToOrder[e.orderId], e.qty);
      } else if e.kind.Cancel? {
        ladder.IdFacts(e.orderId);
        ladder.ValueId(e.orderId);
        ladder.RemoveOrder(oidToOrder[e.orderId]);
        oidToOrder := oidToOrder - {e.orderId};
        liveOrderIds := liveOrderIds - {e.orderId};
      } else if e.kind.Clear? {
        ladder.Clear(oidToOrder);
        oidToOrder, liveOrderIds := map[], {};
      }
    }

    /** `onMarketUpdate`: applies exactly the events of `ClientAccepts`; a rejected event changes nothing. */
    method OnMarketUpdate(e: Event) returns (ok: bool)
      requires Valid()
      modifies Repr()
      ensures Valid()
      ensures ok == ClientAccepts(old(Contents()), tickerId, e)
      ensures Contents() == if ok then Effect(old(Contents()), e) else old(Contents())
    {
      hide PriceLadder.Valid, BboOf, ClientAccepts, Append, Delete, SetQty;
      ok := Check(e);
      if !ok {
        return;
      }
      Apply(e);
      if e.kind.Trade? {
        return;
      }
      UpdateBBO();
    }
  }
}
