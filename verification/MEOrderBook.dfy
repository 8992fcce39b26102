/** The matching book of one ticker, against its specification. */
module MEOrderBooks {
  import opened Types
  import opened Rings
  import opened PriceBooks
  import opened MatchSpec
  import opened MatchInvariants
  import opened PriceLadders
  import opened MemPools

  lemma DeleteEmptied(b: PriceBook, id: OrderId)
    requires id in b.orders
    ensures Delete(SetQty(b, id, 0), id) == Delete(b, id)
  {
    assert SetQty(b, id, 0).orders - {id} == b.orders - {id};
  }

  /** The client index names exactly the orders in the pool. */
  ghost predicate ClientIndexOk(cid: map<Owner, Slot>, st: Store<Order>) {
    && (forall o :: o in cid ==> cid[o] in st && st[cid[o]].val.owner == o)
    && (forall x :: x in st ==> st[x].val.owner in cid && cid[st[x].val.owner] == x)
  }

  lemma ClientIndexAdd(cid: map<Owner, Slot>, st: Store<Order>, x: Slot, o: Order, st': Store<Order>)
    requires ClientIndexOk(cid, st) && x !in st && o.owner !in cid
    requires st'.Keys == st.Keys + {x} && st'[x].val == o
    requires forall y :: y in st ==> st'[y].val == st[y].val
    ensures ClientIndexOk(cid[o.owner := x], st')
  {
  }

  lemma ClientIndexDrop(cid: map<Owner, Slot>, st: Store<Order>, x: Slot, st': Store<Order>)
    requires ClientIndexOk(cid, st) && x in st && st'.Keys == st.Keys - {x}
    requires forall y :: y in st' ==> st'[y].val == st[y].val
    ensures ClientIndexOk(cid - {st[x].val.owner}, st')
  {
  }

  lemma ClientIndexKeep(cid: map<Owner, Slot>, st: Store<Order>, st': Store<Order>)
    requires ClientIndexOk(cid, st) && st'.Keys == st.Keys
    requires forall y :: y in st' ==> st'[y].val.owner == st[y].val.owner
    ensures ClientIndexOk(cid, st')
  {
  }

  lemma RememberNone(h: map<Owner, Response>)
    ensures RememberAll(h, []) == h
  {
  }

  lemma RememberOne(h: map<Owner, Response>, r: Response)
    ensures RememberAll(h, [r]) == Remember(h, r)
  {
    assert [r][..0] == [];
  }

  lemma RememberTwo(h: map<Owner, Response>, r1: Response, r2: Response)
    ensures RememberAll(h, [r1, r2]) == Remember(Remember(h, r1), r2)
  {
    assert [r1, r2][..1] == [r1] && [r1][..0] == [];
    assert RememberAll(h, [r1]) == Remember(RememberAll(h, []), r1);
  }

  /** The whole match is what was sent so far, followed by the rest of it. */
  ghost predicate Follows(all: Matched, rs: seq<Response>, es: seq<Event>, rest: Matched) {
    && all.book == rest.book && all.leaves == rest.leaves
    && all.responses == rs + rest.responses && all.events == es + rest.events
  }

  /** The oldest order at the best price of a side. */
  ghost predicate IsHead(b: PriceBook, side: Side, o: Order)
  {
    BestPrice(b, side).Some? &&
    var k := (side, BestPrice(b, side).value);
    && k in b.fifo && b.fifo[k] != [] && b.fifo[k][0] in b.orders && o == b.orders[b.fifo[k][0]]
  }

  lemma HeadIsNext(b: PriceBook, t: Taker, o: Order)
    requires Sound(b) && IsHead(b, t.side.Opposite(), o)
    ensures NextMaker(b, t) == if Crosses(t.side, t.price, o.price) then Some(o.id) else None
    ensures o.id in b.orders && o == b.orders[o.id] && o.qty > 0
  {
    var k := (t.side.Opposite(), BestPrice(b, t.side.Opposite()).value);
    assert QueueWf(b, k);
    assert OrderWf(b, b.fifo[k][0]);
  }

  lemma MatchEnds(all: Matched, rs: seq<Response>, es: seq<Event>, b: PriceBook, t: Taker, leaves: nat)
    requires Sound(b) && (leaves == 0 || NextMaker(b, t) == None)
    requires Follows(all, rs, es, MatchAll(b, t, leaves))
    ensures all == Matched(b, leaves, rs, es)
  {
  }

  /** A match is its first execution and the rest. */
  lemma MatchFirst(b: PriceBook, t: Taker, leaves: nat, id: OrderId)
    requires Sound(b) && leaves > 0 && NextMaker(b, t) == Some(id)
    ensures id in b.orders && Sound(Fill(b, t, id, leaves).book) && Fill(b, t, id, leaves).leaves < leaves
    ensures var f := Fill(b, t, id, leaves); var rest := MatchAll(f.book, t, f.leaves);
            MatchAll(b, t, leaves) == Matched(rest.book, rest.leaves, f.responses + rest.responses, f.events + rest.events)
  {
    hide Wf;
    FillSound(b, t, id, leaves);
  }

  lemma MatchStep(all: Matched, rs: seq<Response>, es: seq<Event>, b: PriceBook, t: Taker, leaves: nat, id: OrderId)
    requires Sound(b) && leaves > 0 && NextMaker(b, t) == Some(id)
    requires Follows(all, rs, es, MatchAll(b, t, leaves))
    ensures id in b.orders && Sound(Fill(b, t, id, leaves).book)
    ensures var f := Fill(b, t, id, leaves);
            f.leaves < leaves && Follows(all, rs + f.responses, es + f.events, MatchAll(f.book, t, f.leaves))
  {
    hide MatchAll, Fill, Sound;
    MatchFirst(b, t, leaves, id);
    var f := Fill(b, t, id, leaves);
    var rest := MatchAll(f.book, t, f.leaves);
    assert (rs + f.responses) + rest.responses == rs + (f.responses + rest.responses);
    assert (es + f.events) + rest.events == es + (f.events + rest.events);
  }

  lemma OwnerNames(b: Book, id: OrderId, o: Owner)
    requires BookInv(b) && id in b.resting.orders && b.resting.orders[id].owner == o
    ensures OrderOf(b.resting, o) == Some(id)
  {
  }

  lemma AddIs(b: Book, me: TickerId, t: Taker, qty: nat)
    requires BookInv(b) && AddReason(b, me, t.owner, t.ticker, t.side, t.price, qty) == NoReason
    requires t.id == b.nextId
    ensures Sound(b.resting) && t.side.Valid()
    ensures var s := AddOrder(b, me, t.owner, t.ticker, t.side, t.price, qty);
            var m := MatchAll(b.resting, t, qty); var k := (t.side, t.price);
            && s.responses == [AcceptedResponse(t.owner, t.ticker, t.id, t.side, t.price, qty)] + m.responses
            && s.book.nextId == b.nextId + 1 && s.book.used == b.used + {t.owner}
            && s.book.history == RememberAll(b.history, s.responses)
            && (m.leaves == 0 ==> s.book.resting == m.book && s.events == m.events)
            && (m.leaves > 0 ==>
                  && (k in m.book.fifo ==> m.book.fifo[k] != [] && m.book.fifo[k][|m.book.fifo[k]| - 1] in m.book.orders)
                  && s.book.resting == Append(m.book, Order(t.owner, t.id, t.side, t.price, m.leaves, NextPriority(m.book, k)))
                  && s.events == m.events + [Event(EventType.Add, t.id, t.ticker, t.side, t.price, m.leaves,
                                                   NextPriority(m.book, k))])
  {
    MatchSound(b.resting, t, qty);
    var m := MatchAll(b.resting, t, qty);
    assert (t.side, t.price) in m.book.fifo ==> QueueWf(m.book, (t.side, t.price));
  }

  class MEOrderBook {
    const tickerId: TickerId
    const ladder: PriceLadder
    var cidOidToOrder: map<Owner, Slot>
    var lastOrderResponse: map<Owner, Response>
    var nextMarketOrderId: OrderId
    var usedClientOrderIds: set<Owner>

    /** What the response and market sinks have received. */
    var responses: seq<Response>
    var events: seq<Event>

    ghost function Repr(): set<object> { {this} + ladder.Repr() }

    ghost function Contents(): Book
      reads this, ladder
    {
      Book(ladder.view, nextMarketOrderId, usedClientOrderIds, lastOrderResponse)
    }

    ghost predicate Structure()
      reads `cidOidToOrder, ladder.Repr()
    {
      this !in ladder.Repr() && ladder.Valid() && ClientIndexOk(cidOidToOrder, ladder.orderPool.store)
    }

    ghost predicate Valid()
      reads Repr()
    {
      Structure() && BookInv(Contents())
    }

    constructor (ticker: TickerId)
      ensures Valid() && fresh(Repr()) && tickerId == ticker
      ensures Contents() == EMPTY_BOOK && responses == [] && events == []
    {
      hide PriceLadder.Valid, BookInv;
      tickerId := ticker;
      ladder := new PriceLadder();
      cidOidToOrder, lastOrderResponse := map[], map[];
      nextMarketOrderId, usedClientOrderIds := 1, {};
      responses, events := [], [];
      new;
      ladder.Counts();
      EmptyBookInv();
    }

    static lemma EmptyBookInv()
      ensures BookInv(EMPTY_BOOK)
    {
    }

    method EmitResponse(r: Response)
      modifies `lastOrderResponse, `responses
      ensures responses == old(responses) + [r] && lastOrderResponse == Remember(old(lastOrderResponse), r)
    {
      if r.client < ME_MAX_NUM_CLIENTS && !r.kind.Rejected? && !r.kind.CancelRejected? && !r.kind.State? {
        lastOrderResponse := lastOrderResponse[Owner(r.client, r.clientOrderId) := r];
      }
      responses := responses + [r];
    }

    method EmitMarket(e: Event)
      modifies `events
      ensures events == old(events) + [e]
    {
      events := events + [e];
    }

    /** Takes an order out of the ladder and out of the client index. */
    method RemoveOrder(x: Slot)
      requires Structure() && x in ladder.orderPool.store
      modifies `cidOidToOrder, ladder.Repr()
      ensures Structure()
      ensures var o := old(ladder.orderPool.store)[x].val;
              o.id in old(ladder.view).orders && ladder.view == Delete(old(ladder.view), o.id)
    {
      hide PriceLadder.Valid, ClientIndexOk, Delete;
      var order := ladder.ReadOrder(x);
      cidOidToOrder := cidOidToOrder - {order.owner};
      ladder.RemoveOrder(x);
      ClientIndexDrop(old(cidOidToOrder), old(ladder.orderPool.store), x, ladder.orderPool.store);
    }

    /** The order the taker would meet next; null when the other side is empty. */
    method FirstOpposite(t: Taker) returns (itr: int)
      requires Structure() && Sound(ladder.view) && t.side.Valid()
      ensures itr == NULL ==> NextMaker(ladder.view, t) == None
      ensures itr != NULL ==> itr >= 0 && itr in ladder.orderPool.store
                              && IsHead(ladder.view, t.side.Opposite(), ladder.orderPool.store[itr].val)
    {
      hide PriceLadder.Valid, ClientIndexOk;
      itr := ladder.BestOrder(t.side.Opposite());
    }

    /** Writes a resting order's remaining quantity in place. */
    method SetQty(x: Slot, qty: nat)
      requires Structure() && x in ladder.orderPool.store
      modifies ladder.Repr()
      ensures Structure() && ladder.orderPool.store.Keys == old(ladder.orderPool.store).Keys
      ensures var o := old(ladder.orderPool.store)[x].val;
              && o.id in old(ladder.view).orders
              && ladder.view == PriceBooks.SetQty(old(ladder.view), o.id, qty)
              && ladder.orderPool.store[x].val == o.(qty := qty)
    {
      hide PriceLadder.Valid, ClientIndexOk;
      ladder.SetOrderQty(x, qty);
      ClientIndexKeep(cidOidToOrder, old(ladder.orderPool.store), ladder.orderPool.store);
    }

    /** `match`: one execution of the taker against the order `itr`. */
    method Match(t: Taker, itr: Slot, leaves: nat) returns (left: nat)
      requires Structure() && itr in ladder.orderPool.store
      modifies `cidOidToOrder, `lastOrderResponse, `responses, `events, ladder.Repr()
      ensures Structure()
      ensures var id := old(ladder.orderPool.store)[itr].val.id;
              && id in old(ladder.view).orders
              && var f := Fill(old(ladder.view), t, id, leaves);
              && ladder.view == f.book && left == f.leaves
              && responses == old(responses) + f.responses && events == old(events) + f.events
              && lastOrderResponse == RememberAll(old(lastOrderResponse), f.responses)
    {
      hide PriceLadder.Valid, MemPool.Valid, ClientIndexOk, Delete, PriceBooks.SetQty;
      var order := ladder.ReadOrder(itr);
      var fill := Min(leaves, order.qty);
      left := leaves - fill;
      SetQty(itr, order.qty - fill);
      ghost var h := lastOrderResponse;
      var r1 := FillResponse(t.owner, t.ticker, t.id, t.side, order.price, fill, left);
      EmitResponse(r1);
      var r2 := FillResponse(order.owner, t.ticker, order.id, order.side, order.price, fill, order.qty - fill);
      EmitResponse(r2);
      RememberTwo(h, r1, r2);
      EmitMarket(Event(Trade, ORDER_ID_INVALID, t.ticker, t.side, order.price, fill, PRIORITY_INVALID));
      if order.qty - fill == 0 {
        EmitMarket(Event(EventType.Cancel, order.id, t.ticker, order.side, order.price, order.qty, PRIORITY_INVALID));
        DeleteEmptied(old(ladder.view), order.id);
        RemoveOrder(itr);
      } else {
        EmitMarket(Event(Modify, order.id, t.ticker, order.side, order.price, order.qty - fill, order.priority));
      }
    }

    /** `checkForMatch`: executes while quantity is left and the best opposite price crosses. */
    method CheckForMatch(t: Taker, qty: nat) returns (leaves: nat)
      requires Structure() && Sound(ladder.view) && t.side.Valid()
      modifies `cidOidToOrder, `lastOrderResponse, `responses, `events, ladder.Repr()
      ensures Structure() && Sound(ladder.view)
      ensures var m := MatchAll(old(ladder.view), t, qty);
              && ladder.view == m.book && leaves == m.leaves
              && responses == old(responses) + m.responses && events == old(events) + m.events
              && lastOrderResponse == RememberAll(old(lastOrderResponse), m.responses)
    {
      hide PriceLadder.Valid, MemPool.Valid, ClientIndexOk, Fill, IsHead, Sound, NextMaker, MatchAll, RememberAll;
      RememberNone(lastOrderResponse);
      leaves := qty;
      ghost var all := MatchAll(ladder.view, t, qty);
      ghost var rs: seq<Response>, es: seq<Event> := [], [];
      var itr := FirstOpposite(t);
      while leaves > 0 && itr != NULL
        invariant Structure() && Sound(ladder.view)
        invariant itr == NULL ==> NextMaker(ladder.view, t) == None
        invariant itr != NULL ==> itr >= 0 && itr in ladder.orderPool.store
                                  && IsHead(ladder.view, t.side.Opposite(), ladder.orderPool.store[itr].val)
        invariant responses == old(responses) + rs && events == old(events) + es
        invariant lastOrderResponse == RememberAll(old(lastOrderResponse), rs)
        invariant Follows(all, rs, es, MatchAll(ladder.view, t, leaves))
        decreases leaves
      {
        var order := ladder.ReadOrder(itr);
        HeadIsNext(ladder.view, t, order);
        if !Crosses(t.side, t.price, order.price) {
          break;
        }
        ghost var f := Fill(ladder.view, t, order.id, leaves);
        MatchStep(all, rs, es, ladder.view, t, leaves, order.id);
        RememberConcat(old(lastOrderResponse), rs, f.responses);
        leaves := Match(t, itr, leaves);
        rs, es := rs + f.responses, es + f.events;
        itr := FirstOpposite(t);
      }
      MatchEnds(all, rs, es, ladder.view, t, leaves);
    }

    /** The checks of `add`, made on the pools and indexes. */
    method CheckAdd(o: Owner, ticker: TickerId, side: Side, price: int, qty: nat) returns (reason: RejectReason)
      requires Valid()
      ensures reason == AddReason(Contents(), tickerId, o, ticker, side, price, qty)
      ensures reason == NoReason ==>
                |ladder.orderPool.store| < ME_MAX_ORDER_IDS
                && ((side, price) in ladder.view.fifo || |ladder.levelPool.store| < ME_MAX_PRICE_LEVELS)
    {
      hide PriceLadder.Shape, ClientIndexOk, BookInv, Wf;
      ladder.Counts();
      reason := NoReason;
      if o.client >= ME_MAX_NUM_CLIENTS || ticker != tickerId || o.clientOrderId == 0
         || o.clientOrderId >= ME_MAX_ORDER_IDS {
        reason := InvalidId;
      } else if side != Buy && side != Sell {
        reason := InvalidSide;
      } else if price <= 0 || price == PRICE_INVALID {
        reason := InvalidPrice;
      } else if qty == 0 || qty == QTY_INVALID || qty > INT32_MAX {
        reason := InvalidQty;
      } else if o in usedClientOrderIds {
        reason := DuplicateId;
      } else if ladder.orderPool.Available() == 0 || nextMarketOrderId >= ME_MAX_ORDER_IDS
                || (ladder.LevelAt((side, price)) == NULL && ladder.levelPool.Available() == 0) {
        reason := Capacity;
      }
    }

    /** Puts what is left of the taker into the ladder and the client index, and announces it. */
    method RestOrder(t: Taker, leaves: nat)
      requires Structure() && leaves > 0 && t.side.Valid()
      requires t.id !in ladder.view.orders && t.owner !in cidOidToOrder
      requires |ladder.orderPool.store| < ME_MAX_ORDER_IDS
      requires (t.side, t.price) in ladder.view.fifo || |ladder.levelPool.store| < ME_MAX_PRICE_LEVELS
      modifies `cidOidToOrder, `events, ladder.Repr()
      ensures Structure()
      ensures var k := (t.side, t.price); var b := old(ladder.view);
              && (k in b.fifo ==> b.fifo[k] != [] && b.fifo[k][|b.fifo[k]| - 1] in b.orders)
              && ladder.view == Append(b, Order(t.owner, t.id, t.side, t.price, leaves, NextPriority(b, k)))
              && events == old(events) + [Event(EventType.Add, t.id, t.ticker, t.side, t.price, leaves, NextPriority(b, k))]
    {
      hide PriceLadder.Valid, Append, ClientIndexOk, Wf;
      var priority := ladder.NextPriorityAt((t.side, t.price));
      var order := Order(t.owner, t.id, t.side, t.price, leaves, priority);
      var x := ladder.PlaceOrder(order);
      cidOidToOrder := cidOidToOrder[t.owner := x];
      ClientIndexAdd(old(cidOidToOrder), old(ladder.orderPool.store), x, order, ladder.orderPool.store);
      EmitMarket(Event(EventType.Add, t.id, t.ticker, t.side, t.price, leaves, priority));
    }

    lemma OwnerIsFree(o: Owner)
      requires Structure() && forall id :: id in ladder.view.orders ==> ladder.view.orders[id].owner != o
      ensures o !in cidOidToOrder
    {
      if o in cidOidToOrder { ladder.SlotFacts(cidOidToOrder[o]); }
    }

    /** Announces the acceptance and matches. */
    method AcceptAndMatch(t: Taker, qty: nat) returns (leaves: nat)
      requires Structure() && Sound(ladder.view) && t.side.Valid()
      modifies `cidOidToOrder, `lastOrderResponse, `responses, `events, ladder.Repr()
      ensures Structure() && Sound(ladder.view)
      ensures var m := MatchAll(old(ladder.view), t, qty);
              var rs := [AcceptedResponse(t.owner, t.ticker, t.id, t.side, t.price, qty)] + m.responses;
              && ladder.view == m.book && leaves == m.leaves
              && responses == old(responses) + rs && events == old(events) + m.events
              && lastOrderResponse == RememberAll(old(lastOrderResponse), rs)
    {
      hide PriceLadder.Valid, ClientIndexOk, MatchAll, RememberAll, Sound;
      ghost var m := MatchAll(ladder.view, t, qty);
      var accepted := AcceptedResponse(t.owner, t.ticker, t.id, t.side, t.price, qty);
      EmitResponse(accepted);
      RememberConcat(old(lastOrderResponse), [accepted], m.responses);
      RememberOne(old(lastOrderResponse), accepted);
      leaves := CheckForMatch(t, qty);
    }

    /** `add` past its checks: accept, match, rest. */
    method Accept(o: Owner, ticker: TickerId, side: Side, price: int, qty: nat, ghost b: Book)
      requires Structure() && Contents() == b && BookInv(b)
      requires AddReason(b, tickerId, o, ticker, side, price, qty) == NoReason
      modifies Repr()
      ensures Structure()
      ensures var s := AddOrder(b, tickerId, o, ticker, side, price, qty);
              && Contents() == s.book
              && responses == old(responses) + s.responses && events == old(events) + s.events
    {
      hide PriceLadder.Valid, ClientIndexOk, BookInv, MatchAll, RememberAll, Sound, Wf, AddOrder, AddReason, Append,
           NextPriority, NextMaker;
      var t := Taker(o, ticker, side, price, nextMarketOrderId);
      RoomForRest(b, tickerId, t, qty);
      AddIs(b, tickerId, t, qty);
      usedClientOrderIds := usedClientOrderIds + {o};
      nextMarketOrderId := nextMarketOrderId + 1;
      var leaves := AcceptAndMatch(t, qty);
      if leaves > 0 {
        ladder.Counts();
        OwnerIsFree(o);
        RestOrder(t, leaves);
      }
    }

    /** `add`: rejects, or accepts, matches and lets the rest rest. */
    method Add(o: Owner, ticker: TickerId, side: Side, price: int, qty: nat)
      requires Valid()
      modifies Repr()
      ensures Valid()
      ensures var s := AddOrder(old(Contents()), tickerId, o, ticker, side, price, qty);
              && Contents() == s.book
              && responses == old(responses) + s.responses && events == old(events) + s.events
    {
      hide PriceLadder.Valid, ClientIndexOk, BookInv, AddReason;
      ghost var b := Contents();
      AddKeeps(b, tickerId, o, ticker, side, price, qty);
      var reason := CheckAdd(o, ticker, side, price, qty);
      if reason != NoReason {
        EmitResponse(RejectedResponse(o, ticker, side, price, reason));
      } else {
        Accept(o, ticker, side, price, qty, b);
      }
    }

    /** `cancel`: takes the client's live order out, or says there is none. */
    method Cancel(o: Owner, ticker: TickerId)
      requires Valid()
      modifies Repr()
      ensures Valid()
      ensures var s := CancelOf(old(Contents()), tickerId, o, ticker);
              && Contents() == s.book
              && responses == old(responses) + s.responses && events == old(events) + s.events
    {
      hide BookInv, PriceLadder.Valid;
      ghost var b := Contents();
      CancelKeeps(b, tickerId, o, ticker);
      if o.client < ME_MAX_NUM_CLIENTS && ticker == tickerId && o in cidOidToOrder {
        var x := cidOidToOrder[o];
        var m := ladder.ReadOrder(x);
        OwnerNames(b, m.id, o);
        hide PriceLadder.Valid, ClientIndexOk, BookInv, OrderOf, Delete;
        RemoveOrder(x);
        EmitMarket(Event(EventType.Cancel, m.id, ticker, m.side, m.price, 0, m.priority));
        EmitResponse(Response(Canceled, o.client, ticker, o.clientOrderId, m.id, m.side, m.price, QTY_INVALID,
                              m.qty, NoReason, 0, 0));
      } else {
        if o !in cidOidToOrder { NoOwner(o); }
        hide PriceLadder.Valid, ClientIndexOk, BookInv;
        EmitResponse(Response(CancelRejected, o.client, ticker, o.clientOrderId, ORDER_ID_INVALID, Invalid,
                              PRICE_INVALID, 0, 0, InvalidId, 0, 0));
      }
    }

    lemma NoOwner(o: Owner)
      requires Structure() && o !in cidOidToOrder
      ensures forall id :: id in ladder.view.orders ==> ladder.view.orders[id].owner != o
    {
      forall id | id in ladder.view.orders ensures ladder.view.orders[id].owner != o {
        ladder.IdFacts(id);
      }
    }

    /** `query`: restates the last response of an order; it changes nothing. */
    method Query(o: Owner)
      requires Valid()
      modifies `lastOrderResponse, `responses
      ensures Valid() && Contents() == old(Contents())
      ensures responses == old(responses) + QueryOf(old(Contents()), tickerId, o)
    {
      hide PriceLadder.Valid, ClientIndexOk, BookInv;
      if o.client >= ME_MAX_NUM_CLIENTS {
        return;
      }
      if o.clientOrderId == 0 {
        EmitResponse(Response(State, o.client, tickerId, 0, ORDER_ID_INVALID, Invalid, PRICE_INVALID, 0, 0,
                              NoReason, 0, 0));
      } else if o !in lastOrderResponse {
        EmitResponse(Response(Rejected, o.client, tickerId, o.clientOrderId, ORDER_ID_INVALID, Invalid,
                              PRICE_INVALID, 0, 0, InvalidId, 0, 0));
      } else {
        var r := lastOrderResponse[o];
        EmitResponse(r.(kind := State, execQty := 0, leavesQty := if r.kind.Canceled? then 0 else r.leavesQty));
      }
    }
  }
}
