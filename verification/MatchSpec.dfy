/**
 What `MEOrderBook` must do, on the plain book: the responses and market events of every request and
 the book they leave behind.
*/
module MatchSpec {
  import opened Types
  import opened PriceBooks

  /** The state of one ticker's exchange book. */
  datatype Book = Book(resting: PriceBook, nextId: OrderId, used: set<Owner>, history: map<Owner, Response>)

  const EMPTY_BOOK := Book(EMPTY, 1, {}, map[])

  datatype Step = Step(book: Book, responses: seq<Response>, events: seq<Event>)

  /** The incoming side of a match. */
  datatype Taker = Taker(owner: Owner, ticker: TickerId, side: Side, price: int, id: OrderId)

  datatype Matched = Matched(book: PriceBook, leaves: nat, responses: seq<Response>, events: seq<Event>)

  /** A well-formed book whose orders all have quantity left. */
  ghost predicate Sound(b: PriceBook) {
    Wf(b) && forall id :: id in b.orders ==> b.orders[id].qty > 0
  }

  predicate Crosses(side: Side, limit: int, price: int) {
    if side.Buy? then limit >= price else limit <= price
  }

  /** The order the taker meets next: the oldest at the best opposite price, if that price crosses. */
  ghost function NextMaker(b: PriceBook, t: Taker): (r: Option<OrderId>)
    requires Sound(b)
    ensures r.Some? ==> r.value in b.orders && b.orders[r.value].side == t.side.Opposite()
  {
    match BestPrice(b, t.side.Opposite())
    case None => None
    case Some(p) =>
      assert QueueWf(b, (t.side.Opposite(), p));
      if Crosses(t.side, t.price, p) then Some(b.fifo[(t.side.Opposite(), p)][0]) else None
  }

  function FillResponse(o: Owner, ticker: TickerId, id: OrderId, side: Side, price: int, exec: nat, leaves: nat): Response {
    Response(Filled, o.client, ticker, o.clientOrderId, id, side, price, exec, leaves, NoReason, 0, 0)
  }

  /** One execution against `maker`, at the maker's price. */
  function Fill(b: PriceBook, t: Taker, maker: OrderId, leaves: nat): Matched
    requires maker in b.orders
  {
    var m := b.orders[maker];
    var exec := Min(leaves, m.qty);
    var rest := m.qty - exec;
    Matched(
      if rest == 0 then Delete(b, maker) else SetQty(b, maker, rest),
      leaves - exec,
      [FillResponse(t.owner, t.ticker, t.id, t.side, m.price, exec, leaves - exec),
       FillResponse(m.owner, t.ticker, m.id, m.side, m.price, exec, rest)],
      [Event(Trade, ORDER_ID_INVALID, t.ticker, t.side, m.price, exec, PRIORITY_INVALID),
       if rest == 0 then Event(EventType.Cancel, m.id, t.ticker, m.side, m.price, m.qty, PRIORITY_INVALID)
       else Event(Modify, m.id, t.ticker, m.side, m.price, rest, m.priority)])
  }

  lemma FillSound(b: PriceBook, t: Taker, maker: OrderId, leaves: nat)
    requires Sound(b) && maker in b.orders
    ensures Sound(Fill(b, t, maker, leaves).book)
  {
    var rest := b.orders[maker].qty - Min(leaves, b.orders[maker].qty);
    if rest == 0 { DeleteWf(b, maker); } else { SetQtyWf(b, maker, rest); }
  }

  /** Executions until the taker is filled or nothing crosses. */
  ghost function MatchAll(b: PriceBook, t: Taker, leaves: nat): Matched
    requires Sound(b)
    decreases leaves
  {
    if leaves == 0 then Matched(b, leaves, [], []) else
    match NextMaker(b, t)
    case None => Matched(b, leaves, [], [])
    case Some(maker) =>
      FillSound(b, t, maker, leaves);
      var first := Fill(b, t, maker, leaves);
      var rest := MatchAll(first.book, t, first.leaves);
      Matched(rest.book, rest.leaves, first.responses + rest.responses, first.events + rest.events)
  }

  /** `getNextPriority`: one more than the last in the queue. */
  function NextPriority(b: PriceBook, k: Key): nat
    requires k in b.fifo ==> b.fifo[k] != [] && b.fifo[k][|b.fifo[k]| - 1] in b.orders
  {
    if k in b.fifo then b.orders[b.fifo[k][|b.fifo[k]| - 1]].priority + 1 else 1
  }

  function Remember(h: map<Owner, Response>, r: Response): map<Owner, Response> {
    if r.client < ME_MAX_NUM_CLIENTS && !r.kind.Rejected? && !r.kind.CancelRejected? && !r.kind.State?
    then h[Owner(r.client, r.clientOrderId) := r] else h
  }

  /** The last response of every order, rejections and queries apart. */
  function RememberAll(h: map<Owner, Response>, rs: seq<Response>): map<Owner, Response> {
    if rs == [] then h else Remember(RememberAll(h, rs[..|rs| - 1]), rs[|rs| - 1])
  }

  lemma {:induction false} RememberConcat(h: map<Owner, Response>, a: seq<Response>, b: seq<Response>)
    ensures RememberAll(h, a + b) == RememberAll(RememberAll(h, a), b)
    decreases |b|
  {
    if b == [] {
      assert a + b == a;
    } else {
      assert (a + b)[..|a + b| - 1] == a + b[..|b| - 1];
      RememberConcat(h, a, b[..|b| - 1]);
    }
  }

  /** The checks of `add`, in their order; `me` is the ticker of the book. */
  function AddReason(b: Book, me: TickerId, o: Owner, ticker: TickerId, side: Side, price: int, qty: nat): RejectReason {
    if o.client >= ME_MAX_NUM_CLIENTS || ticker != me || o.clientOrderId == 0
       || o.clientOrderId >= ME_MAX_ORDER_IDS then InvalidId
    else if !side.Valid() then InvalidSide
    else if price <= 0 || price == PRICE_INVALID then InvalidPrice
    else if qty == 0 || qty == QTY_INVALID || qty > INT32_MAX then InvalidQty
    else if o in b.used then DuplicateId
    else if |b.resting.orders| >= ME_MAX_ORDER_IDS || b.nextId >= ME_MAX_ORDER_IDS
         || ((side, price) !in b.resting.fifo && |b.resting.fifo| >= ME_MAX_PRICE_LEVELS) then Capacity
    else NoReason
  }

  function AcceptedResponse(o: Owner, ticker: TickerId, id: OrderId, side: Side, price: int, qty: nat): Response {
    Response(Accepted, o.client, ticker, o.clientOrderId, id, side, price, 0, qty, NoReason, 0, 0)
  }

  function RejectedResponse(o: Owner, ticker: TickerId, side: Side, price: int, reason: RejectReason): Response {
    Response(Rejected, o.client, ticker, o.clientOrderId, ORDER_ID_INVALID, side, price, 0, 0, reason, 0, 0)
  }

  /** What is left of the taker rests at the end of its queue and is announced. */
  function Rest(m: Matched, t: Taker): Matched
    requires Sound(m.book)
  {
    if m.leaves == 0 then m else
    var k := (t.side, t.price);
    assert k in m.book.fifo ==> QueueWf(m.book, k);
    var o := Order(t.owner, t.id, t.side, t.price, m.leaves, NextPriority(m.book, k));
    Matched(Append(m.book, o), m.leaves, m.responses,
            m.events + [Event(EventType.Add, t.id, t.ticker, t.side, t.price, m.leaves, o.priority)])
  }

  lemma {:induction false} MatchSound(b: PriceBook, t: Taker, leaves: nat)
    requires Sound(b)
    ensures Sound(MatchAll(b, t, leaves).book)
    decreases leaves
  {
    if leaves > 0 && NextMaker(b, t).Some? {
      var maker := NextMaker(b, t).value;
      FillSound(b, t, maker, leaves);
      MatchSound(Fill(b, t, maker, leaves).book, t, Fill(b, t, maker, leaves).leaves);
    }
  }

  ghost function AddOrder(b: Book, me: TickerId, o: Owner, ticker: TickerId, side: Side, price: int, qty: nat): Step
    requires Sound(b.resting)
  {
    var reason := AddReason(b, me, o, ticker, side, price, qty);
    if reason != NoReason then
      Step(b, [RejectedResponse(o, ticker, side, price, reason)], [])
    else
      var t := Taker(o, ticker, side, price, b.nextId);
      MatchSound(b.resting, t, qty);
      var m := Rest(MatchAll(b.resting, t, qty), t);
      var responses := [AcceptedResponse(o, ticker, b.nextId, side, price, qty)] + m.responses;
      Step(Book(m.book, b.nextId + 1, b.used + {o}, RememberAll(b.history, responses)), responses, m.events)
  }

  /** The live order a client knows under its own id. */
  ghost function OrderOf(b: PriceBook, o: Owner): (r: Option<OrderId>)
    ensures r.Some? ==> r.value in b.orders && b.orders[r.value].owner == o
    ensures r.None? ==> forall id :: id in b.orders ==> b.orders[id].owner != o
  {
    if exists id :: id in b.orders && b.orders[id].owner == o then
      var id :| id in b.orders && b.orders[id].owner == o;
      Some(id)
    else
      None
  }

  /** A successful cancel reports the quantity it canceled, and no executed quantity (`Qty_INVALID`). */
  ghost function CancelOf(b: Book, me: TickerId, o: Owner, ticker: TickerId): Step {
    var found := if o.client < ME_MAX_NUM_CLIENTS && ticker == me then OrderOf(b.resting, o) else None;
    match found
    case None =>
      Step(b, [Response(CancelRejected, o.client, ticker, o.clientOrderId, ORDER_ID_INVALID, Invalid,
                        PRICE_INVALID, 0, 0, InvalidId, 0, 0)], [])
    case Some(id) =>
      var m := b.resting.orders[id];
      var r := Response(Canceled, o.client, ticker, o.clientOrderId, m.id, m.side, m.price, QTY_INVALID, m.qty,
                        NoReason, 0, 0);
      Step(b.(resting := Delete(b.resting, id), history := Remember(b.history, r)), [r],
           [Event(EventType.Cancel, m.id, ticker, m.side, m.price, 0, m.priority)])
  }

  /** The answer to a query: the last response of the order, restated. */
  function QueryOf(b: Book, me: TickerId, o: Owner): seq<Response> {
    if o.client >= ME_MAX_NUM_CLIENTS then []
    else if o.clientOrderId == 0 then
      [Response(State, o.client, me, 0, ORDER_ID_INVALID, Invalid, PRICE_INVALID, 0, 0, NoReason, 0, 0)]
    else if o !in b.history then
      [Response(Rejected, o.client, me, o.clientOrderId, ORDER_ID_INVALID, Invalid, PRICE_INVALID, 0, 0,
                InvalidId, 0, 0)]
    else
      var r := b.history[o];
      [r.(kind := State, execQty := 0, leavesQty := if r.kind.Canceled? then 0 else r.leavesQty)]
  }
}
