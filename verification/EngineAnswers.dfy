/**
 What the exchange answers, in every run: exactly which new orders it accepts and which cancels it carries out, with
 every field of the answer, and that every response is one a client's gateway takes.
*/
module EngineAnswers {
  import opened Types
  import opened PriceBooks
  import opened MatchSpec
  import opened MatchInvariants
  import opened MatchPriority
  import opened OrderLife
  import opened EngineSpec
  import opened EngineProps
  import opened EngineRuns
  import OrderGateways

  // ------------------------------------------------------------------ ids that have been accepted

  /** Some order of the client was accepted under this id. */
  ghost predicate WasAccepted(rs: seq<Response>, t: TickerId, o: Owner) {
    exists i :: 0 <= i < |rs| && rs[i].kind.Accepted? && About(rs[i], t, o)
  }

  lemma AcceptedConcat(a: seq<Response>, b: seq<Response>, t: TickerId, o: Owner)
    ensures WasAccepted(a + b, t, o) <==> WasAccepted(a, t, o) || WasAccepted(b, t, o)
  {
    var c := a + b;
    if i :| 0 <= i < |c| && c[i].kind.Accepted? && About(c[i], t, o) {
      if i < |a| { assert a[i] == c[i]; } else { assert b[i - |a|] == c[i]; }
    }
    if i :| 0 <= i < |a| && a[i].kind.Accepted? && About(a[i], t, o) { assert c[i] == a[i]; }
    if i :| 0 <= i < |b| && b[i].kind.Accepted? && About(b[i], t, o) { assert c[|a| + i] == b[i]; }
  }

  lemma AcceptedStamped(d: Outbox, rs: seq<Response>, t: TickerId, o: Owner)
    ensures WasAccepted(StampAll(d, rs).1, t, o) <==> WasAccepted(rs, t, o)
  {
    var out := StampAll(d, rs).1;
    forall i | 0 <= i < |rs| ensures SameBut(out[i], rs[i]) { StampedAt(d, rs, i); }
    if i :| 0 <= i < |rs| && rs[i].kind.Accepted? && About(rs[i], t, o) { assert out[i].kind.Accepted? && About(out[i], t, o); }
    if i :| 0 <= i < |out| && out[i].kind.Accepted? && About(out[i], t, o) { assert rs[i].kind.Accepted? && About(rs[i], t, o); }
  }

  lemma NoneAccepted(rs: seq<Response>, t: TickerId, o: Owner)
    requires forall i :: 0 <= i < |rs| ==> !rs[i].kind.Accepted?
    ensures !WasAccepted(rs, t, o)
  {
  }

  lemma FirstAccepted(r: Response, rs: seq<Response>, t: TickerId, o: Owner)
    requires r.kind.Accepted? && forall i :: 0 <= i < |rs| ==> !rs[i].kind.Accepted?
    ensures WasAccepted([r] + rs, t, o) <==> About(r, t, o)
  {
    NoneAccepted(rs, t, o);
    AcceptedConcat([r], rs, t, o);
    assert About(r, t, o) ==> [r][0].kind.Accepted? && About([r][0], t, o);
  }

  lemma AddUses(b: Book, q: Request, t: TickerId, o: Owner)
    requires BookInv(b) && q.kind.New?
    ensures var s := AddOrder(b, q.ticker, OwnerOf(q), q.ticker, q.side, q.price, q.qty);
            && (o in s.book.used <==> o in b.used || (o == OwnerOf(q) && WasAccepted(s.responses, q.ticker, o)))
            && (WasAccepted(s.responses, t, o) ==> t == q.ticker && o == OwnerOf(q))
            && (WasAccepted(s.responses, q.ticker, OwnerOf(q)) <==> OwnerOf(q) in s.book.used && OwnerOf(q) !in b.used)
  {
    hide BookInv, MatchAll, Rest, RememberAll;
    InvSound(b);
    if AddReason(b, q.ticker, OwnerOf(q), q.ticker, q.side, q.price, q.qty) == NoReason {
      hide AddReason;
      AddShape(b, q.ticker, OwnerOf(q), q.side, q.price, q.qty);
      var first := AcceptedResponse(OwnerOf(q), q.ticker, b.nextId, q.side, q.price, q.qty);
      var rs := MatchAll(b.resting, Taker(OwnerOf(q), q.ticker, q.side, q.price, b.nextId), q.qty).responses;
      FirstAccepted(first, rs, t, o);
      FirstAccepted(first, rs, q.ticker, o);
      FirstAccepted(first, rs, q.ticker, OwnerOf(q));
      FreshOwner(b, q);
    } else {
      NoneAccepted(AddOrder(b, q.ticker, OwnerOf(q), q.ticker, q.side, q.price, q.qty).responses, t, o);
      NoneAccepted(AddOrder(b, q.ticker, OwnerOf(q), q.ticker, q.side, q.price, q.qty).responses, q.ticker, o);
      NoneAccepted(AddOrder(b, q.ticker, OwnerOf(q), q.ticker, q.side, q.price, q.qty).responses, q.ticker, OwnerOf(q));
    }
  }

  lemma FreshOwner(b: Book, q: Request)
    requires AddReason(b, q.ticker, OwnerOf(q), q.ticker, q.side, q.price, q.qty) == NoReason
    ensures OwnerOf(q) !in b.used
  {
  }

  lemma HandleUses(bs: seq<Book>, q: Request, t: TickerId, o: Owner)
    requires BooksOk(bs) && t < ME_MAX_TICKERS
    ensures var (bs', rs, _) := Handle(bs, q);
            o in bs'[t].used <==> o in bs[t].used || WasAccepted(rs, t, o)
  {
    hide BookInv, HistoryOk, AddOrder, CancelOf, QueryOf;
    if Validate(q) != NoReason {
      NoneAccepted(Handle(bs, q).1, t, o);
    } else {
      match q.kind
      case New => AddUses(bs[q.ticker], q, t, o);
      case CancelOrder => CancelUses(bs[q.ticker], q, t, o);
      case Query => QueryUses(bs[q.ticker], q, t, o);
      case NoRequest => NoneAccepted([], t, o);
    }
  }

  lemma CancelUses(b: Book, q: Request, t: TickerId, o: Owner)
    ensures var s := CancelOf(b, q.ticker, OwnerOf(q), q.ticker); s.book.used == b.used && !WasAccepted(s.responses, t, o)
  {
    NoneAccepted(CancelOf(b, q.ticker, OwnerOf(q), q.ticker).responses, t, o);
  }

  lemma QueryUses(b: Book, q: Request, t: TickerId, o: Owner)
    ensures !WasAccepted(QueryOf(b, q.ticker, OwnerOf(q)), t, o)
  {
    NoneAccepted(QueryOf(b, q.ticker, OwnerOf(q)), t, o);
  }

  /** The book remembers an id exactly when the exchange has accepted an order under it. */
  lemma {:induction false} UsedExactlyWhen(qs: seq<Request>, t: TickerId, o: Owner)
    requires t < ME_MAX_TICKERS
    ensures o in Run(qs).engine.books[t].used <==> WasAccepted(Run(qs).responses, t, o)
    decreases |qs|
  {
    if qs != [] {
      hide BooksOk, Handle, StampAll, WasAccepted;
      var before, q := Run(qs[..|qs| - 1]), qs[|qs| - 1];
      UsedExactlyWhen(qs[..|qs| - 1], t, o);
      HandleUses(before.engine.books, q, t, o);
      var rs := Handle(before.engine.books, q).1;
      AcceptedStamped(before.engine.outbox, rs, t, o);
      AcceptedConcat(before.responses, StampAll(before.engine.outbox, rs).1, t, o);
    } else {
      NoneAccepted([], t, o);
    }
  }

  // ------------------------------------------------------------------ new orders

  /** The book has ids left and room for one more price. */
  predicate HasRoom(b: Book, q: Request) {
    b.nextId < ME_MAX_ORDER_IDS && ((q.side, q.price) in b.resting.fifo || |b.resting.fifo| < ME_MAX_PRICE_LEVELS)
  }

  lemma FewerThanIds(b: Book)
    requires BookInv(b)
    ensures |b.resting.orders| < b.nextId
  {
    forall id | id in b.resting.orders ensures 0 < id < b.nextId { assert InBounds(b, id); }
    var ids := b.resting.orders.Keys + {0};
    assert |ids| == |b.resting.orders.Keys| + 1;
    NumbersBelow(ids, b.nextId);
  }

  lemma {:induction false} NumbersBelow(s: set<nat>, n: nat)
    requires forall x :: x in s ==> x < n
    ensures |s| <= n
  {
    if n > 0 {
      NumbersBelow(s - {n - 1}, n - 1);
    } else {
      assert s == {};
    }
  }

  lemma AddExactlyWhen(b: Book, q: Request)
    requires BookInv(b) && q.kind.New? && WellFormed(q)
    ensures var reason := AddReason(b, q.ticker, OwnerOf(q), q.ticker, q.side, q.price, q.qty);
            && (reason == NoReason <==> OwnerOf(q) !in b.used && HasRoom(b, q))
            && (reason == DuplicateId <==> OwnerOf(q) in b.used)
            && (reason == Capacity <==> OwnerOf(q) !in b.used && !HasRoom(b, q))
  {
    hide BookInv;
    FewerThanIds(b);
  }

  /** In every run, for any new order: it is accepted if and only if it is well formed, no order of its client has been
      accepted under its id before, and its book has room; otherwise it is rejected, and nothing else happens. */
  lemma NewExactlyWhen(qs: seq<Request>, q: Request)
    requires q.kind.New?
    ensures var e := Run(qs).engine; var out := EngineSpec.Process(e, q); var rs := out.responses;
            && rs != [] && Owner(rs[0].client, rs[0].clientOrderId) == OwnerOf(q) && rs[0].ticker == q.ticker
            && rs[0].responseId == e.outbox.nextId
            && if WellFormed(q) && !WasAccepted(Run(qs).responses, q.ticker, OwnerOf(q)) && HasRoom(e.books[q.ticker], q)
               then
                 && rs[0].kind.Accepted? && rs[0].marketOrderId == e.books[q.ticker].nextId && rs[0].side == q.side
                 && rs[0].price == q.price && rs[0].execQty == 0 && rs[0].leavesQty == q.qty && rs[0].reason == NoReason
               else
                 && |rs| == 1 && rs[0].kind.Rejected? && rs[0].leavesQty == 0 && out.events == [] && out.engine.books == e.books
                 && (rs[0].reason == DuplicateId <==> WellFormed(q) && WasAccepted(Run(qs).responses, q.ticker, OwnerOf(q)))
                 && (WellFormed(q) && rs[0].reason != DuplicateId ==> rs[0].reason == Capacity)
  {
    hide Run, BookInv, HistoryOk, MatchAll, Rest, RememberAll, AddReason, WellFormed, Validate, WasAccepted, HasRoom;
    var e := Run(qs).engine;
    ValidateExactlyWhen(q);
    var rs := Handle(e.books, q).1;
    if WellFormed(q) {
      ValidTicker(q);
      var b := e.books[q.ticker];
      UsedExactlyWhen(qs, q.ticker, OwnerOf(q));
      AddExactlyWhen(b, q);
      InvSound(b);
      if AddReason(b, q.ticker, OwnerOf(q), q.ticker, q.side, q.price, q.qty) == NoReason {
        AddShape(b, q.ticker, OwnerOf(q), q.side, q.price, q.qty);
      }
    } else {
      MalformedReason(q);
    }
    StampedAt(e.outbox, rs, 0);
  }

  lemma MalformedReason(q: Request)
    requires !WellFormed(q)
    ensures Validate(q) != NoReason && Validate(q) != DuplicateId && Validate(q) != Capacity
  {
  }

  // ------------------------------------------------------------------ cancels

  lemma LiveExactlyWhen(b: PriceBook, o: Owner)
    requires Sound(b)
    ensures QtyOf(LiveIn(b, o)) > 0 <==> OrderOf(b, o).Some?
    ensures OrderOf(b, o).Some? ==> b.orders[OrderOf(b, o).value].id == OrderOf(b, o).value
  {
    if OrderOf(b, o).Some? { assert OrderWf(b, OrderOf(b, o).value); }
  }

  /** The order gone from the book, and the one event that says so. */
  ghost predicate CarriedOut(e: Engine, q: Request, out: Output, r: Response)
    requires BooksOk(e.books) && q.ticker < ME_MAX_TICKERS
  {
    var b := e.books[q.ticker].resting;
    var id := OrderOf(b, OwnerOf(q));
    && id.Some? && r.kind.Canceled? && r.marketOrderId == id.value && r.side == b.orders[id.value].side
    && r.price == b.orders[id.value].price && r.execQty == QTY_INVALID && r.leavesQty == b.orders[id.value].qty
    && out.events == [Event(EventType.Cancel, id.value, q.ticker, r.side, r.price, 0, b.orders[id.value].priority)]
    && |out.engine.books| == ME_MAX_TICKERS && out.engine.books[q.ticker].resting.orders == b.orders - {id.value}
    && forall t :: 0 <= t < ME_MAX_TICKERS && t != q.ticker ==> out.engine.books[t] == e.books[t]
  }

  /** In every run, for any cancel: it is carried out if and only if it is well formed and the order still has open
      quantity, by all responses so far; the answer reports that quantity. Otherwise nothing happens but the answer. */
  lemma CancelExactlyWhen(qs: seq<Request>, q: Request)
    requires q.kind.CancelOrder?
    ensures var e := Run(qs).engine; var out := EngineSpec.Process(e, q); var rs := out.responses;
            && |rs| == 1 && Owner(rs[0].client, rs[0].clientOrderId) == OwnerOf(q) && rs[0].ticker == q.ticker
            && rs[0].responseId == e.outbox.nextId
            && if WellFormed(q) && Ledger(Run(qs).responses, q.ticker, OwnerOf(q)) > 0
               then q.ticker < ME_MAX_TICKERS && CarriedOut(e, q, out, rs[0])
                    && rs[0].leavesQty == Ledger(Run(qs).responses, q.ticker, OwnerOf(q))
               else
                 && rs[0].leavesQty == 0 && out.events == [] && out.engine.books == e.books
                 && (if WellFormed(q) then rs[0].kind.CancelRejected? else rs[0].kind.Rejected?)
  {
    hide Run, BookInv, HistoryOk, WellFormed, Validate, Ledger, OrderOf;
    var e := Run(qs).engine;
    ValidateExactlyWhen(q);
    var rs := Handle(e.books, q).1;
    if WellFormed(q) {
      ValidTicker(q);
      ClientValid(q);
      InvSound(e.books[q.ticker]);
      NothingIsLost(qs, q.ticker, OwnerOf(q));
      LiveExactlyWhen(e.books[q.ticker].resting, OwnerOf(q));
      assert e.books[q.ticker := e.books[q.ticker]] == e.books;
    }
    StampedAt(e.outbox, rs, 0);
  }

  lemma ClientValid(q: Request)
    requires WellFormed(q)
    ensures q.client < ME_MAX_NUM_CLIENTS
  {
  }

  // ------------------------------------------------------------------ queries

  /** In every run, for any query: one answer, and nothing changes but its number. An order accepted before is reported
      with what is open of it, by all responses so far, an id of zero asks for the position only, and an id never
      accepted is rejected. */
  lemma QueryExactlyWhen(qs: seq<Request>, q: Request)
    requires q.kind.Query?
    ensures var e := Run(qs).engine; var out := EngineSpec.Process(e, q); var rs := out.responses;
            && |rs| == 1 && Owner(rs[0].client, rs[0].clientOrderId) == OwnerOf(q) && rs[0].ticker == q.ticker
            && rs[0].responseId == e.outbox.nextId && rs[0].execQty == 0
            && out.events == [] && out.engine.books == e.books
            && out.engine.outbox.nextId == e.outbox.nextId + 1 && SamePositions(e.outbox, out.engine.outbox)
            && (rs[0].kind.State? <==>
                  WellFormed(q) && (q.orderId == 0 || WasAccepted(Run(qs).responses, q.ticker, OwnerOf(q))))
            && (if rs[0].kind.State? then rs[0].leavesQty == (if q.orderId == 0 then 0 else Ledger(Run(qs).responses, q.ticker, OwnerOf(q)))
                else rs[0].kind.Rejected? && rs[0].leavesQty == 0 && (WellFormed(q) ==> rs[0].reason == InvalidId))
  {
    hide Run, BookInv, HistoryOk, WellFormed, Validate, Ledger, LiveIn, QueryOf, WasAccepted;
    var e := Run(qs).engine;
    ValidateExactlyWhen(q);
    var rs := Handle(e.books, q).1;
    if WellFormed(q) {
      ValidTicker(q);
      ClientValid(q);
      var b := e.books[q.ticker];
      QueryExecutesNothing(b, q.ticker, OwnerOf(q));
      assert e.books[q.ticker := b] == e.books;
      if q.orderId != 0 {
        NothingIsLost(qs, q.ticker, OwnerOf(q));
        UsedExactlyWhen(qs, q.ticker, OwnerOf(q));
        QueryReports(b, q.ticker, OwnerOf(q));
        QueryRejects(b, q.ticker, OwnerOf(q));
      }
    }
    StampedAt(e.outbox, rs, 0);
    StampsOne(e.outbox, rs[0]);
  }

  /** An answer without an execution takes a number and moves no position. */
  lemma StampsOne(d: Outbox, r: Response)
    requires !r.kind.Filled?
    ensures StampAll(d, [r]).0.nextId == d.nextId + 1 && SamePositions(d, StampAll(d, [r]).0)
  {
  }

  ghost predicate SamePositions(d: Outbox, d': Outbox) {
    forall c, t :: PositionOf(d'.positions, c, t) == PositionOf(d.positions, c, t)
  }

  lemma QueryExecutesNothing(b: Book, t: TickerId, o: Owner)
    requires o.client < ME_MAX_NUM_CLIENTS
    ensures var rs := QueryOf(b, t, o); |rs| == 1 && rs[0].execQty == 0 && !rs[0].kind.Filled?
    ensures o.clientOrderId == 0 ==>
              var r := QueryOf(b, t, o)[0]; r.kind.State? && r.leavesQty == 0 && r.ticker == t && Owner(r.client, r.clientOrderId) == o
  {
  }

  lemma QueryRejects(b: Book, t: TickerId, o: Owner)
    requires o.client < ME_MAX_NUM_CLIENTS && o.clientOrderId != 0
    ensures QueryOf(b, t, o)[0].kind.Rejected? ==> QueryOf(b, t, o)[0].leavesQty == 0
  {
  }

  // ------------------------------------------------------------------ every response is one a gateway takes

  lemma FillSensible(b: PriceBook, t: Taker, rs: seq<Response>, k: nat)
    requires 2 * k + 1 < |rs| && ExecutionOk(b, t, rs, k) && t.side.Valid() && t.ticker < ME_MAX_TICKERS
    requires forall id :: id in b.orders ==> b.orders[id].price > 0 && b.orders[id].price != PRICE_INVALID && b.orders[id].qty <= INT32_MAX
    requires rs[2 * k].ticker == t.ticker == rs[2 * k + 1].ticker
    ensures TakesFill(rs[2 * k]) && TakesFill(rs[2 * k + 1])
  {
  }

  /** The gateway's checks on an execution, but for the number the engine still has to give it. */
  predicate TakesFill(r: Response) {
    r.ticker < ME_MAX_TICKERS && r.side.Valid() && r.execQty != 0 && r.execQty <= INT32_MAX && r.price > 0 && r.price != PRICE_INVALID
  }

  ghost predicate AllTake(rs: seq<Response>) {
    forall i :: 0 <= i < |rs| ==> !rs[i].kind.NoResponse? && (rs[i].kind.Filled? ==> TakesFill(rs[i]))
  }

  lemma MatchTakes(b: PriceBook, t: Taker, qty: nat)
    requires Sound(b) && AllAscending(b) && t.side.Valid() && t.ticker < ME_MAX_TICKERS
    requires forall id :: id in b.orders ==> b.orders[id].price > 0 && b.orders[id].price != PRICE_INVALID && b.orders[id].qty <= INT32_MAX
    requires Executions(MatchAll(b, t, qty).responses, t.ticker)
    ensures AllTake(MatchAll(b, t, qty).responses)
  {
    hide Sound, AllAscending, MatchAll, ExecutionOk, TakesFill, InTurn;
    MatchInPriority(b, t, qty);
    var rs := MatchAll(b, t, qty).responses;
    forall i | 0 <= i < |rs| ensures TakesFill(rs[i]) {
      FillSensible(b, t, rs, i / 2);
      assert i == 2 * (i / 2) || i == 2 * (i / 2) + 1;
    }
  }

  lemma AddTakes(b: Book, q: Request)
    requires BookInv(b) && q.kind.New? && WellFormed(q)
    ensures AllTake(AddOrder(b, q.ticker, OwnerOf(q), q.ticker, q.side, q.price, q.qty).responses)
  {
    hide MatchAll, Rest, RememberAll, AllAscending, Sound, TakesFill;
    if AddReason(b, q.ticker, OwnerOf(q), q.ticker, q.side, q.price, q.qty) == NoReason {
      AddShape(b, q.ticker, OwnerOf(q), q.side, q.price, q.qty);
      forall id | id in b.resting.orders
        ensures b.resting.orders[id].price > 0 && b.resting.orders[id].price != PRICE_INVALID && b.resting.orders[id].qty <= INT32_MAX
      {
        assert InBounds(b, id);
      }
      MatchTakes(b.resting, Taker(OwnerOf(q), q.ticker, q.side, q.price, b.nextId), q.qty);
    }
  }

  lemma HandleTakes(bs: seq<Book>, q: Request)
    requires BooksOk(bs)
    ensures AllTake(Handle(bs, q).1)
  {
    hide BookInv, HistoryOk, AddOrder, TakesFill;
    ValidateExactlyWhen(q);
    if Validate(q) == NoReason && q.kind.New? { AddTakes(bs[q.ticker], q); }
    if Validate(q) == NoReason && q.kind.Query? { QueryShape(bs[q.ticker], q.ticker, OwnerOf(q)); }
  }

  lemma {:induction false} RunTakes(qs: seq<Request>)
    ensures AllTake(Run(qs).responses)
    decreases |qs|
  {
    if qs != [] {
      hide BooksOk, Handle, TakesFill;
      var before, q := Run(qs[..|qs| - 1]), qs[|qs| - 1];
      RunTakes(qs[..|qs| - 1]);
      HandleTakes(before.engine.books, q);
      var rs := Handle(before.engine.books, q).1;
      forall i | 0 <= i < |rs| ensures SameBut(StampAll(before.engine.outbox, rs).1[i], rs[i]) {
        StampedAt(before.engine.outbox, rs, i);
      }
      Carried(rs, StampAll(before.engine.outbox, rs).1);
    }
  }

  lemma Carried(rs: seq<Response>, out: seq<Response>)
    requires |rs| == |out| && AllTake(rs) && forall i :: 0 <= i < |rs| ==> SameBut(out[i], rs[i])
    ensures AllTake(out)
  {
  }

  /** No response of any run is one that a client's gateway would take for a broken session. */
  lemma ResponsesAreSensible(qs: seq<Request>, i: nat)
    requires i < |Run(qs).responses|
    ensures OrderGateways.Sensible(Run(qs).responses[i])
  {
    hide Run;
    RunTakes(qs);
    ResponsesNumbered(qs);
    assert WellNumbered(Run(qs).responses, i);
  }
}
