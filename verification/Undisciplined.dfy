/**
 Why `RoundTrip` asks the client never to reuse an id and to cancel only what it has sent: two runs from the
 very start, without that discipline, after which the client no longer trusts its account.
*/
module Undisciplined {
  import opened Types
  import opened PriceBooks
  import opened MatchSpec
  import opened MatchInvariants
  import opened OrderLife
  import opened EngineSpec
  import opened EngineProps
  import opened RiskSpec
  import opened TradeOrders
  import opened RoundTrip

  /** A run in which the client sends whatever it likes. */
  ghost predicate IsFreeRun(limits: seq<Limits>, c: ClientId, run: seq<Trip>) {
    run != [] && run[0] == Begin(c) && forall i :: 0 <= i < |run| - 1 ==> FreelyFollows(limits, run[i], run[i + 1])
  }

  ghost predicate FreelyFollows(limits: seq<Limits>, s: Trip, s': Trip) {
    exists a :: Typed(s, limits) && Possible(s, a) && s' == RoundTrip.Do(s, limits, a)
  }

  ghost predicate Reachable(limits: seq<Limits>, c: ClientId, s: Trip) {
    exists run :: IsFreeRun(limits, c, run) && run[|run| - 1] == s
  }

  lemma ReachBegin(limits: seq<Limits>, c: ClientId)
    ensures Reachable(limits, c, Begin(c))
  {
    assert IsFreeRun(limits, c, [Begin(c)]) && [Begin(c)][|[Begin(c)]| - 1] == Begin(c);
  }

  lemma ReachStep(limits: seq<Limits>, c: ClientId, s: Trip, a: RoundTrip.Step)
    requires Reachable(limits, c, s) && Typed(s, limits) && Possible(s, a)
    ensures Reachable(limits, c, RoundTrip.Do(s, limits, a))
  {
    hide Typed, Possible, RoundTrip.Do;
    var run :| IsFreeRun(limits, c, run) && run[|run| - 1] == s;
    var next := RoundTrip.Do(s, limits, a);
    var more := run + [next];
    assert FreelyFollows(limits, s, next);
    forall i | 0 <= i < |more| - 1 ensures FreelyFollows(limits, more[i], more[i + 1]) {
      if i < |run| - 1 { assert FreelyFollows(limits, run[i], run[i + 1]); }
    }
    assert IsFreeRun(limits, c, more) && more[|more| - 1] == next;
  }

  /** One for one, under id 1 of the first ticker. */
  function Ask(c: ClientId, kind: RequestType): Request { Request(kind, c, 0, 1, Buy, 1, 1) }

  function Fair(limits: seq<Limits>): Chance
    requires limits != []
  {
    Chance(true, true, true, limits[0].maxLoss, false)
  }

  /** The first ticker admits a single order of one. */
  ghost predicate Admits(limits: seq<Limits>) {
    |limits| == ME_MAX_TICKERS && 1 <= limits[0].maxOrderSize && 1 <= limits[0].maxPosition
  }

  const KEY: ResKey := (0, 1)

  /** A trusting client with nothing reserved or held on the first ticker. */
  predicate Idle(c: Client) {
    && ClientOk(c) && c.reconciled && KEY !in c.account.risk.reservations
    && c.account.risk.pendingBuy[0] == 0 && c.account.risk.pendingSell[0] == 0 && c.account.positions[0] == 0
  }

  /** One that has reserved the order. */
  predicate Holds(c: Client) {
    && ClientOk(c) && c.reconciled && KEY in c.account.risk.reservations
    && c.account.risk.reservations[KEY] == Reservation(Buy, 1, 1)
    && c.account.risk.pendingBuy[0] == 1 && c.account.risk.pendingSell[0] == 0 && c.account.positions[0] == 0
  }

  lemma SubmitCancel(c: Client, limits: seq<Limits>)
    requires ClientOk(c) && c.reconciled && c.id < ME_MAX_NUM_CLIENTS && |limits| == ME_MAX_TICKERS
    ensures Send(c, limits, Ask(c.id, CancelOrder), Fair(limits)) == (c, true)
  {
    assert c.(account := c.account.(risk := c.account.risk)) == c;
  }

  lemma SubmitNew(c: Client, limits: seq<Limits>)
    requires Idle(c) && c.id < ME_MAX_NUM_CLIENTS && Admits(limits)
    ensures var (c', sent) := Send(c, limits, Ask(c.id, New), Fair(limits));
            sent && Holds(c') && c'.id == c.id && c'.lastResponseId == c.lastResponseId
  {
  }

  lemma StampOne(d: Outbox, r: Response)
    ensures StampAll(d, [r]) == (Stamp(d, r).0, [Stamp(d, r).1])
  {
    assert [r][1..] == [];
    assert [Stamp(d, r).1] + [] == [Stamp(d, r).1];
  }

  /** The engine answers the request with `r` alone. */
  lemma Answered(s: Trip, q: Request, r: Response)
    requires BooksOk(s.engine.books) && q.client == s.client.id && s.up == [q] && r.client == q.client
    requires Handle(s.engine.books, q).1 == [r]
    ensures var s' := Served(s, q).(up := s.up[1..]);
            && BooksOk(s'.engine.books) && s'.engine.books == Handle(s.engine.books, q).0 && s'.up == []
            && s'.client == s.client && s'.engine.outbox.nextId == s.engine.outbox.nextId + 1
            && |s'.down| == |s.down| + 1 && s'.down[..|s.down|] == s.down && SameBut(s'.down[|s.down|], r)
            && s'.down[|s.down|].responseId == s.engine.outbox.nextId
  {
    hide BooksOk, Handle;
    HandleKeeps(s.engine.books, q);
    StampCarries(s.engine.outbox, r);
    var (d, first) := Stamp(s.engine.outbox, r);
    StampOne(s.engine.outbox, r);
    OursFirst(first, [], s.client.id);
    assert [first] + [] == [first];
    var s' := Served(s, q).(up := s.up[1..]);
    assert s'.down == s.down + [first];
    assert first.client == s.client.id;
  }

  /** The client sends a request and the engine answers it with `r` alone. */
  lemma Asked(limits: seq<Limits>, c: ClientId, s: Trip, q: Request, r: Response) returns (s': Trip)
    requires Reachable(limits, c, s) && Typed(s, limits) && s.up == [] && q.client == r.client == s.client.id
    requires limits != [] && Send(s.client, limits, q, Fair(limits)).1 && ClientOk(Send(s.client, limits, q, Fair(limits)).0)
    requires Send(s.client, limits, q, Fair(limits)).0.id == s.client.id
    requires Handle(s.engine.books, q).1 == [r]
    ensures Reachable(limits, c, s') && s'.up == [] && s'.client == Send(s.client, limits, q, Fair(limits)).0
    ensures BooksOk(s'.engine.books) && s'.engine.books == Handle(s.engine.books, q).0
    ensures s'.engine.outbox.nextId == s.engine.outbox.nextId + 1
    ensures |s'.down| == |s.down| + 1 && s'.down[..|s.down|] == s.down && SameBut(s'.down[|s.down|], r)
    ensures s'.down[|s.down|].responseId == s.engine.outbox.nextId
  {
    hide BooksOk, Handle, Send, Reachable, Fair, Served, ClientOk;
    ReachStep(limits, c, s, Submit(q, Fair(limits)));
    var t := RoundTrip.Do(s, limits, Submit(q, Fair(limits)));
    assert t.up == [q] && t.down == s.down && t.engine == s.engine;
    Answered(t, q, r);
    ReachStep(limits, c, t, Arrive);
    s' := RoundTrip.Do(t, limits, Arrive);
  }

  /** The client takes the only response on its way. */
  lemma Taken(limits: seq<Limits>, c: ClientId, s: Trip) returns (s': Trip)
    requires Reachable(limits, c, s) && Typed(s, limits) && s.down != []
    ensures Reachable(limits, c, s') && s' == s.(client := OnOrderUpdate(s.client, s.down[0]), down := s.down[1..])
  {
    hide Reachable, OnOrderUpdate, ClientOk, BooksOk;
    ReachStep(limits, c, s, Deliver);
    s' := RoundTrip.Do(s, limits, Deliver);
  }

  /** A response that the client cannot square with the reservation it holds. */
  predicate Contradicts(p: Response) {
    && p.ticker == 0 && p.clientOrderId == 1
    && ((p.kind.CancelRejected? && p.leavesQty == 0) || (p.kind.Rejected? && p.reason == DuplicateId))
  }

  lemma Unsettles(c: Client, p: Response)
    requires Holds(c) && p.client == c.id && c.lastResponseId < p.responseId && Contradicts(p)
    ensures !OnOrderUpdate(c, p).reconciled
  {
  }

  /** What a book without the order answers to a cancel of it. */
  lemma CancelUnknown(bs: seq<Book>, c: ClientId) returns (r: Response)
    requires BooksOk(bs) && c < ME_MAX_NUM_CLIENTS && bs[0].resting == EMPTY
    ensures Handle(bs, Ask(c, CancelOrder)).1 == [r] && r.client == c && Contradicts(r)
  {
    hide BooksOk;
    r := Handle(bs, Ask(c, CancelOrder)).1[0];
  }

  /** A cancel sent before its order, answered before the order is sent, and delivered after: from the start,
      with every gate open and every channel in order, the client ends unreconciled. */
  lemma CancelOvertakesItsOrder(limits: seq<Limits>, c: ClientId)
    requires c < ME_MAX_NUM_CLIENTS && Admits(limits)
    ensures exists s :: Reachable(limits, c, s) && !s.client.reconciled
  {
    hide Reachable, BooksOk, Handle, OnOrderUpdate, Send, Holds, Fair;
    var s := Begin(c);
    ReachBegin(limits, c);
    StartOk();
    SubmitCancel(s.client, limits);
    var r := CancelUnknown(s.engine.books, c);
    s := Asked(limits, c, s, Ask(c, CancelOrder), r);
    SubmitNew(s.client, limits);
    ReachStep(limits, c, s, Submit(Ask(c, New), Fair(limits)));
    s := RoundTrip.Do(s, limits, Submit(Ask(c, New), Fair(limits)));
    HoldsOk(s.client);
    Unsettles(s.client, s.down[0]);
    s := Taken(limits, c, s);
  }

  lemma HoldsOk(c: Client)
    requires Holds(c)
    ensures ClientOk(c)
  {
  }

  lemma IdleOk(c: Client)
    requires Idle(c)
    ensures ClientOk(c)
  {
  }

  /** The book that holds the order and nothing else. */
  ghost predicate OneOrder(b: Book, o: Owner) {
    b.resting.orders.Keys == {1} && b.resting.orders[1].owner == o && o in b.used
  }

  lemma FirstRests(c: ClientId)
    requires c < ME_MAX_NUM_CLIENTS
    ensures var s := AddOrder(EMPTY_BOOK, 0, Owner(c, 1), 0, Buy, 1, 1);
            s.responses == [AcceptedResponse(Owner(c, 1), 0, 1, Buy, 1, 1)] && OneOrder(s.book, Owner(c, 1))
  {
    hide RememberAll;
    assert MatchAll(EMPTY, Taker(Owner(c, 1), 0, Buy, 1, 1), 1) == Matched(EMPTY, 1, [], []);
  }

  lemma NewRests(bs: seq<Book>, c: ClientId) returns (r: Response)
    requires BooksOk(bs) && c < ME_MAX_NUM_CLIENTS && bs[0] == EMPTY_BOOK
    ensures Handle(bs, Ask(c, New)).1 == [r] && r.client == c && r.ticker == 0 && r.clientOrderId == 1 && r.kind.Accepted?
    ensures OneOrder(Handle(bs, Ask(c, New)).0[0], Owner(c, 1))
  {
    hide AddOrder, BookInv, HistoryOk, OneOrder;
    FirstRests(c);
    r := AcceptedResponse(Owner(c, 1), 0, 1, Buy, 1, 1);
  }

  lemma CancelKnown(bs: seq<Book>, c: ClientId) returns (r: Response)
    requires BooksOk(bs) && c < ME_MAX_NUM_CLIENTS && OneOrder(bs[0], Owner(c, 1))
    ensures Handle(bs, Ask(c, CancelOrder)).1 == [r] && r.client == c && r.ticker == 0 && r.clientOrderId == 1
    ensures r.kind.Canceled? && Owner(c, 1) in Handle(bs, Ask(c, CancelOrder)).0[0].used
  {
    hide BookInv, HistoryOk, Delete;
    assert OrderOf(bs[0].resting, Owner(c, 1)).Some? by { assert 1 in bs[0].resting.orders; }
    r := Handle(bs, Ask(c, CancelOrder)).1[0];
  }

  lemma NewAgain(bs: seq<Book>, c: ClientId) returns (r: Response)
    requires BooksOk(bs) && c < ME_MAX_NUM_CLIENTS && Owner(c, 1) in bs[0].used
    ensures Handle(bs, Ask(c, New)).1 == [r] && r.client == c && Contradicts(r)
  {
    hide BooksOk;
    r := Handle(bs, Ask(c, New)).1[0];
  }

  lemma AcceptedHolds(c: Client, p: Response)
    requires Holds(c) && p.client == c.id && c.lastResponseId < p.responseId
    requires p.ticker == 0 && p.clientOrderId == 1 && p.kind.Accepted?
    ensures var c' := OnOrderUpdate(c, p); Holds(c') && c'.id == c.id && c'.lastResponseId == p.responseId
  {
  }

  lemma CanceledFrees(c: Client, p: Response)
    requires Holds(c) && p.client == c.id && c.lastResponseId < p.responseId
    requires p.ticker == 0 && p.clientOrderId == 1 && p.kind.Canceled?
    ensures var c' := OnOrderUpdate(c, p); Idle(c') && c'.id == c.id && c'.lastResponseId == p.responseId
  {
  }

  /** An id used again after its order is closed: from the start, with every response taken before the next
      request is sent, the client ends unreconciled. */
  lemma ReusesAnId(limits: seq<Limits>, c: ClientId)
    requires c < ME_MAX_NUM_CLIENTS && Admits(limits)
    ensures exists s :: Reachable(limits, c, s) && !s.client.reconciled
  {
    hide Reachable, BooksOk, Handle, OnOrderUpdate, Send, Holds, Idle, Fair, OneOrder;
    var s := Begin(c);
    ReachBegin(limits, c);
    StartOk();
    BeginIdle(c);
    SubmitNew(s.client, limits);
    HoldsOk(Send(s.client, limits, Ask(c, New), Fair(limits)).0);
    var r := NewRests(s.engine.books, c);
    s := Asked(limits, c, s, Ask(c, New), r);
    AcceptedHolds(s.client, s.down[0]);
    s := Taken(limits, c, s);
    HoldsOk(s.client);
    HoldsTrusts(s.client);
    SubmitCancel(s.client, limits);
    r := CancelKnown(s.engine.books, c);
    s := Asked(limits, c, s, Ask(c, CancelOrder), r);
    CanceledFrees(s.client, s.down[0]);
    s := Taken(limits, c, s);
    IdleOk(s.client);
    SubmitNew(s.client, limits);
    HoldsOk(Send(s.client, limits, Ask(c, New), Fair(limits)).0);
    r := NewAgain(s.engine.books, c);
    s := Asked(limits, c, s, Ask(c, New), r);
    Unsettles(s.client, s.down[0]);
    s := Taken(limits, c, s);
  }

  lemma BeginIdle(c: ClientId)
    ensures Idle(Begin(c).client)
  {
  }

  lemma HoldsTrusts(c: Client)
    requires Holds(c)
    ensures c.reconciled
  {
  }
}
