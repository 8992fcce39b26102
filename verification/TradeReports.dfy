/**
 What market data says of executions: every TRADE and the event after it against the two reports of the same
 execution, and the volume traded over whole runs.
*/
module TradeReports {
  import opened Types
  import opened PriceBooks
  import opened MatchSpec
  import opened MatchInvariants
  import opened MatchPriority
  import opened OrderLife
  import opened EngineSpec
  import opened EngineProps

  /** The events of execution `k` say what its reports say: the taker's side, the maker's price, the quantity
      executed; then the maker gone, or what is left of it at its place in the queue. */
  ghost predicate Announced(b: PriceBook, t: Taker, rs: seq<Response>, es: seq<Event>, k: nat)
    requires 2 * k + 1 < |rs| == |es|
  {
    var x, y, e, f := rs[2 * k], rs[2 * k + 1], es[2 * k], es[2 * k + 1];
    && e == Event(Trade, ORDER_ID_INVALID, t.ticker, x.side, x.price, x.execQty, PRIORITY_INVALID)
    && e.side == t.side && y.price == e.price && y.execQty == e.qty
    && f.orderId == y.marketOrderId && f.orderId in b.orders
    && f.ticker == t.ticker && f.side == b.orders[f.orderId].side && f.price == b.orders[f.orderId].price
    && (y.leavesQty == 0 ==> f.kind.Cancel? && f.qty == y.execQty && f.priority == PRIORITY_INVALID)
    && (y.leavesQty > 0 ==> f.kind.Modify? && f.qty == y.leavesQty && f.priority == b.orders[f.orderId].priority)
  }

  ghost predicate AllAnnounced(b: PriceBook, t: Taker, rs: seq<Response>, es: seq<Event>) {
    |rs| == |es| && |rs| % 2 == 0 && forall k :: 0 <= k < |rs| / 2 ==> Announced(b, t, rs, es, k)
  }

  lemma FillAnnounced(b: PriceBook, t: Taker, maker: OrderId, leaves: nat)
    requires Sound(b) && maker in b.orders && leaves > 0
    ensures var f := Fill(b, t, maker, leaves);
            && |f.responses| == 2 == |f.events| && Announced(b, t, f.responses, f.events, 0)
  {
    assert OrderWf(b, maker);
  }

  lemma StillAnnounced(b: PriceBook, b': PriceBook, side: Side, t: Taker, a: Matched, rs: seq<Response>, es: seq<Event>, k: nat)
    requires Thinned(b, b', side) && |a.responses| == 2 == |a.events| && 2 * k + 1 < |rs| == |es|
    requires Announced(b', t, rs, es, k)
    ensures Announced(b, t, a.responses + rs, a.events + es, k + 1)
  {
  }

  lemma FirstAnnounced(b: PriceBook, t: Taker, a: Matched, rs: seq<Response>, es: seq<Event>)
    requires |a.responses| == 2 == |a.events| && |rs| == |es| && Announced(b, t, a.responses, a.events, 0)
    ensures Announced(b, t, a.responses + rs, a.events + es, 0)
  {
  }

  /** Every execution of a match is announced as it was reported. */
  lemma {:induction false} MatchAnnounced(b: PriceBook, t: Taker, leaves: nat)
    requires Sound(b) && AllAscending(b)
    ensures var m := MatchAll(b, t, leaves); AllAnnounced(b, t, m.responses, m.events)
    decreases leaves
  {
    hide Sound, AllAscending, Fill, Announced, Thinned;
    if leaves > 0 && NextMaker(b, t).Some? {
      var maker := NextMaker(b, t).value;
      FillSound(b, t, maker, leaves);
      FillThins(b, t, maker, leaves);
      FillAnnounced(b, t, maker, leaves);
      var f := Fill(b, t, maker, leaves);
      FillLess(b, t, maker, leaves);
      MatchAnnounced(f.book, t, f.leaves);
      var rest := MatchAll(f.book, t, f.leaves);
      JoinAnnounced(b, f, t, rest.responses, rest.events);
    }
  }

  lemma FillLess(b: PriceBook, t: Taker, maker: OrderId, leaves: nat)
    requires Sound(b) && maker in b.orders && leaves > 0
    ensures Fill(b, t, maker, leaves).leaves < leaves
  {
  }

  lemma JoinAnnounced(b: PriceBook, f: Matched, t: Taker, rs: seq<Response>, es: seq<Event>)
    requires |f.responses| == 2 == |f.events| && Announced(b, t, f.responses, f.events, 0)
    requires Thinned(b, f.book, t.side.Opposite()) && AllAnnounced(f.book, t, rs, es)
    ensures AllAnnounced(b, t, f.responses + rs, f.events + es)
  {
    hide Announced, Thinned;
    FirstAnnounced(b, t, f, rs, es);
    forall k | 0 <= k < |f.responses + rs| / 2 ensures Announced(b, t, f.responses + rs, f.events + es, k) {
      if k > 0 { StillAnnounced(b, f.book, t.side.Opposite(), t, f, rs, es, k - 1); }
    }
  }

  // ------------------------------------------------------------------ volume

  /** The quantity that TRADE events of a ticker report. */
  function Traded(es: seq<Event>, t: TickerId): nat {
    if es == [] then 0 else (if es[0].kind.Trade? && es[0].ticker == t then es[0].qty else 0) + Traded(es[1..], t)
  }

  /** The quantity that execution reports of a ticker carry to one order. */
  function ExecutedOf(rs: seq<Response>, t: TickerId, o: Owner): nat {
    if rs == [] then 0 else (if rs[0].kind.Filled? && About(rs[0], t, o) then rs[0].execQty else 0) + ExecutedOf(rs[1..], t, o)
  }

  /** The quantity that they carry to anyone. */
  function Executed(rs: seq<Response>, t: TickerId): nat {
    if rs == [] then 0 else (if rs[0].kind.Filled? && rs[0].ticker == t then rs[0].execQty else 0) + Executed(rs[1..], t)
  }

  lemma {:induction false} TradedConcat(a: seq<Event>, b: seq<Event>, t: TickerId)
    ensures Traded(a + b, t) == Traded(a, t) + Traded(b, t)
    decreases |a|
  {
    if a == [] {
      assert a + b == b;
    } else {
      assert (a + b)[1..] == a[1..] + b;
      TradedConcat(a[1..], b, t);
    }
  }

  lemma {:induction false} ExecutedConcat(a: seq<Response>, b: seq<Response>, t: TickerId, o: Owner)
    ensures ExecutedOf(a + b, t, o) == ExecutedOf(a, t, o) + ExecutedOf(b, t, o)
    ensures Executed(a + b, t) == Executed(a, t) + Executed(b, t)
    decreases |a|
  {
    if a == [] {
      assert a + b == b;
    } else {
      assert (a + b)[1..] == a[1..] + b;
      ExecutedConcat(a[1..], b, t, o);
    }
  }

  lemma OneExecuted(r: Response, t: TickerId, o: Owner)
    ensures ExecutedOf([r], t, o) == if r.kind.Filled? && About(r, t, o) then r.execQty else 0
    ensures Executed([r], t) == if r.kind.Filled? && r.ticker == t then r.execQty else 0
  {
    assert [r][1..] == [];
  }

  lemma OneTraded(e: Event, t: TickerId)
    ensures Traded([e], t) == if e.kind.Trade? && e.ticker == t then e.qty else 0
  {
    assert [e][1..] == [];
  }

  lemma FillVolume(b: PriceBook, t: Taker, maker: OrderId, leaves: nat, u: TickerId)
    requires maker in b.orders && Absent(b, t.owner)
    ensures var f := Fill(b, t, maker, leaves); var v := if u == t.ticker then leaves - f.leaves else 0;
            && f.leaves <= leaves && Traded(f.events, u) == v && ExecutedOf(f.responses, u, t.owner) == v
            && Executed(f.responses, u) == 2 * v
            && Absent(f.book, t.owner)
  {
    var f := Fill(b, t, maker, leaves);
    var x, y := f.responses[0], f.responses[1];
    assert f.responses == [x] + [y] && f.events == [f.events[0]] + [f.events[1]];
    TradedConcat([f.events[0]], [f.events[1]], u);
    OneTraded(f.events[0], u);
    OneTraded(f.events[1], u);
    ExecutedConcat([x], [y], u, t.owner);
    OneExecuted(x, u, t.owner);
    OneExecuted(y, u, t.owner);
  }

  lemma {:induction false} MatchVolume(b: PriceBook, t: Taker, leaves: nat, u: TickerId)
    requires Sound(b) && Absent(b, t.owner)
    ensures var m := MatchAll(b, t, leaves); var v := if u == t.ticker then leaves - m.leaves else 0;
            && m.leaves <= leaves && Traded(m.events, u) == v && ExecutedOf(m.responses, u, t.owner) == v
            && Executed(m.responses, u) == 2 * v
    decreases leaves
  {
    if leaves > 0 && NextMaker(b, t).Some? {
      var maker := NextMaker(b, t).value;
      FillSound(b, t, maker, leaves);
      FillLess(b, t, maker, leaves);
      FillVolume(b, t, maker, leaves, u);
      hide Fill, Absent, Sound, Traded, Executed, ExecutedOf;
      var f := Fill(b, t, maker, leaves);
      MatchVolume(f.book, t, f.leaves, u);
      var rest := MatchAll(f.book, t, f.leaves);
      TradedConcat(f.events, rest.events, u);
      ExecutedConcat(f.responses, rest.responses, u, t.owner);
    }
  }

  /** Nothing but executions. */
  ghost predicate Balanced(es: seq<Event>, rs: seq<Response>, t: TickerId, o: Owner) {
    Traded(es, t) == ExecutedOf(rs, t, o) && 2 * Traded(es, t) == Executed(rs, t)
  }

  lemma AddBalanced(b: Book, me: TickerId, o: Owner, ticker: TickerId, side: Side, price: int, qty: nat, t: TickerId)
    requires BookInv(b)
    ensures var s := AddOrder(b, me, o, ticker, side, price, qty); Balanced(s.events, s.responses, t, o)
  {
    hide MatchAll, Rest, BookInv, AddReason, Traded, ExecutedOf, Executed, RememberAll;
    InvSound(b);
    var s := AddOrder(b, me, o, ticker, side, price, qty);
    if AddReason(b, me, o, ticker, side, price, qty) == NoReason {
      var tk := Taker(o, ticker, side, price, b.nextId);
      FreshAbsent(b, me, o, ticker, side, price, qty);
      MatchSound(b.resting, tk, qty);
      MatchVolume(b.resting, tk, qty, t);
      var m := MatchAll(b.resting, tk, qty);
      var first := AcceptedResponse(o, ticker, b.nextId, side, price, qty);
      ExecutedConcat([first], m.responses, t, o);
      OneExecuted(first, t, o);
      RestSilent(m, tk, t);
    } else {
      Silent(RejectedResponse(o, ticker, side, price, AddReason(b, me, o, ticker, side, price, qty)), t, o);
    }
  }

  lemma FreshAbsent(b: Book, me: TickerId, o: Owner, ticker: TickerId, side: Side, price: int, qty: nat)
    requires BookInv(b) && AddReason(b, me, o, ticker, side, price, qty) == NoReason
    ensures Absent(b.resting, o)
  {
    forall id | id in b.resting.orders ensures b.resting.orders[id].owner != o { assert InBounds(b, id); }
  }

  lemma RestSilent(m: Matched, t: Taker, u: TickerId)
    requires Sound(m.book)
    ensures Rest(m, t).responses == m.responses && Traded(Rest(m, t).events, u) == Traded(m.events, u)
  {
    hide Traded, Append, NextPriority;
    if m.leaves > 0 {
      var e := Rest(m, t).events[|m.events|];
      TradedConcat(m.events, [e], u);
      OneTraded(e, u);
    }
  }

  /** A response that is no execution report, and no event. */
  lemma Silent(r: Response, t: TickerId, o: Owner)
    requires !r.kind.Filled?
    ensures Balanced([], [r], t, o)
  {
    OneExecuted(r, t, o);
  }

  lemma CancelBalanced(b: Book, me: TickerId, o: Owner, ticker: TickerId, t: TickerId)
    ensures var s := CancelOf(b, me, o, ticker); Balanced(s.events, s.responses, t, o)
  {
    hide Traded, Executed, ExecutedOf;
    var s := CancelOf(b, me, o, ticker);
    OneExecuted(s.responses[0], t, o);
    Silent(s.responses[0], t, o);
    if s.events != [] { OneTraded(s.events[0], t); }
  }

  lemma QueryBalanced(b: Book, me: TickerId, o: Owner, t: TickerId)
    ensures Balanced([], QueryOf(b, me, o), t, o)
  {
    hide Executed, ExecutedOf;
    if QueryOf(b, me, o) == [] { NothingBalanced(t, o); } else { Silent(QueryOf(b, me, o)[0], t, o); }
  }

  lemma NothingBalanced(t: TickerId, o: Owner)
    ensures Balanced([], [], t, o)
  {
  }

  lemma HandleBalanced(bs: seq<Book>, q: Request, t: TickerId)
    requires BooksOk(bs)
    ensures var (_, rs, es) := Handle(bs, q); Balanced(es, rs, t, OwnerOf(q))
  {
    hide BookInv, HistoryOk, AddOrder, CancelOf, QueryOf, Balanced;
    if Validate(q) != NoReason {
      Silent(Refusal(q), t, OwnerOf(q));
    } else {
      match q.kind
      case New => AddBalanced(bs[q.ticker], q.ticker, OwnerOf(q), q.ticker, q.side, q.price, q.qty, t);
      case CancelOrder => CancelBalanced(bs[q.ticker], q.ticker, OwnerOf(q), q.ticker, t);
      case Query => QueryBalanced(bs[q.ticker], q.ticker, OwnerOf(q), t);
      case NoRequest => NothingBalanced(t, OwnerOf(q));
    }
  }

  lemma {:induction false} ExecutedStamped(d: Outbox, rs: seq<Response>, t: TickerId, o: Owner)
    ensures ExecutedOf(StampAll(d, rs).1, t, o) == ExecutedOf(rs, t, o) && Executed(StampAll(d, rs).1, t) == Executed(rs, t)
    decreases |rs|
  {
    if rs != [] { ExecutedStamped(Stamp(d, rs[0]).0, rs[1..], t, o); }
  }

  /** What each request of a run executed for its own order: the takers' volume. */
  ghost function TakersVolume(qs: seq<Request>, t: TickerId): nat {
    if qs == [] then 0
    else
      var q := qs[|qs| - 1];
      TakersVolume(qs[..|qs| - 1], t)
      + ExecutedOf(EngineSpec.Process(Run(qs[..|qs| - 1]).engine, q).responses, t, OwnerOf(q))
  }

  /** In every run and for every ticker: the quantity that market data reports as traded is the quantity executed for
      the incoming orders, and half of all that execution reports carry. */
  lemma {:induction false} TradesAreExecutions(qs: seq<Request>, t: TickerId)
    ensures Traded(Run(qs).events, t) == TakersVolume(qs, t)
    ensures 2 * Traded(Run(qs).events, t) == Executed(Run(qs).responses, t)
    decreases |qs|
  {
    if qs != [] {
      hide BooksOk, Handle, StampAll, Traded, Executed, ExecutedOf;
      var before, q := Run(qs[..|qs| - 1]), qs[|qs| - 1];
      TradesAreExecutions(qs[..|qs| - 1], t);
      HandleBalanced(before.engine.books, q, t);
      var (_, rs, es) := Handle(before.engine.books, q);
      ExecutedStamped(before.engine.outbox, rs, t, OwnerOf(q));
      TradedConcat(before.events, es, t);
      ExecutedConcat(before.responses, StampAll(before.engine.outbox, rs).1, t, OwnerOf(q));
    } else {
      NothingBalanced(t, Owner(0, 0));
    }
  }
}
