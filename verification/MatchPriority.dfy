/** Price-time priority over a whole match: which orders trade, in which order, at which prices. */
module MatchPriority {
  import opened Types
  import opened PriceBooks
  import opened MatchSpec
  import opened MatchInvariants

  /** The order on the book's side of execution `k`; each execution is reported to the taker, then to it. */
  function MakerOf(rs: seq<Response>, k: nat): OrderId
    requires 2 * k + 1 < |rs|
  {
    rs[2 * k + 1].marketOrderId
  }

  /** Execution `k` of taker `t` on book `b`: both sides hear the same quantity and the same price, which is
      the resting order's own and within the taker's limit. */
  ghost predicate ExecutionOk(b: PriceBook, t: Taker, rs: seq<Response>, k: nat)
    requires 2 * k + 1 < |rs|
  {
    var x, y, id := rs[2 * k], rs[2 * k + 1], MakerOf(rs, k);
    && id in b.orders && b.orders[id].side == t.side.Opposite()
    && Owner(x.client, x.clientOrderId) == t.owner && x.marketOrderId == t.id && x.side == t.side
    && Owner(y.client, y.clientOrderId) == b.orders[id].owner && y.side == b.orders[id].side
    && x.price == y.price == b.orders[id].price && (if t.side.Buy? then x.price <= t.price else t.price <= x.price)
    && x.execQty == y.execQty > 0 && y.execQty <= b.orders[id].qty
  }

  /** `j` trades only after `k`, which stands ahead of it and has been filled completely. */
  ghost predicate InTurn(b: PriceBook, rs: seq<Response>, k: nat, j: nat)
    requires 2 * k + 1 < |rs| && 2 * j + 1 < |rs|
  {
    && MakerOf(rs, k) in b.orders && MakerOf(rs, j) in b.orders
    && Ahead(b.orders[MakerOf(rs, k)], b.orders[MakerOf(rs, j)])
    && rs[2 * k + 1].leavesQty == 0
  }

  ghost predicate AllInTurn(b: PriceBook, t: Taker, rs: seq<Response>) {
    && |rs| % 2 == 0
    && (forall k :: 0 <= k < |rs| / 2 ==> ExecutionOk(b, t, rs, k))
    && (forall k, j :: 0 <= k < j < |rs| / 2 ==> InTurn(b, rs, k, j))
  }

  /** What is left of the book after a complete fill; only quantities can have changed. */
  lemma RestOfBook(b: PriceBook, b': PriceBook, side: Side, t: Taker, rs: seq<Response>, k: nat)
    requires Thinned(b, b', side) && 2 * k + 1 < |rs| && ExecutionOk(b', t, rs, k)
    ensures ExecutionOk(b, t, rs, k)
  {
  }

  lemma FirstExecution(b: PriceBook, t: Taker, leaves: nat, maker: OrderId)
    requires Sound(b) && AllAscending(b) && t.side.Valid() && leaves > 0 && NextMaker(b, t) == Some(maker)
    ensures var f := Fill(b, t, maker, leaves);
            && f.leaves < leaves && |f.responses| == 2 && MakerOf(f.responses, 0) == maker
            && ExecutionOk(b, t, f.responses, 0)
            && (f.leaves > 0 ==> f.responses[1].leavesQty == 0 && maker !in f.book.orders)
  {
    NextMakerIsFirst(b, t);
    assert OrderWf(b, maker);
  }

  lemma Shifted(b: PriceBook, t: Taker, a: seq<Response>, rs: seq<Response>, k: nat)
    requires |a| == 2 && 2 * k + 1 < |rs| && ExecutionOk(b, t, rs, k)
    ensures ExecutionOk(b, t, a + rs, k + 1) && MakerOf(a + rs, k + 1) == MakerOf(rs, k)
    ensures (a + rs)[2 * (k + 1) + 1] == rs[2 * k + 1]
  {
  }

  lemma Unshifted(b: PriceBook, t: Taker, a: seq<Response>, rs: seq<Response>)
    requires |a| == 2 && ExecutionOk(b, t, a, 0)
    ensures ExecutionOk(b, t, a + rs, 0) && MakerOf(a + rs, 0) == MakerOf(a, 0) && (a + rs)[1] == a[1]
  {
  }

  /** The executions of a match come strictly in price-time order, each at the resting order's price; no order
      trades before all those ahead of it are gone. */
  lemma {:induction false} MatchInPriority(b: PriceBook, t: Taker, leaves: nat)
    requires Sound(b) && AllAscending(b) && t.side.Valid()
    ensures AllInTurn(b, t, MatchAll(b, t, leaves).responses)
    decreases leaves
  {
    hide Sound, AllAscending, Fill, ExecutionOk, Thinned, Ahead;
    if leaves > 0 && NextMaker(b, t).Some? {
      var maker := NextMaker(b, t).value;
      FillSound(b, t, maker, leaves);
      FillThins(b, t, maker, leaves);
      FirstExecution(b, t, leaves, maker);
      var f := Fill(b, t, maker, leaves);
      var rest := MatchAll(f.book, t, f.leaves).responses;
      if f.leaves > 0 {
        MatchInPriority(f.book, t, f.leaves);
        JoinTurns(b, t, maker, f, rest);
      } else {
        assert rest == [] && f.responses + rest == f.responses;
      }
    }
  }

  lemma JoinTurns(b: PriceBook, t: Taker, maker: OrderId, f: Matched, rest: seq<Response>)
    requires Sound(b) && AllAscending(b) && t.side.Valid() && NextMaker(b, t) == Some(maker)
    requires |f.responses| == 2 && MakerOf(f.responses, 0) == maker && ExecutionOk(b, t, f.responses, 0)
    requires f.responses[1].leavesQty == 0 && maker !in f.book.orders
    requires Thinned(b, f.book, t.side.Opposite()) && AllInTurn(f.book, t, rest)
    ensures AllInTurn(b, t, f.responses + rest)
  {
    hide ExecutionOk, Sound, AllAscending;
    var rs := f.responses + rest;
    Unshifted(b, t, f.responses, rest);
    forall k | 0 <= k < |rs| / 2 ensures ExecutionOk(b, t, rs, k) {
      if k > 0 {
        RestOfBook(b, f.book, t.side.Opposite(), t, rest, k - 1);
        Shifted(b, t, f.responses, rest, k - 1);
      }
    }
    forall k, j | 0 <= k < j < |rs| / 2 ensures InTurn(b, rs, k, j) {
      Shifted(f.book, t, f.responses, rest, j - 1);
      LaterMaker(b, t, maker, f.book, rest, j - 1);
      if k > 0 {
        Shifted(f.book, t, f.responses, rest, k - 1);
        SameTurn(b, f.book, t.side.Opposite(), rest, k - 1, j - 1);
      }
    }
  }

  /** Everyone who trades after the first stands behind it. */
  lemma LaterMaker(b: PriceBook, t: Taker, maker: OrderId, b': PriceBook, rest: seq<Response>, j: nat)
    requires Sound(b) && AllAscending(b) && t.side.Valid() && NextMaker(b, t) == Some(maker) && maker !in b'.orders
    requires Thinned(b, b', t.side.Opposite()) && 2 * j + 1 < |rest| && ExecutionOk(b', t, rest, j)
    ensures maker in b.orders && MakerOf(rest, j) in b.orders && Ahead(b.orders[maker], b.orders[MakerOf(rest, j)])
  {
    NextMakerIsFirst(b, t);
  }

  lemma SameTurn(b: PriceBook, b': PriceBook, side: Side, rest: seq<Response>, k: nat, j: nat)
    requires Thinned(b, b', side) && 2 * k + 1 < |rest| && 2 * j + 1 < |rest| && InTurn(b', rest, k, j)
    ensures InTurn(b, rest, k, j)
  {
  }
}
