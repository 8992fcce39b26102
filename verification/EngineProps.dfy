/** What holds in every run of the matching engine. */
module EngineProps {
  import opened Types
  import opened PriceBooks
  import opened MatchSpec
  import opened MatchInvariants
  import opened OrderLife
  import opened EngineSpec
  import opened Replay
  import opened MarketStream

  // ------------------------------------------------------------------ numbering and positions

  /** The signed executed quantity of one client and ticker. */
  function Net(rs: seq<Response>, c: ClientId, t: TickerId): int
    decreases |rs|
  {
    if rs == [] then 0
    else (if rs[0].client == c && rs[0].ticker == t && rs[0].kind.Filled? then rs[0].execQty * rs[0].side.Value() else 0)
         + Net(rs[1..], c, t)
  }

  lemma {:induction false} NetConcat(a: seq<Response>, b: seq<Response>, c: ClientId, t: TickerId)
    ensures Net(a + b, c, t) == Net(a, c, t) + Net(b, c, t)
    decreases |a|
  {
    if a == [] {
      assert a + b == b;
    } else {
      assert (a + b)[1..] == a[1..] + b;
      NetConcat(a[1..], b, c, t);
    }
  }

  predicate SameBut(x: Response, y: Response) {
    x == y.(responseId := x.responseId, position := x.position)
  }

  /** A numbered response: the next number, and the client's position up to and including it. */
  ghost predicate Stamped(d: Outbox, rs: seq<Response>, out: seq<Response>, i: nat)
    requires i < |rs| == |out|
  {
    && SameBut(out[i], rs[i])
    && out[i].responseId == d.nextId + i
    && (Counted(rs[i]) ==>
          out[i].position == PositionOf(d.positions, rs[i].client, rs[i].ticker)
                             + Net(rs[..i + 1], rs[i].client, rs[i].ticker))
  }

  lemma {:induction false} StampAllIs(d: Outbox, rs: seq<Response>, c: ClientId, t: TickerId)
    requires c < ME_MAX_NUM_CLIENTS && t < ME_MAX_TICKERS
    ensures StampAll(d, rs).0.nextId == d.nextId + |rs|
    ensures PositionOf(StampAll(d, rs).0.positions, c, t) == PositionOf(d.positions, c, t) + Net(rs, c, t)
    decreases |rs|
  {
    hide PositionOf;
    if rs != [] {
      StampOne(d, rs[0], c, t);
      StampAllIs(Stamp(d, rs[0]).0, rs[1..], c, t);
    }
  }

  lemma StampOne(d: Outbox, r: Response, c: ClientId, t: TickerId)
    requires c < ME_MAX_NUM_CLIENTS && t < ME_MAX_TICKERS
    ensures Stamp(d, r).0.nextId == d.nextId + 1 && SameBut(Stamp(d, r).1, r) && Stamp(d, r).1.responseId == d.nextId
    ensures PositionOf(Stamp(d, r).0.positions, c, t)
         == PositionOf(d.positions, c, t) + (if r.client == c && r.ticker == t then Signed(r) else 0)
  {
  }

  lemma StampCarries(d: Outbox, r: Response)
    ensures SameBut(Stamp(d, r).1, r) && Stamp(d, r).1.responseId == d.nextId
    ensures Counted(r) ==> Stamp(d, r).1.position == PositionOf(d.positions, r.client, r.ticker) + Signed(r)
  {
  }

  lemma StampedFirst(d: Outbox, rs: seq<Response>)
    requires rs != []
    ensures Stamped(d, rs, StampAll(d, rs).1, 0)
  {
    hide PositionOf, Stamp;
    StampCarries(d, rs[0]);
    var r := rs[0];
    assert rs[..1] == [r] && [r][1..] == [];
    assert Net([r], r.client, r.ticker) == Signed(r);
    assert StampAll(d, rs).1[0] == Stamp(d, r).1;
  }

  lemma StampedLater(d: Outbox, rs: seq<Response>, i: nat)
    requires 0 < i < |rs|
    requires Stamped(Stamp(d, rs[0]).0, rs[1..], StampAll(Stamp(d, rs[0]).0, rs[1..]).1, i - 1)
    ensures Stamped(d, rs, StampAll(d, rs).1, i)
  {
    hide PositionOf, Stamp;
    var r := rs[i];
    var rest := StampAll(Stamp(d, rs[0]).0, rs[1..]);
    StampOne(d, rs[0], 0, 0);
    if Counted(r) { StampOne(d, rs[0], r.client, r.ticker); }
    assert rs[..i + 1][1..] == rs[1..][..i] && rs[..i + 1][0] == rs[0];
    assert StampAll(d, rs).1[i] == rest.1[i - 1];
  }

  lemma {:induction false} StampedAt(d: Outbox, rs: seq<Response>, i: nat)
    requires i < |rs|
    ensures Stamped(d, rs, StampAll(d, rs).1, i)
    decreases |rs|
  {
    hide Stamped, Stamp;
    if i == 0 {
      StampedFirst(d, rs);
    } else {
      StampedAt(Stamp(d, rs[0]).0, rs[1..], i - 1);
      StampedLater(d, rs, i);
    }
  }

  /** Numbering does not change what an owner hears. */
  lemma {:induction false} HearStamped(d: Outbox, rs: seq<Response>, v: View, t: TickerId, o: Owner)
    ensures HearAll(v, StampAll(d, rs).1, t, o) == HearAll(v, rs, t, o)
    decreases |rs|
  {
    if rs != [] {
      var v' := if About(rs[0], t, o) then Hear(v, rs[0]) else v;
      var (d', first) := Stamp(d, rs[0]);
      hide HearAll;
      HearStamped(d', rs[1..], v', t, o);
      HearFirst(v, rs, t, o);
      HearFirst(v, [first] + StampAll(d', rs[1..]).1, t, o);
    }
  }

  lemma HearFirst(v: View, rs: seq<Response>, t: TickerId, o: Owner)
    requires rs != []
    ensures HearAll(v, rs, t, o) == HearAll(if About(rs[0], t, o) then Hear(v, rs[0]) else v, rs[1..], t, o)
  {
  }

  // ------------------------------------------------------------------ one non-execution per request

  function Answers(rs: seq<Response>): nat {
    if rs == [] then 0 else (if rs[0].kind.Filled? then 0 else 1) + Answers(rs[1..])
  }

  lemma {:induction false} OnlyExecutions(rs: seq<Response>, t: TickerId)
    requires Executions(rs, t)
    ensures Answers(rs) == 0
  {
    if rs != [] { OnlyExecutions(rs[1..], t); }
  }

  lemma {:induction false} AnswersStamped(d: Outbox, rs: seq<Response>)
    ensures Answers(StampAll(d, rs).1) == Answers(rs)
    decreases |rs|
  {
    if rs != [] { AnswersStamped(Stamp(d, rs[0]).0, rs[1..]); }
  }

  /** The responses to an accepted order: its acceptance, then executions. */
  lemma AddShape(b: Book, me: TickerId, to: Owner, side: Side, price: int, qty: nat)
    requires BookInv(b) && AddReason(b, me, to, me, side, price, qty) == NoReason
    ensures Sound(b.resting)
    ensures var t := Taker(to, me, side, price, b.nextId);
            var s := AddOrder(b, me, to, me, side, price, qty);
            && s.responses == [AcceptedResponse(to, me, b.nextId, side, price, qty)] + MatchAll(b.resting, t, qty).responses
            && Executions(MatchAll(b.resting, t, qty).responses, me)
            && s.book.nextId == b.nextId + 1
  {
    hide MatchAll, Wf, AllAscending, Uncrossed, OwnersDiffer;
    var t := Taker(to, me, side, price, b.nextId);
    RightTicker(b, me, to, me, side, price, qty);
    forall id | id in b.resting.orders ensures b.resting.orders[id].owner in b.used + {to} { KnownOwner(b, id); }
    MatchExecutes(b.resting, t, qty, b.used + {to});
  }

  /** Every request, whatever it asks, gets exactly one response that is not an execution report, and gets
      it first. */
  lemma OneAnswer(e: Engine, q: Request)
    requires BooksOk(e.books)
    ensures var rs := Process(e, q).responses;
            Answers(rs) == 1 && rs != [] && !rs[0].kind.Filled? && rs[0].client == q.client
  {
    hide BookInv, HistoryOk, MatchAll, Rest, AddReason;
    var rs := Handle(e.books, q).1;
    AnswersStamped(e.outbox, rs);
    StampedAt(e.outbox, rs, 0) by { AnswerShape(e.books, q); }
    AnswerShape(e.books, q);
  }

  lemma AnswerShape(bs: seq<Book>, q: Request)
    requires BooksOk(bs)
    ensures var rs := Handle(bs, q).1;
            && Answers(rs) == 1 && rs != [] && !rs[0].kind.Filled? && rs[0].client == q.client
            && Executions(rs[1..], q.ticker)
  {
    hide HistoryOk, MatchAll, Rest, BookInv, OrderOf;
    var rs := Handle(bs, q).1;
    if Validate(q) == NoReason && q.kind.New? {
      var b := bs[q.ticker];
      if AddReason(b, q.ticker, OwnerOf(q), q.ticker, q.side, q.price, q.qty) == NoReason {
        AddShape(b, q.ticker, OwnerOf(q), q.side, q.price, q.qty);
        var t := Taker(OwnerOf(q), q.ticker, q.side, q.price, b.nextId);
        assert rs[1..] == MatchAll(b.resting, t, q.qty).responses;
      }
    } else if Validate(q) == NoReason && q.kind.Query? {
      QueryShape(bs[q.ticker], q.ticker, OwnerOf(q));
    }
    OnlyExecutions(rs[1..], q.ticker);
  }

  lemma QueryShape(b: Book, me: TickerId, o: Owner)
    requires BookInv(b) && HistoryOk(b, me) && o.client < ME_MAX_NUM_CLIENTS
    ensures |QueryOf(b, me, o)| == 1
    ensures var r := QueryOf(b, me, o)[0]; About(r, me, o) && (r.kind.State? || r.kind.Rejected?)
  {
    if o.clientOrderId != 0 { QueryReports(b, me, o); }
  }

  // ------------------------------------------------------------------ positions

  /** Positions of one ticker over clients 0 to n - 1. */
  function SumTo(p: Positions, t: TickerId, n: nat): int {
    if n == 0 then 0 else SumTo(p, t, n - 1) + PositionOf(p, n - 1, t)
  }

  lemma {:induction false} SumSet(p: Positions, t: TickerId, c: ClientId, u: TickerId, x: int, n: nat)
    ensures SumTo(p[(c, u) := x], t, n) == SumTo(p, t, n) + (if c < n && u == t then x - PositionOf(p, c, u) else 0)
  {
    if n > 0 { SumSet(p, t, c, u, x, n - 1); }
  }

  /** The signed executed quantity of one ticker, whoever it was for. */
  function NetOfAll(rs: seq<Response>, t: TickerId): int
    decreases |rs|
  {
    if rs == [] then 0
    else (if Counted(rs[0]) && rs[0].ticker == t then Signed(rs[0]) else 0) + NetOfAll(rs[1..], t)
  }

  lemma {:induction false} SumStamped(d: Outbox, rs: seq<Response>, t: TickerId)
    requires t < ME_MAX_TICKERS
    ensures SumTo(StampAll(d, rs).0.positions, t, ME_MAX_NUM_CLIENTS)
         == SumTo(d.positions, t, ME_MAX_NUM_CLIENTS) + NetOfAll(rs, t)
    decreases |rs|
  {
    if rs != [] {
      var r := rs[0];
      SumSet(d.positions, t, r.client, r.ticker, PositionOf(d.positions, r.client, r.ticker) + Signed(r), ME_MAX_NUM_CLIENTS);
      hide SumTo, PositionOf, Signed;
      SumStamped(Stamp(d, r).0, rs[1..], t);
    }
  }

  lemma {:induction false} NetOfAllConcat(a: seq<Response>, b: seq<Response>, t: TickerId)
    ensures NetOfAll(a + b, t) == NetOfAll(a, t) + NetOfAll(b, t)
    decreases |a|
  {
    if a == [] {
      assert a + b == b;
    } else {
      assert (a + b)[1..] == a[1..] + b;
      NetOfAllConcat(a[1..], b, t);
    }
  }

  lemma FillNets(b: PriceBook, t: Taker, maker: OrderId, leaves: nat, u: TickerId, c: ClientId)
    requires maker in b.orders && b.orders[maker].side == t.side.Opposite() && t.side.Valid()
    requires t.owner.client < ME_MAX_NUM_CLIENTS && b.orders[maker].owner.client < ME_MAX_NUM_CLIENTS
    ensures var f := Fill(b, t, maker, leaves);
            && NetOfAll(f.responses, u) == 0
            && Within(Net(f.responses, c, u), leaves - f.leaves) && Within(Net(f.responses[..1], c, u), leaves - f.leaves)
  {
    var f := Fill(b, t, maker, leaves);
    var x, y := f.responses[0], f.responses[1];
    assert f.responses[1..] == [y] && [y][1..] == [] && f.responses[..1] == [x] && [x][1..] == [];
    assert x.execQty == leaves - f.leaves == y.execQty;
    if t.side.Buy? {
      assert Signed(x) == x.execQty && Signed(y) == 0 - x.execQty;
    } else {
      assert Signed(x) == 0 - x.execQty && Signed(y) == x.execQty;
    }
    hide Fill, Signed;
    NetTwo(x, y, c, u);
    assert NetOfAll([y], u) == if Counted(y) && y.ticker == u then Signed(y) else 0;
  }

  lemma NetTwo(x: Response, y: Response, c: ClientId, u: TickerId)
    ensures Net([x], c, u) == if x.client == c && x.ticker == u then Signed(x) else 0
    ensures Net([x, y], c, u) == Net([x], c, u) + if y.client == c && y.ticker == u then Signed(y) else 0
  {
    assert [x][1..] == [] && [x, y][1..] == [y] && [y][1..] == [];
  }

  /** What one side of every execution gains, the other loses. */
  lemma {:induction false} MatchNets(b: PriceBook, t: Taker, leaves: nat, u: TickerId, used: set<Owner>)
    requires Sound(b) && t.owner in used && forall id :: id in b.orders ==> b.orders[id].owner in used
    requires forall o :: o in used ==> o.client < ME_MAX_NUM_CLIENTS
    requires t.side.Valid()
    ensures NetOfAll(MatchAll(b, t, leaves).responses, u) == 0
    decreases leaves
  {
    if leaves > 0 && NextMaker(b, t).Some? {
      var maker := NextMaker(b, t).value;
      FillSound(b, t, maker, leaves);
      FillExecutes(b, t, maker, leaves, used);
      FillNets(b, t, maker, leaves, u, 0);
      hide Sound, Fill, NetOfAll;
      var f := Fill(b, t, maker, leaves);
      MatchNets(f.book, t, f.leaves, u, used);
      NetOfAllConcat(f.responses, MatchAll(f.book, t, f.leaves).responses, u);
    }
  }

  predicate Within(x: int, bound: int) { 0 - bound <= x <= bound }

  /** At no point of a match has any client's position moved by more than the taker's quantity. */
  lemma {:induction false} MatchMoves(b: PriceBook, t: Taker, leaves: nat, c: ClientId, u: TickerId, used: set<Owner>, k: nat)
    requires Sound(b) && t.owner in used && forall id :: id in b.orders ==> b.orders[id].owner in used
    requires forall o :: o in used ==> o.client < ME_MAX_NUM_CLIENTS
    requires t.side.Valid() && k <= |MatchAll(b, t, leaves).responses|
    ensures Within(Net(MatchAll(b, t, leaves).responses[..k], c, u), leaves)
    decreases leaves
  {
    var all := MatchAll(b, t, leaves).responses;
    if k > 0 {
      var maker := NextMaker(b, t).value;
      FillSound(b, t, maker, leaves);
      FillExecutes(b, t, maker, leaves, used);
      FillNets(b, t, maker, leaves, u, c);
      var f := Fill(b, t, maker, leaves);
      var rest := MatchAll(f.book, t, f.leaves).responses;
      assert all == f.responses + rest;
      if k == 1 {
        assert all[..1] == f.responses[..1];
      } else {
        MatchMoves(f.book, t, f.leaves, c, u, used, k - 2);
        assert all[..k] == f.responses + rest[..k - 2];
        NetConcat(f.responses, rest[..k - 2], c, u);
      }
    }
  }
}
