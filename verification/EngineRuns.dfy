/** Theorems over whole runs of the matching engine, for every sequence of requests. */
module EngineRuns {
  import opened Types
  import opened PriceBooks
  import opened MatchSpec
  import opened MatchInvariants
  import opened OrderLife
  import opened EngineSpec
  import opened EngineProps
  import opened Replay
  import opened MarketStream

  // ------------------------------------------------------------------ the event stream

  lemma {:induction false} PrefixBooks(stream: seq<Event>, es: seq<Event>, k: nat)
    requires k <= |stream|
    ensures BooksAt(stream + es, k) == BooksAt(stream, k)
  {
    if k > 0 { PrefixBooks(stream, es, k - 1); }
  }

  lemma PrefixGenuine(stream: seq<Event>, e: Event, k: nat)
    requires k < |stream| && GenuineAt(stream, k)
    ensures GenuineAt(stream + [e], k)
  {
    hide Genuine, EffectOn, BooksAt;
    PrefixBooks(stream, [e], k);
    assert (stream + [e])[k] == stream[k];
  }

  lemma BooksStep(stream: seq<Event>, k: nat)
    requires k < |stream|
    ensures BooksAt(stream, k + 1) == EffectOn(BooksAt(stream, k), stream[k])
  {
    hide EffectOn;
  }

  lemma LastGenuine(stream: seq<Event>, e: Event)
    requires e.ticker < ME_MAX_TICKERS && Genuine(BooksAt(stream, |stream|)[e.ticker], e.ticker, e)
    ensures GenuineAt(stream + [e], |stream|)
    ensures BooksAt(stream + [e], |stream| + 1) == EffectOn(BooksAt(stream, |stream|), e)
  {
    hide Genuine, EffectOn, BooksAt;
    PrefixBooks(stream, [e], |stream|);
    assert (stream + [e])[|stream|] == e;
    BooksStep(stream + [e], |stream|);
  }

  lemma GenuineMore(stream: seq<Event>, e: Event, t: TickerId)
    requires GenuineStream(stream) && t < ME_MAX_TICKERS && e.ticker == t
    requires Genuine(BooksAt(stream, |stream|)[t], t, e)
    ensures GenuineStream(stream + [e])
    ensures BooksAt(stream + [e], |stream| + 1) == EffectOn(BooksAt(stream, |stream|), e)
  {
    hide Genuine, EffectOn, BooksAt, GenuineAt;
    LastGenuine(stream, e);
    forall k | 0 <= k < |stream + [e]| ensures GenuineAt(stream + [e], k) {
      if k < |stream| { PrefixGenuine(stream, e, k); }
    }
  }

  /** One ticker's genuine events extend the stream of all tickers. */
  lemma {:induction false} StreamGrows(stream: seq<Event>, es: seq<Event>, t: TickerId)
    requires GenuineStream(stream) && t < ME_MAX_TICKERS
    requires GenuineRun(BooksAt(stream, |stream|)[t], t, es)
    ensures GenuineStream(stream + es)
    ensures BooksAt(stream + es, |stream + es|)
         == BooksAt(stream, |stream|)[t := After(BooksAt(stream, |stream|)[t], es)]
    decreases |es|
  {
    hide GenuineStream, Genuine, Effect;
    if es == [] {
      assert stream + es == stream;
    } else {
      GenuineTicker(BooksAt(stream, |stream|)[t], t, es[0]);
      GenuineMore(stream, es[0], t);
      assert |stream + [es[0]]| == |stream| + 1;
      StreamGrows(stream + [es[0]], es[1..], t);
      assert stream + [es[0]] + es[1..] == stream + es;
    }
  }

  lemma GenuineTicker(b: PriceBook, t: TickerId, e: Event)
    requires Genuine(b, t, e)
    ensures e.ticker == t
  {
  }

  /** The books as market data shows them. */
  ghost function PublicBooks(bs: seq<Book>): (r: Books)
    requires |bs| == ME_MAX_TICKERS
  {
    seq(ME_MAX_TICKERS, i requires 0 <= i < ME_MAX_TICKERS => Public(bs[i].resting))
  }

  lemma ServeReplays(b: Book, q: Request)
    requires BookInv(b) && Validate(q) == NoReason
    ensures var s := Serve(b, q.ticker, q);
            GenuineRun(Public(b.resting), q.ticker, s.events) && After(Public(b.resting), s.events) == Public(s.book.resting)
  {
    hide BookInv;
    match q.kind
    case New => AddReplays(b, q.ticker, OwnerOf(q), q.ticker, q.side, q.price, q.qty);
    case CancelOrder => CancelReplays(b, q.ticker, OwnerOf(q), q.ticker);
    case _ =>
  }

  /** The events of one request carry the public books from before it to after it. */
  lemma HandleReplays(bs: seq<Book>, q: Request, stream: seq<Event>)
    requires BooksOk(bs) && GenuineStream(stream) && BooksAt(stream, |stream|) == PublicBooks(bs)
    ensures var (bs', rs, es) := Handle(bs, q);
            && |bs'| == ME_MAX_TICKERS && GenuineStream(stream + es)
            && BooksAt(stream + es, |stream + es|) == PublicBooks(bs')
  {
    hide BookInv, HistoryOk, Serve, GenuineStream, GenuineRun, Public;
    var (bs', rs, es) := Handle(bs, q);
    if Validate(q) == NoReason {
      ServeReplays(bs[q.ticker], q);
      StreamGrows(stream, es, q.ticker);
      assert PublicBooks(bs') == PublicBooks(bs)[q.ticker := Public(bs'[q.ticker].resting)];
    } else {
      assert stream + es == stream;
    }
  }

  lemma EmptyPublic()
    ensures PublicBooks(START.books) == EMPTY_BOOKS
  {
    assert Public(EMPTY).orders == map[];
    assert PublicBooks(START.books) == EMPTY_BOOKS;
  }

  /** In every run, every event is one that all replicas accept, and replaying them all gives exactly the
      books of the exchange: the same orders, in the same order of time, on every level. */
  lemma {:induction false} EventsRebuildTheBooks(qs: seq<Request>)
    ensures GenuineStream(Run(qs).events)
    ensures BooksAt(Run(qs).events, |Run(qs).events|) == PublicBooks(Run(qs).engine.books)
    decreases |qs|
  {
    if qs == [] {
      EmptyPublic();
    } else {
      hide BooksOk, GenuineStream, Handle, PublicBooks;
      EventsRebuildTheBooks(qs[..|qs| - 1]);
      var before := Run(qs[..|qs| - 1]);
      HandleReplays(before.engine.books, qs[|qs| - 1], before.events);
    }
  }

  // ------------------------------------------------------------------ quantities and positions

  /** The books of every run are uncrossed, sound, and in time order on every level. */
  lemma BooksStayGood(qs: seq<Request>, t: TickerId)
    requires t < ME_MAX_TICKERS
    ensures BookInv(Run(qs).engine.books[t]) && Uncrossed(Run(qs).engine.books[t].resting)
    ensures HistoryOk(Run(qs).engine.books[t], t)
  {
    hide Run;
    assert BooksOk(Run(qs).engine.books);
  }

  lemma ServeBalances(b: Book, q: Request, o: Owner)
    requires BookInv(b) && HistoryOk(b, q.ticker) && Validate(q) == NoReason
    ensures var s := Serve(b, q.ticker, q);
            QtyOf(LiveIn(s.book.resting, o)) == QtyOf(LiveIn(b.resting, o)) + Ledger(s.responses, q.ticker, o)
  {
    hide BookInv, HistoryOk, LiveIn;
    match q.kind
    case New => AddBalances(b, q.ticker, OwnerOf(q), q.ticker, q.side, q.price, q.qty, o);
    case CancelOrder => CancelBalances(b, q.ticker, OwnerOf(q), o);
    case _ => QueryBalances(b, q.ticker, OwnerOf(q), o);
  }

  lemma ServeElsewhere(b: Book, q: Request, t: TickerId, o: Owner)
    requires BookInv(b) && HistoryOk(b, q.ticker) && Validate(q) == NoReason && t != q.ticker
    ensures Ledger(Serve(b, q.ticker, q).responses, t, o) == 0
  {
    hide BookInv, HistoryOk, AddReason, MatchAll, Rest;
    match q.kind
    case New =>
      if AddReason(b, q.ticker, OwnerOf(q), q.ticker, q.side, q.price, q.qty) == NoReason {
        AddShape(b, q.ticker, OwnerOf(q), q.side, q.price, q.qty);
        var rs := MatchAll(b.resting, Taker(OwnerOf(q), q.ticker, q.side, q.price, b.nextId), q.qty).responses;
        NotAbout(rs, q.ticker, t, o);
        LedgerConcat([AcceptedResponse(OwnerOf(q), q.ticker, b.nextId, q.side, q.price, q.qty)], rs, t, o);
        LedgerOne(AcceptedResponse(OwnerOf(q), q.ticker, b.nextId, q.side, q.price, q.qty), t, o);
      }
    case CancelOrder => LedgerOne(CancelOf(b, q.ticker, OwnerOf(q), q.ticker).responses[0], t, o);
    case _ =>
      QueryShape(b, q.ticker, OwnerOf(q));
      LedgerOne(QueryOf(b, q.ticker, OwnerOf(q))[0], t, o);
  }

  lemma {:induction false} NotAbout(rs: seq<Response>, here: TickerId, t: TickerId, o: Owner)
    requires Executions(rs, here) && t != here
    ensures Ledger(rs, t, o) == 0
  {
    if rs != [] { NotAbout(rs[1..], here, t, o); }
  }

  lemma HandleBalances(bs: seq<Book>, q: Request, t: TickerId, o: Owner)
    requires BooksOk(bs) && t < ME_MAX_TICKERS
    ensures var (bs', rs, _) := Handle(bs, q);
            QtyOf(LiveIn(bs'[t].resting, o)) == QtyOf(LiveIn(bs[t].resting, o)) + Ledger(rs, t, o)
  {
    hide BookInv, HistoryOk, LiveIn, Serve;
    if Validate(q) != NoReason {
      LedgerOne(Refusal(q), t, o);
    } else if t == q.ticker {
      ServeBalances(bs[t], q, o);
    } else {
      ServeElsewhere(bs[q.ticker], q, t, o);
    }
  }

  lemma {:induction false} LedgerStamped(d: Outbox, rs: seq<Response>, t: TickerId, o: Owner)
    ensures Ledger(StampAll(d, rs).1, t, o) == Ledger(rs, t, o)
    decreases |rs|
  {
    if rs != [] { LedgerStamped(Stamp(d, rs[0]).0, rs[1..], t, o); }
  }

  /** Conservation, in every run and for every order: what was accepted is what was executed, what was
      canceled and what still rests in the book. */
  lemma {:induction false} NothingIsLost(qs: seq<Request>, t: TickerId, o: Owner)
    requires t < ME_MAX_TICKERS
    ensures Ledger(Run(qs).responses, t, o) == QtyOf(LiveIn(Run(qs).engine.books[t].resting, o))
    decreases |qs|
  {
    if qs != [] {
      hide BooksOk, Handle, LiveIn, StampAll;
      var before := Run(qs[..|qs| - 1]);
      NothingIsLost(qs[..|qs| - 1], t, o);
      HandleBalances(before.engine.books, qs[|qs| - 1], t, o);
      var rs := Handle(before.engine.books, qs[|qs| - 1]).1;
      LedgerStamped(before.engine.outbox, rs, t, o);
      LedgerConcat(before.responses, StampAll(before.engine.outbox, rs).1, t, o);
    }
  }

  lemma {:induction false} QuietNets(rs: seq<Response>, c: ClientId, t: TickerId, k: nat)
    requires k <= |rs| && forall i :: 0 <= i < |rs| ==> Signed(rs[i]) == 0 || rs[i].ticker != t
    ensures Net(rs[..k], c, t) == 0 && NetOfAll(rs, t) == 0
    decreases |rs|
  {
    if rs != [] {
      if k > 0 { assert rs[..k][1..] == rs[1..][..k - 1]; }
      hide Signed;
      QuietNets(rs[1..], c, t, if k > 0 then k - 1 else 0);
    }
  }

  /** What one request does to positions: nothing in sum, and for no client more than an accepted order's
      quantity, at no point of the request. */
  lemma ServeMoves(b: Book, q: Request, c: ClientId, t: TickerId, k: nat)
    requires BookInv(b) && HistoryOk(b, q.ticker) && Validate(q) == NoReason
    requires k <= |Serve(b, q.ticker, q).responses|
    ensures var s := Serve(b, q.ticker, q);
            && b.nextId <= s.book.nextId <= ME_MAX_ORDER_IDS
            && NetOfAll(s.responses, t) == 0
            && Within(Net(s.responses[..k], c, t), if t == q.ticker then (s.book.nextId - b.nextId) * INT32_MAX else 0)
  {
    hide BookInv, HistoryOk, AddReason, MatchAll, Rest;
    var s := Serve(b, q.ticker, q);
    ServeKeeps(b, q);
    assert s.book.nextId <= ME_MAX_ORDER_IDS by { NextIdBounded(s.book); }
    if q.kind.New? && AddReason(b, q.ticker, OwnerOf(q), q.ticker, q.side, q.price, q.qty) == NoReason {
      AcceptedMoves(b, q, c, t, k);
    } else {
      if q.kind.Query? { QueryShape(b, q.ticker, OwnerOf(q)); }
      QuietNets(s.responses, c, t, k);
    }
  }

  lemma NextIdBounded(b: Book)
    requires BookInv(b)
    ensures b.nextId <= ME_MAX_ORDER_IDS
  {
  }

  lemma AcceptedMoves(b: Book, q: Request, c: ClientId, t: TickerId, k: nat)
    requires BookInv(b) && Validate(q) == NoReason && q.kind.New?
    requires AddReason(b, q.ticker, OwnerOf(q), q.ticker, q.side, q.price, q.qty) == NoReason
    requires k <= |Serve(b, q.ticker, q).responses|
    ensures var s := Serve(b, q.ticker, q);
            && s.book.nextId == b.nextId + 1
            && NetOfAll(s.responses, t) == 0
            && Within(Net(s.responses[..k], c, t), if t == q.ticker then INT32_MAX else 0)
  {
    hide MatchAll, Rest, Wf, AllAscending, Uncrossed, OwnersDiffer, InBounds, AddReason;
    AddShape(b, q.ticker, OwnerOf(q), q.side, q.price, q.qty);
    var first := AcceptedResponse(OwnerOf(q), q.ticker, b.nextId, q.side, q.price, q.qty);
    var tk := Taker(OwnerOf(q), q.ticker, q.side, q.price, b.nextId);
    var rs := MatchAll(b.resting, tk, q.qty).responses;
    var used := b.used + {OwnerOf(q)};
    forall id | id in b.resting.orders ensures b.resting.orders[id].owner in used { KnownOwner(b, id); }
    MatchNets(b.resting, tk, q.qty, t, used);
    NetOfAllConcat([first], rs, t);
    QuietNets([first], c, t, 1);
    if k > 0 {
      MatchMoves(b.resting, tk, q.qty, c, t, used, k - 1);
      assert ([first] + rs)[..k] == [first] + rs[..k - 1];
      NetConcat([first], rs[..k - 1], c, t);
      assert [first][..1] == [first];
      if t != q.ticker { QuietNets(rs, c, t, k - 1); }
    }
  }

  lemma HandleMoves(bs: seq<Book>, q: Request, c: ClientId, t: TickerId, k: nat)
    requires BooksOk(bs) && t < ME_MAX_TICKERS && k <= |Handle(bs, q).1|
    ensures var (bs', rs, _) := Handle(bs, q);
            && bs[t].nextId <= bs'[t].nextId <= ME_MAX_ORDER_IDS
            && NetOfAll(rs, t) == 0
            && Within(Net(rs[..k], c, t), (bs'[t].nextId - bs[t].nextId) * INT32_MAX)
  {
    hide BookInv, HistoryOk, Serve;
    if Validate(q) != NoReason {
      QuietNets(Handle(bs, q).1, c, t, k);
      NextIdBounded(bs[t]);
    } else {
      ServeMoves(bs[q.ticker], q, c, t, k);
      NextIdBounded(bs[t]);
    }
  }

  /** Client positions of a ticker sum to zero after every request. */
  lemma {:induction false} PositionsSumToZero(qs: seq<Request>, t: TickerId)
    requires t < ME_MAX_TICKERS
    ensures SumTo(Run(qs).engine.outbox.positions, t, ME_MAX_NUM_CLIENTS) == 0
    decreases |qs|
  {
    if qs == [] {
      NoPositions(t, ME_MAX_NUM_CLIENTS);
    } else {
      hide BooksOk, Handle, StampAll, SumTo;
      var before := Run(qs[..|qs| - 1]);
      PositionsSumToZero(qs[..|qs| - 1], t);
      HandleMoves(before.engine.books, qs[|qs| - 1], 0, t, 0);
      SumStamped(before.engine.outbox, Handle(before.engine.books, qs[|qs| - 1]).1, t);
    }
  }

  lemma {:induction false} NoPositions(t: TickerId, n: nat)
    ensures SumTo(map[], t, n) == 0
  {
    if n > 0 { NoPositions(t, n - 1); }
  }

  lemma {:induction false} NetStamped(d: Outbox, rs: seq<Response>, k: nat, c: ClientId, t: TickerId)
    requires k <= |rs|
    ensures Net(StampAll(d, rs).1[..k], c, t) == Net(rs[..k], c, t)
    decreases |rs|
  {
    if k > 0 {
      var rest := StampAll(Stamp(d, rs[0]).0, rs[1..]).1;
      NetStamped(Stamp(d, rs[0]).0, rs[1..], k - 1, c, t);
      assert StampAll(d, rs).1[..k] == [Stamp(d, rs[0]).1] + rest[..k - 1];
      assert rs[..k] == [rs[0]] + rs[1..][..k - 1];
    }
  }

  /** The engine's counters agree with everything it has sent. */
  ghost predicate OutboxIs(d: Outbox, rs: seq<Response>) {
    && d.nextId == |rs| + 1
    && forall c: ClientId, t: TickerId :: c < ME_MAX_NUM_CLIENTS && t < ME_MAX_TICKERS ==> PositionOf(d.positions, c, t) == Net(rs, c, t)
  }

  /** Response numbers are 1, 2, 3, and so on; each position is the sum of the client's executions so far. */
  ghost predicate WellNumbered(rs: seq<Response>, i: nat)
    requires i < |rs|
  {
    && rs[i].responseId == i + 1
    && (rs[i].client < ME_MAX_NUM_CLIENTS && rs[i].ticker < ME_MAX_TICKERS ==>
          rs[i].position == Net(rs[..i + 1], rs[i].client, rs[i].ticker))
  }

  lemma OutboxGrows(d: Outbox, sent: seq<Response>, rs: seq<Response>)
    requires OutboxIs(d, sent)
    ensures OutboxIs(StampAll(d, rs).0, sent + StampAll(d, rs).1)
  {
    var out := StampAll(d, rs).1;
    forall c: ClientId, t: TickerId | c < ME_MAX_NUM_CLIENTS && t < ME_MAX_TICKERS
      ensures PositionOf(StampAll(d, rs).0.positions, c, t) == Net(sent + out, c, t)
    {
      StampAllIs(d, rs, c, t);
      NetConcat(sent, out, c, t);
      NetStamped(d, rs, |rs|, c, t);
      assert out[..|rs|] == out && rs[..|rs|] == rs;
    }
    StampAllIs(d, rs, 0, 0);
  }

  lemma NumberedGrows(d: Outbox, sent: seq<Response>, rs: seq<Response>, i: nat)
    requires OutboxIs(d, sent) && |sent| <= i < |sent| + |rs|
    ensures WellNumbered(sent + StampAll(d, rs).1, i)
  {
    var out, j := StampAll(d, rs).1, i - |sent|;
    var all := sent + out;
    StampedAt(d, rs, j);
    hide StampAll, OutboxIs;
    assert all[i] == out[j];
    if Counted(out[j]) {
      var c, t := out[j].client, out[j].ticker;
      assert OutboxIs(d, sent);
      assert all[..i + 1] == sent + out[..j + 1];
      NetConcat(sent, out[..j + 1], c, t);
      NetStamped(d, rs, j + 1, c, t);
    }
  }

  lemma {:induction false} ResponsesNumbered(qs: seq<Request>)
    ensures OutboxIs(Run(qs).engine.outbox, Run(qs).responses)
    ensures forall i :: 0 <= i < |Run(qs).responses| ==> WellNumbered(Run(qs).responses, i)
    decreases |qs|
  {
    if qs != [] {
      hide BooksOk, Handle, StampAll, OutboxIs, WellNumbered;
      var before := Run(qs[..|qs| - 1]);
      var rs := Handle(before.engine.books, qs[|qs| - 1]).1;
      ResponsesNumbered(qs[..|qs| - 1]);
      OutboxGrows(before.engine.outbox, before.responses, rs);
      var out := StampAll(before.engine.outbox, rs).1;
      forall i | 0 <= i < |before.responses + out| ensures WellNumbered(before.responses + out, i) {
        if i < |before.responses| {
          NumberedPrefix(before.responses, out, i);
        } else {
          NumberedGrows(before.engine.outbox, before.responses, rs, i);
        }
      }
    }
  }

  lemma NumberedPrefix(a: seq<Response>, b: seq<Response>, i: nat)
    requires i < |a| && WellNumbered(a, i)
    ensures WellNumbered(a + b, i)
  {
    assert (a + b)[..i + 1] == a[..i + 1];
  }

  const MOST: int := ME_MAX_ORDER_IDS * INT32_MAX

  /** Executions so far are covered by the ids given out; no earlier sum left the range. */
  ghost predicate Bounded(rs: seq<Response>, c: ClientId, t: TickerId, nextId: nat) {
    && 1 <= nextId <= ME_MAX_ORDER_IDS
    && Within(Net(rs, c, t), (nextId - 1) * INT32_MAX)
    && forall k :: 0 <= k <= |rs| ==> Within(Net(rs[..k], c, t), MOST)
  }

  lemma NetSplit(a: seq<Response>, b: seq<Response>, c: ClientId, t: TickerId, k: nat)
    requires k <= |a| + |b|
    ensures Net((a + b)[..k], c, t)
         == if k <= |a| then Net(a[..k], c, t) else Net(a, c, t) + Net(b[..k - |a|], c, t)
  {
    if k <= |a| {
      assert (a + b)[..k] == a[..k];
    } else {
      assert (a + b)[..k] == a + b[..k - |a|];
      NetConcat(a, b[..k - |a|], c, t);
    }
  }

  lemma BoundedGrows(a: seq<Response>, b: seq<Response>, c: ClientId, t: TickerId, nextId: nat, nextId': nat)
    requires Bounded(a, c, t, nextId) && nextId <= nextId' <= ME_MAX_ORDER_IDS
    requires forall k :: 0 <= k <= |b| ==> Within(Net(b[..k], c, t), (nextId' - nextId) * INT32_MAX)
    ensures Bounded(a + b, c, t, nextId')
  {
    hide Net;
    forall k | 0 <= k <= |a + b| ensures Within(Net((a + b)[..k], c, t), MOST) {
      NetSplit(a, b, c, t, k);
    }
    NetConcat(a, b, c, t);
    assert b[..|b|] == b;
  }

  /** At every point of every run a client's executions of a ticker sum to less than the ids the book has
      given out times the largest quantity. */
  lemma {:induction false} NetBounded(qs: seq<Request>, c: ClientId, t: TickerId)
    requires t < ME_MAX_TICKERS
    ensures Bounded(Run(qs).responses, c, t, Run(qs).engine.books[t].nextId)
    decreases |qs|
  {
    if qs != [] {
      hide BooksOk, Handle, StampAll, Net, Bounded;
      var before := Run(qs[..|qs| - 1]);
      var (bs', rs, _) := Handle(before.engine.books, qs[|qs| - 1]);
      var out := StampAll(before.engine.outbox, rs).1;
      NetBounded(qs[..|qs| - 1], c, t);
      HandleMoves(before.engine.books, qs[|qs| - 1], c, t, 0);
      forall k | 0 <= k <= |out|
        ensures Within(Net(out[..k], c, t), (bs'[t].nextId - before.engine.books[t].nextId) * INT32_MAX)
      {
        HandleMoves(before.engine.books, qs[|qs| - 1], c, t, k);
        NetStamped(before.engine.outbox, rs, k, c, t);
      }
      BoundedGrows(before.responses, out, c, t, before.engine.books[t].nextId, bs'[t].nextId);
    }
  }

  const INT64_MAX: int := 0x7FFF_FFFF_FFFF_FFFF

  /** No position that any response of any run carries can leave the range of a 64-bit integer. */
  lemma PositionsFit(qs: seq<Request>, i: nat)
    requires i < |Run(qs).responses| && Counted(Run(qs).responses[i])
    ensures var r := Run(qs).responses[i];
            && r.position == Net(Run(qs).responses[..i + 1], r.client, r.ticker)
            && Within(r.position, MOST) && Within(r.position, INT64_MAX)
  {
    hide Run, Net;
    var r := Run(qs).responses[i];
    ResponsesNumbered(qs);
    assert WellNumbered(Run(qs).responses, i);
    NetBounded(qs, r.client, r.ticker);
  }

  /** In every run a query of an accepted order reports what is open of it, zero once it is filled or canceled,
      which is also what all earlier responses about it add up to; of any other id it is rejected. */
  lemma QueriesAreTrue(qs: seq<Request>, q: Request)
    requires q.kind.Query? && Validate(q) == NoReason && q.orderId != 0
    ensures var e := Run(qs).engine; var rs := Process(e, q).responses;
            var live := QtyOf(LiveIn(e.books[q.ticker].resting, OwnerOf(q)));
            && |rs| == 1 && About(rs[0], q.ticker, OwnerOf(q))
            && live == Ledger(Run(qs).responses, q.ticker, OwnerOf(q))
            && (OwnerOf(q) in e.books[q.ticker].used ==> rs[0].kind.State? && rs[0].leavesQty == live)
            && (OwnerOf(q) !in e.books[q.ticker].used ==> rs[0].kind.Rejected? && live == 0)
  {
    hide Run, BookInv, HistoryOk, LiveIn, QueryOf;
    var e := Run(qs).engine;
    NothingIsLost(qs, q.ticker, OwnerOf(q));
    BooksStayGood(qs, q.ticker);
    QueryReports(e.books[q.ticker], q.ticker, OwnerOf(q));
    StampedAt(e.outbox, QueryOf(e.books[q.ticker], q.ticker, OwnerOf(q)), 0);
  }
}
