/** What one request of anyone does to what the owner of one order knows. */
module EngineHears {
  import opened Types
  import opened MatchSpec
  import opened MatchInvariants
  import opened PriceBooks
  import opened OrderLife
  import opened EngineSpec
  import opened EngineProps

  lemma {:induction false} QuietHear(v: View, rs: seq<Response>, t: TickerId, o: Owner)
    requires forall i :: 0 <= i < |rs| ==> !About(rs[i], t, o)
    ensures HearAll(v, rs, t, o) == v
    decreases |rs|
  {
    if rs != [] { QuietHear(v, rs[1..], t, o); }
  }

  /** Responses name the requester's order or an order the book has accepted. */
  ghost predicate Addressed(rs: seq<Response>, t: TickerId, owners: set<Owner>) {
    forall i :: 0 <= i < |rs| ==> rs[i].ticker == t && Owner(rs[i].client, rs[i].clientOrderId) in owners
  }

  lemma ServeAddressed(b: Book, q: Request)
    requires BookInv(b) && HistoryOk(b, q.ticker) && Validate(q) == NoReason
    ensures Addressed(Serve(b, q.ticker, q).responses, q.ticker, b.used + {OwnerOf(q)})
    ensures var s := Serve(b, q.ticker, q);
            s.book.used == b.used || (q.kind.New? && s.book.used == b.used + {OwnerOf(q)})
  {
    hide MatchAll, Rest, Wf, AllAscending, Uncrossed, OwnersDiffer, HistoryOk, AddReason, OrderOf;
    if q.kind.New? && AddReason(b, q.ticker, OwnerOf(q), q.ticker, q.side, q.price, q.qty) == NoReason {
      var t := Taker(OwnerOf(q), q.ticker, q.side, q.price, b.nextId);
      AddShape(b, q.ticker, OwnerOf(q), q.side, q.price, q.qty);
      forall id | id in b.resting.orders ensures b.resting.orders[id].owner in b.used + {OwnerOf(q)} { KnownOwner(b, id); }
      MatchExecutes(b.resting, t, q.qty, b.used + {OwnerOf(q)});
      var rs := MatchAll(b.resting, t, q.qty).responses;
      assert Addressed(rs, q.ticker, b.used + {OwnerOf(q)});
    } else if q.kind.Query? {
      QueryShape(b, q.ticker, OwnerOf(q));
    }
  }

  lemma QueryHears(b: Book, me: TickerId, to: Owner, o: Owner)
    requires BookInv(b) && HistoryOk(b, me) && to.client < ME_MAX_NUM_CLIENTS
    ensures HearAll(LiveIn(b.resting, o), QueryOf(b, me, to), me, o) == LiveIn(b.resting, o)
  {
    QueryShape(b, me, to);
    HearOne(LiveIn(b.resting, o), QueryOf(b, me, to)[0], me, o);
    if o == to {
      if to.clientOrderId == 0 { NotUsedIsAbsent(b, to); } else { QueryReports(b, me, to); }
    }
  }

  predicate Duplicate(b: Book, q: Request) { q.kind.New? && OwnerOf(q) in b.used }

  lemma DuplicateRejected(b: Book, q: Request)
    requires Duplicate(b, q)
    ensures AddReason(b, q.ticker, OwnerOf(q), q.ticker, q.side, q.price, q.qty) != NoReason
  {
  }

  lemma ServeHears(b: Book, q: Request, o: Owner, v: View)
    requires BookInv(b) && HistoryOk(b, q.ticker) && Validate(q) == NoReason
    requires v == if q.kind.New? && o == OwnerOf(q) then Open(q.side, q.qty) else LiveIn(b.resting, o)
    requires o == OwnerOf(q) ==> !Duplicate(b, q)
    ensures var s := Serve(b, q.ticker, q);
            HearAll(v, s.responses, q.ticker, o) == LiveIn(s.book.resting, o)
  {
    hide BookInv, HistoryOk, AddReason, LiveIn, HearAll;
    match q.kind
    case New =>
      if Duplicate(b, q) {
        DuplicateRejected(b, q);
        HearOne(v, Serve(b, q.ticker, q).responses[0], q.ticker, o);
      } else {
        AddHears(b, q.ticker, OwnerOf(q), q.side, q.price, q.qty, o);
      }
    case CancelOrder => CancelHears(b, q.ticker, OwnerOf(q), o);
    case _ => QueryHears(b, q.ticker, OwnerOf(q), o);
  }

  /** What the owner of `o` knows of it when request `q` is about to be served. */
  ghost function Before(bs: seq<Book>, q: Request, t: TickerId, o: Owner): View
    requires BooksOk(bs) && t < ME_MAX_TICKERS
  {
    if q.kind.New? && t == q.ticker && o == OwnerOf(q) then Open(q.side, q.qty) else LiveIn(bs[t].resting, o)
  }

  /** Whoever asks whatever: an order's owner is led by the responses to what the books then hold of it. */
  lemma HandleHears(bs: seq<Book>, q: Request, t: TickerId, o: Owner)
    requires BooksOk(bs) && t < ME_MAX_TICKERS
    requires o.client == q.client ==> Validate(q) == NoReason
    requires o == OwnerOf(q) && t == q.ticker ==> !Duplicate(bs[t], q)
    ensures var (bs', rs, _) := Handle(bs, q);
            |bs'| == ME_MAX_TICKERS && HearAll(Before(bs, q, t, o), rs, t, o) == LiveIn(bs'[t].resting, o)
  {
    hide BookInv, HistoryOk, LiveIn, Serve, HearAll, Duplicate;
    var v := Before(bs, q, t, o);
    if Validate(q) != NoReason {
      HearOne(v, Refusal(q), t, o);
    } else if t == q.ticker {
      ServeHears(bs[t], q, o, v);
    } else {
      ServeAddressed(bs[q.ticker], q);
      QuietHear(v, Serve(bs[q.ticker], q.ticker, q).responses, t, o);
    }
  }

  /** Nobody hears about an order that neither rests, nor ever did, nor is being served. */
  lemma HandleQuiet(bs: seq<Book>, q: Request, t: TickerId, o: Owner, v: View)
    requires BooksOk(bs) && t < ME_MAX_TICKERS && o !in bs[t].used && (o != OwnerOf(q) || t != q.ticker)
    ensures HearAll(v, Handle(bs, q).1, t, o) == v
  {
    hide BookInv, HistoryOk, LiveIn, Serve, HearAll;
    if Validate(q) != NoReason {
      HearOne(v, Refusal(q), t, o);
    } else {
      ServeAddressed(bs[q.ticker], q);
      QuietHear(v, Serve(bs[q.ticker], q.ticker, q).responses, t, o);
    }
  }

  /** Which orders a request's responses are about, and which it adds to the used ones. */
  lemma HandleAddressed(bs: seq<Book>, q: Request)
    requires BooksOk(bs)
    ensures var (bs', rs, _) := Handle(bs, q);
            && |bs'| == ME_MAX_TICKERS
            && (Validate(q) == NoReason ==> Addressed(rs, q.ticker, bs[q.ticker].used + {OwnerOf(q)}))
            && (Validate(q) != NoReason ==> forall i :: 0 <= i < |rs| ==> rs[i].client == q.client)
            && (forall t :: 0 <= t < ME_MAX_TICKERS ==>
                  bs'[t].used == bs[t].used
                  || (q.kind.New? && t == q.ticker && bs'[t].used == bs[t].used + {OwnerOf(q)}))
  {
    hide BookInv, HistoryOk, Serve;
    if Validate(q) == NoReason { ServeAddressed(bs[q.ticker], q); }
  }
}
