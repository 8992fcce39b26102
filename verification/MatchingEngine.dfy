/** `MatchingEngine`: eight books, one sequence of numbered responses, one sequence of market events. */
module MatchingEngines {
  import opened Types
  import opened PriceBooks
  import opened MatchSpec
  import opened MatchInvariants
  import opened OrderLife
  import opened EngineSpec
  import opened MEOrderBooks

  lemma {:induction false} StampMore(d: Outbox, rs: seq<Response>, r: Response)
    ensures StampAll(d, rs + [r]) == (Stamp(StampAll(d, rs).0, r).0, StampAll(d, rs).1 + [Stamp(StampAll(d, rs).0, r).1])
    decreases |rs|
  {
    hide Stamp;
    if rs == [] {
      assert rs + [r] == [r] && [r][1..] == [];
      assert StampAll(Stamp(d, r).0, []) == (Stamp(d, r).0, []);
      assert StampAll(d, [r]) == (Stamp(d, r).0, [Stamp(d, r).1] + []);
      assert StampAll(d, rs) == (d, []);
      assert [] + [Stamp(d, r).1] == [Stamp(d, r).1] + [];
    } else {
      assert (rs + [r])[1..] == rs[1..] + [r];
      StampMore(Stamp(d, rs[0]).0, rs[1..], r);
      var (d', first) := Stamp(d, rs[0]);
      assert StampAll(d, rs + [r]) == (StampAll(d', rs[1..] + [r]).0, [first] + StampAll(d', rs[1..] + [r]).1);
      assert StampAll(d, rs) == (StampAll(d', rs[1..]).0, [first] + StampAll(d', rs[1..]).1);
      var x := Stamp(StampAll(d, rs).0, r).1;
      assert [first] + (StampAll(d', rs[1..]).1 + [x]) == ([first] + StampAll(d', rs[1..]).1) + [x];
    }
  }

  lemma EmptyOk(t: TickerId)
    ensures BookInv(EMPTY_BOOK) && HistoryOk(EMPTY_BOOK, t)
  {
  }

  class MatchingEngine {
    const books: seq<MEOrderBook>
    ghost const state: set<object>
    var nextResponseId: nat
    var clientPositions: Positions

    /** What the order server and the market data publisher have been given. */
    var outgoingResponses: seq<Response>
    var outgoingUpdates: seq<Event>

    /** The books share nothing with each other or with the engine. */
    ghost predicate Apart() {
      && |books| == ME_MAX_TICKERS
      && this !in state
      && (forall i :: 0 <= i < |books| ==> books[i].tickerId == i && books[i].Repr() <= state)
      && (forall i, j :: 0 <= i < j < |books| ==> books[i].Repr() !! books[j].Repr())
    }

    ghost function BookAt(i: nat): Book
      requires Apart() && i < |books|
      reads state
    {
      books[i].Contents()
    }

    ghost predicate Valid()
      reads state
    {
      && Apart()
      && (forall i :: 0 <= i < |books| ==> books[i].Valid())
      && (forall i :: 0 <= i < |books| ==> BookInv(BookAt(i)) && HistoryOk(BookAt(i), i))
    }

    ghost function Books(): (r: seq<Book>)
      requires Apart()
      reads state
      ensures |r| == ME_MAX_TICKERS && forall i :: 0 <= i < ME_MAX_TICKERS ==> r[i] == BookAt(i)
    {
      [BookAt(0), BookAt(1), BookAt(2), BookAt(3), BookAt(4), BookAt(5), BookAt(6), BookAt(7)]
    }

    /** One empty book per ticker, sharing nothing. */
    static method NewBooks() returns (bs: seq<MEOrderBook>, ghost all: set<object>)
      ensures |bs| == ME_MAX_TICKERS && fresh(all)
      ensures forall i :: 0 <= i < |bs| ==> bs[i].tickerId == i && bs[i].Repr() <= all
      ensures forall i :: 0 <= i < |bs| ==> bs[i].Valid() && bs[i].Contents() == EMPTY_BOOK
      ensures forall i, j :: 0 <= i < j < |bs| ==> bs[i].Repr() !! bs[j].Repr()
    {
      hide MEOrderBook.Valid;
      bs, all := [], {};
      while |bs| < ME_MAX_TICKERS
        invariant |bs| <= ME_MAX_TICKERS && fresh(all)
        invariant forall i :: 0 <= i < |bs| ==> bs[i].tickerId == i && bs[i].Repr() <= all
        invariant forall i :: 0 <= i < |bs| ==> bs[i].Valid() && bs[i].Contents() == EMPTY_BOOK
        invariant forall i, j :: 0 <= i < j < |bs| ==> bs[i].Repr() !! bs[j].Repr()
      {
        var b := new MEOrderBook(|bs|);
        bs, all := bs + [b], all + b.Repr();
      }
    }

    constructor ()
      ensures Valid() && Books() == START.books && Outbox() == START.outbox
      ensures outgoingResponses == [] && outgoingUpdates == [] && fresh(state)
    {
      hide MEOrderBook.Valid, BookInv, HistoryOk;
      var bs: seq<MEOrderBook>;
      ghost var all: set<object>;
      bs, all := NewBooks();
      books, state := bs, all;
      nextResponseId, clientPositions, outgoingResponses, outgoingUpdates := 1, map[], [], [];
      new;
      forall i | 0 <= i < |books| ensures BookInv(BookAt(i)) && HistoryOk(BookAt(i), i) {
        EmptyOk(i);
        assert BookAt(i) == EMPTY_BOOK;
      }
    }

    function Outbox(): EngineSpec.Outbox
      reads this
    {
      EngineSpec.Outbox(nextResponseId, clientPositions)
    }

    /** Numbers a response, brings the client's position up to date and sends both. */
    method SendClientResponse(r: Response)
      modifies `nextResponseId, `clientPositions, `outgoingResponses
      ensures var (d, out) := Stamp(old(Outbox()), r);
              Outbox() == d && outgoingResponses == old(outgoingResponses) + [out]
    {
      var out := r.(responseId := nextResponseId);
      nextResponseId := nextResponseId + 1;
      if r.client < ME_MAX_NUM_CLIENTS && r.ticker < ME_MAX_TICKERS {
        var k := (r.client, r.ticker);
        var position := if k in clientPositions then clientPositions[k] else 0;
        if r.kind.Filled? { position := position + r.execQty * r.side.Value(); }
        clientPositions := clientPositions[k := position];
        out := out.(position := position);
      }
      outgoingResponses := outgoingResponses + [out];
    }

    /** Sends on what a book has given its response sink. */
    method SendAll(rs: seq<Response>)
      modifies `nextResponseId, `clientPositions, `outgoingResponses
      ensures var (d, out) := StampAll(old(Outbox()), rs);
              Outbox() == d && outgoingResponses == old(outgoingResponses) + out
    {
      hide Stamp;
      var i := 0;
      while i < |rs|
        invariant i <= |rs|
        invariant Outbox() == StampAll(old(Outbox()), rs[..i]).0
        invariant outgoingResponses == old(outgoingResponses) + StampAll(old(Outbox()), rs[..i]).1
      {
        StampMore(old(Outbox()), rs[..i], rs[i]);
        assert rs[..i + 1] == rs[..i] + [rs[i]];
        SendClientResponse(rs[i]);
        i := i + 1;
      }
      assert rs[..i] == rs;
    }

    /** Hands a valid request to one book. */
    static method ServeBook(b: MEOrderBook, q: Request)
      requires b.Valid() && Validate(q) == NoReason && q.ticker == b.tickerId
      modifies b.Repr()
      ensures b.Valid()
      ensures BookInv(old(b.Contents())) && BookInv(b.Contents())
      ensures var s := Serve(old(b.Contents()), q.ticker, q);
              && b.Contents() == s.book
              && b.responses == old(b.responses) + s.responses && b.events == old(b.events) + s.events
    {
      hide BookInv, AddOrder, CancelOf, QueryOf, MEOrderBook.Structure;
      match q.kind {
        case New => b.Add(OwnerOf(q), q.ticker, q.side, q.price, q.qty);
        case CancelOrder => b.Cancel(OwnerOf(q), q.ticker);
        case Query => b.Query(OwnerOf(q));
        case NoRequest =>
      }
    }

    /** A book's request changes that book and no other. */
    method Dispatch(q: Request)
      requires Valid() && Validate(q) == NoReason && q.ticker < ME_MAX_TICKERS
      modifies books[q.ticker].Repr()
      ensures Valid() && BooksOk(old(Books()))
      ensures var b := books[q.ticker]; var s := Serve(old(BookAt(q.ticker)), q.ticker, q);
              && Books() == old(Books())[q.ticker := s.book]
              && b.responses == old(b.responses) + s.responses && b.events == old(b.events) + s.events
    {
      hide MEOrderBook.Valid, BookInv, HistoryOk, Serve;
      ServeKeeps(BookAt(q.ticker), q);
      ServeBook(books[q.ticker], q);
      forall i | 0 <= i < |books| ensures books[i].Valid() && BookInv(BookAt(i)) && HistoryOk(BookAt(i), i) {
        if i != q.ticker {
          assert books[i].Repr() !! books[q.ticker].Repr();
          assert old(books[i].Valid()) && old(BookInv(BookAt(i))) && old(HistoryOk(BookAt(i), i));
          assert BookAt(i) == old(BookAt(i));
        }
      }
    }

    /** `processClientRequest`. */
    method ProcessClientRequest(q: Request)
      requires Valid()
      modifies this, state
      ensures Valid()
      ensures BooksOk(old(Books()))
      ensures var out := Process(Engine(old(Books()), old(Outbox())), q);
              && Books() == out.engine.books && Outbox() == out.engine.outbox
              && outgoingResponses == old(outgoingResponses) + out.responses
              && outgoingUpdates == old(outgoingUpdates) + out.events
    {
      hide MEOrderBook.Valid, BookInv, HistoryOk, Serve, Stamp, StampAll, MatchingEngine.Books, MatchingEngine.BookAt, Validate;
      var invalid := Validate(q);
      if invalid != NoReason {
        SendAll([Refusal(q)]);
        return;
      }
      ValidTicker(q);
      var b := books[q.ticker];
      var sent, told := |b.responses|, |b.events|;
      Dispatch(q);
      SendAll(b.responses[sent..]);
      outgoingUpdates := outgoingUpdates + b.events[told..];
    }
  }
}
