/** The market side of `TradeEngine`: the loop that applies the queue to eight client books. */
module MarketSides {
  import opened Types
  import opened PriceBooks
  import opened Replay
  import opened MarketStream
  import opened Protocol
  import opened MarketOrderBooks
  import opened MarketDataConsumers
  import opened LFQueues
  import opened Cursors

  /** One turn of the loop: a marker is compared and, if current, declared applied; an event is applied, or
      else the generation is bumped. */
  function Turn(s: Sys): Sys
    requires s.queue != []
  {
    var e := s.queue[0];
    if e.kind.RecoveryCommit? then
      s.(applied := if e.priority == s.generation then e.priority else s.applied, queue := s.queue[1..])
    else if Accepts(s, e) then s.(books := EffectOn(s.books, e), queue := s.queue[1..])
    else s.(generation := s.generation + 1, queue := s.queue[1..])
  }

  /** The protocol's steps a turn is made of. */
  function StepsOf(s: Sys): (Step, Option<Step>)
    requires s.queue != []
  {
    var e := s.queue[0];
    if e.kind.RecoveryCommit? then (LoadGeneration, if e.priority == s.generation then Some(StoreApplied) else None)
    else if Accepts(s, e) then (ApplyEvent, None)
    else (RejectEvent, Some(BumpGeneration))
  }

  /** A turn is made of the protocol's steps, when no other thread comes between. */
  lemma TurnIsSteps(stream: seq<Event>, limit: nat, s: Sys)
    requires s.queue != [] && s.pc == Polling
    ensures var (a, b) := StepsOf(s);
            Enabled(stream, s, a) &&
            var t := Do(stream, limit, s, a);
            if b.None? then t == Turn(s) else Enabled(stream, t, b.value) && Do(stream, limit, t, b.value) == Turn(s)
  {
    hide EffectOn;
  }

  class MarketSide {
    const books: seq<MarketOrderBook>
    ghost const state: set<object>
    const incoming: LFQueue<Event>
    const generation: Generation
    var applied: nat

    ghost predicate Apart() {
      && |books| == ME_MAX_TICKERS
      && this !in state && incoming !in state && incoming.store !in state && generation !in state
      && this as object != incoming && this as object != generation && incoming as object != generation
      && (forall i :: 0 <= i < |books| ==> books[i].tickerId == i && books[i].Repr() <= state)
      && (forall i, j :: 0 <= i < j < |books| ==> books[i].Repr() !! books[j].Repr())
    }

    ghost function BookAt(i: nat): PriceBook
      requires Apart() && i < |books|
      reads state
    {
      books[i].Contents()
    }

    ghost predicate Valid()
      reads state, incoming, incoming.store
    {
      Apart() && incoming.Valid() && forall i :: 0 <= i < |books| ==> books[i].Valid()
    }

    ghost function ClientBooks(): (r: Books)
      requires Apart()
      reads state
      ensures forall i :: 0 <= i < ME_MAX_TICKERS ==> r[i] == BookAt(i)
    {
      [BookAt(0), BookAt(1), BookAt(2), BookAt(3), BookAt(4), BookAt(5), BookAt(6), BookAt(7)]
    }

    /** A state of the whole system with this thread's part in it. */
    ghost function View(s: Sys): Sys
      requires Apart() && incoming.Valid()
      reads this, state, incoming, incoming.store, generation
    {
      s.(books := ClientBooks(), queue := incoming.Contents(), generation := generation.value, applied := applied)
    }

    /** One empty book per ticker, sharing nothing. */
    static method NewBooks() returns (bs: seq<MarketOrderBook>, ghost all: set<object>)
      ensures |bs| == ME_MAX_TICKERS && fresh(all)
      ensures forall i :: 0 <= i < |bs| ==> bs[i].tickerId == i && bs[i].Repr() <= all
      ensures forall i :: 0 <= i < |bs| ==> bs[i].Valid() && bs[i].Contents() == EMPTY
      ensures forall i, j :: 0 <= i < j < |bs| ==> bs[i].Repr() !! bs[j].Repr()
    {
      hide MarketOrderBook.Valid;
      bs, all := [], {};
      while |bs| < ME_MAX_TICKERS
        invariant |bs| <= ME_MAX_TICKERS && fresh(all)
        invariant forall i :: 0 <= i < |bs| ==> bs[i].tickerId == i && bs[i].Repr() <= all
        invariant forall i :: 0 <= i < |bs| ==> bs[i].Valid() && bs[i].Contents() == EMPTY
        invariant forall i, j :: 0 <= i < j < |bs| ==> bs[i].Repr() !! bs[j].Repr()
      {
        var b := new MarketOrderBook(|bs|);
        bs, all := bs + [b], all + b.Repr();
      }
    }

    /** Generation one, nothing applied. */
    constructor (incoming: LFQueue<Event>)
      requires incoming.Valid()
      ensures Valid() && this.incoming == incoming && generation.value == 1 && applied == 0
      ensures ClientBooks() == EMPTY_BOOKS && fresh(generation) && fresh(state)
    {
      hide MarketOrderBook.Valid, LFQueue.SlotHolds, Cursor;
      this.incoming := incoming;
      var bs: seq<MarketOrderBook>;
      ghost var all: set<object>;
      bs, all := NewBooks();
      var g := new Generation(1);
      books, state, generation, applied := bs, all, g, 0;
      new;
      assert forall i :: 0 <= i < ME_MAX_TICKERS ==> BookAt(i) == EMPTY;
    }

    /** `marketReady`. */
    method MarketReady() returns (ready: bool)
      ensures ready == (applied == generation.value)
    {
      var was := applied;
      ready := was == generation.value;
    }

    method ApplyTo(e: Event) returns (ok: bool)
      requires Valid() && e.ticker < ME_MAX_TICKERS
      modifies books[e.ticker].Repr()
      ensures Valid()
      ensures ok == ClientAccepts(old(BookAt(e.ticker)), e.ticker, e)
      ensures ClientBooks() == if ok then EffectOn(old(ClientBooks()), e) else old(ClientBooks())
    {
      hide MarketOrderBook.Valid, ClientAccepts, Effect, LFQueue.Valid, MarketSide.ClientBooks;
      ok := books[e.ticker].OnMarketUpdate(e);
      forall i | 0 <= i < |books| && i != e.ticker ensures books[i].Valid() && BookAt(i) == old(BookAt(i)) {
        assert books[i].Repr() !! books[e.ticker].Repr();
        assert old(books[i].Valid());
      }
      assert ClientBooks() == old(ClientBooks())[e.ticker := BookAt(e.ticker)];
    }

    /** One turn of the loop; an event of no known ticker stops the program. */
    method HandleNext(ghost s: Sys)
      requires Valid() && View(s) == s && incoming.Contents() != []
      requires incoming.Contents()[0].kind.RecoveryCommit? || incoming.Contents()[0].ticker < ME_MAX_TICKERS
      modifies this, state, incoming, generation
      ensures Valid() && View(s) == Turn(s)
    {
      hide MarketOrderBook.Valid, ClientAccepts, EffectOn, LFQueue.SlotHolds, Cursor, MarketSide.ClientBooks;
      var next := incoming.Peek();
      var e := next.value;
      if e.kind.RecoveryCommit? {
        if e.priority == generation.value { applied := e.priority; }
        incoming.Pop();
        return;
      }
      var ok := ApplyTo(e);
      if !ok {
        var g := generation.FetchAdd();
      }
      incoming.Pop();
    }
  }
}
