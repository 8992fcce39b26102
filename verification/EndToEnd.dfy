/** From the matching engine to the strategy: the books a ready client holds are the exchange's own. */
module EndToEnd {
  import opened Types
  import opened MatchSpec
  import opened EngineSpec
  import opened EngineRuns
  import opened MarketStream
  import opened Protocol

  lemma {:induction false} EventsOnlyGrow(qs: seq<Request>, j: nat)
    requires j <= |qs|
    ensures Run(qs[..j]).events <= Run(qs).events
    decreases |qs|
  {
    if j == |qs| {
      assert qs[..j] == qs;
    } else {
      hide BooksOk, EngineSpec.Process;
      EventsOnlyGrow(qs[..|qs| - 1], j);
      assert qs[..|qs| - 1][..j] == qs[..j];
    }
  }

  /** Between requests the stream stands exactly for the exchange's books. */
  lemma RequestBoundary(qs: seq<Request>, j: nat)
    requires j <= |qs|
    ensures Run(qs[..j]).events <= Run(qs).events
    ensures BooksAt(Run(qs).events, |Run(qs[..j]).events|) == PublicBooks(Run(qs[..j]).engine.books)
  {
    hide Run, PublicBooks, BooksAt, BooksOk;
    EventsOnlyGrow(qs, j);
    EventsRebuildTheBooks(qs[..j]);
    var part, all := Run(qs[..j]).events, Run(qs).events;
    PrefixBooks(part, all[|part|..], |part|);
    assert part + all[|part|..] == all;
  }

  /** Whatever the clients of the exchange ask, whatever the network loses, repeats and reorders, and however
      the client's threads interleave: when the client's market is ready, its books are what the events sent so
      far, up to one of them, had made of the exchange's books; and when that event ends a request, they are the
      exchange's books after that request. */
  lemma ReadyBooksAreTheExchanges(qs: seq<Request>, limit: nat, run: seq<Sys>, i: nat, j: nat)
    requires IsRun(Run(qs).events, limit, run) && i <= j < |run| && run[i].applied == run[j].generation
    ensures exists k: nat ::
              && k <= run[j].numbered && k <= |Run(qs).events| && run[j].books == BooksAt(Run(qs).events, k)
              && forall n :: 0 <= n <= |qs| && |Run(qs[..n]).events| == k
                             ==> run[j].books == PublicBooks(Run(qs[..n]).engine.books)
  {
    hide Run, PublicBooks, IsRun, BooksAt, BooksOk;
    EventsRebuildTheBooks(qs);
    MarketReadyMeansExact(Run(qs).events, limit, run, i, j);
    var k: nat :| k <= run[j].numbered && k <= |Run(qs).events| && run[j].books == BooksAt(Run(qs).events, k);
    forall n | 0 <= n <= |qs| && |Run(qs[..n]).events| == k
      ensures run[j].books == PublicBooks(Run(qs[..n]).engine.books)
    {
      RequestBoundary(qs, n);
    }
  }
}
