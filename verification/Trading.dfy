/**
 Market data and orders together: one client, whose market side follows the events of the exchange that its orders
 go to. `sendClientRequest` reads the two generation counters one after the other, and threads of either side may
 come between; when it lets a new order out, the books behind the decision were the exchange's.
*/
module Trading {
  import opened Types
  import opened MatchSpec
  import opened EngineSpec
  import opened EngineRuns
  import opened EndToEnd
  import opened MarketStream
  import opened RiskSpec
  import opened TradeOrders
  import opened SendGates
  import Protocol
  import RoundTrip

  /** The market side, the order side, the applied generation if it has just been read, and how many requests the
      exchange has served. */
  datatype Joint = Joint(market: Protocol.Sys, trip: RoundTrip.Trip, read: Option<nat>, served: nat)

  datatype JointStep =
    | MarketStep(a: Protocol.Step)
    | OrderStep(b: RoundTrip.Step)
    | ReadApplied

  function Start(c: ClientId, firstCycle: nat): Joint {
    Joint(Protocol.Init(firstCycle), RoundTrip.Begin(c), None, 0)
  }

  /** The requests that the exchange serves, in their order, and the events of all of them; a submission compares the
      generation read before with the current one. */
  ghost predicate Enabled(qs: seq<Request>, limits: seq<Limits>, s: Joint, a: JointStep) {
    s.served <= |qs| && RoundTrip.Typed(s.trip, limits) &&
    match a
    case MarketStep(m) =>
      && Protocol.Enabled(Run(qs).events, s.market, m)
      && (m.NumberEvent? ==> s.market.numbered < |Run(qs[..s.served]).events|)
    case OrderStep(b) =>
      && RoundTrip.Enabled(s.trip, b)
      && (match b
          case Submit(q, x) => s.read.Some? && x.ready == (s.read.value == s.market.generation)
          case Arrive => s.served < |qs| && qs[s.served] == s.trip.up[0]
          case Other(q) => s.served < |qs| && qs[s.served] == q
          case Deliver => true)
    case ReadApplied => true
  }

  ghost function Do(qs: seq<Request>, limits: seq<Limits>, limit: nat, s: Joint, a: JointStep): Joint
    requires Enabled(qs, limits, s, a)
  {
    match a
    case MarketStep(m) => s.(market := Protocol.Do(Run(qs).events, limit, s.market, m))
    case OrderStep(b) =>
      Joint(s.market, RoundTrip.Do(s.trip, limits, b), if b.Submit? then None else s.read,
            if b.Arrive? || b.Other? then s.served + 1 else s.served)
    case ReadApplied => s.(read := Some(s.market.applied))
  }

  ghost predicate Follows(qs: seq<Request>, limits: seq<Limits>, limit: nat, s: Joint, s': Joint) {
    exists a :: Enabled(qs, limits, s, a) && s' == Do(qs, limits, limit, s, a)
  }

  ghost predicate IsRun(qs: seq<Request>, limits: seq<Limits>, limit: nat, c: ClientId, run: seq<Joint>) {
    && run != [] && (exists n: nat :: run[0] == Start(c, n))
    && forall i :: 0 <= i < |run| - 1 ==> Follows(qs, limits, limit, run[i], run[i + 1])
  }

  ghost predicate Inv(qs: seq<Request>, limits: seq<Limits>, s: Joint) {
    && s.served <= |qs|
    && Protocol.Inv(Run(qs).events, s.market) && RoundTrip.Inv(s.trip, limits)
    && s.trip.engine == Run(qs[..s.served]).engine && s.market.numbered <= |Run(qs[..s.served]).events|
    && (s.read.Some? ==> s.read.value <= s.market.applied)
  }

  lemma StartInv(qs: seq<Request>, limits: seq<Limits>, c: ClientId, n: nat)
    requires c < ME_MAX_NUM_CLIENTS && RoundTrip.Configured(limits)
    ensures Inv(qs, limits, Start(c, n))
  {
    hide Protocol.Inv, RoundTrip.Inv, RoundTrip.Configured, GenuineStream;
    EventsRebuildTheBooks(qs);
    Protocol.InitInv(Run(qs).events, n);
    RoundTrip.BeginInv(c, limits);
    assert qs[..0] == [];
  }

  /** One more request served. */
  lemma ServedRun(qs: seq<Request>, n: nat)
    requires n < |qs|
    ensures Run(qs[..n + 1]).engine == EngineSpec.Process(Run(qs[..n]).engine, qs[n]).engine
    ensures |Run(qs[..n]).events| <= |Run(qs[..n + 1]).events|
  {
    hide BooksOk, Handle, StampAll;
    assert qs[..n + 1][..n] == qs[..n] && qs[..n + 1][n] == qs[n];
  }

  lemma MarketKeeps(qs: seq<Request>, limits: seq<Limits>, limit: nat, s: Joint, m: Protocol.Step)
    requires Inv(qs, limits, s) && Enabled(qs, limits, s, MarketStep(m))
    ensures Inv(qs, limits, Do(qs, limits, limit, s, MarketStep(m)))
  {
    hide Protocol.Inv, RoundTrip.Inv, Run, Protocol.Enabled, Protocol.Do, RoundTrip.Typed;
    Protocol.StepKeeps(Run(qs).events, limit, s.market, m);
    Protocol.CountersGrow(Run(qs).events, limit, s.market, m);
    NumberedOnlyBy(Run(qs).events, limit, s.market, m);
  }

  lemma NumberedOnlyBy(stream: seq<Event>, limit: nat, s: Protocol.Sys, m: Protocol.Step)
    requires Protocol.Enabled(stream, s, m)
    ensures Protocol.Do(stream, limit, s, m).numbered == s.numbered + if m.NumberEvent? then 1 else 0
  {
    hide EffectOn, Protocol.Accepts;
  }

  lemma OrderKeeps(qs: seq<Request>, limits: seq<Limits>, limit: nat, s: Joint, b: RoundTrip.Step)
    requires Inv(qs, limits, s) && Enabled(qs, limits, s, OrderStep(b))
    ensures Inv(qs, limits, Do(qs, limits, limit, s, OrderStep(b)))
  {
    hide Protocol.Inv, RoundTrip.Inv, Run, BooksOk, Send, OnOrderUpdate, RoundTrip.Disciplined, EngineSpec.Process;
    RoundTrip.StepKeeps(s.trip, limits, b);
    if b.Arrive? || b.Other? { ServedRun(qs, s.served); }
  }

  lemma StepKeeps(qs: seq<Request>, limits: seq<Limits>, limit: nat, s: Joint, a: JointStep)
    requires Inv(qs, limits, s) && Enabled(qs, limits, s, a)
    ensures Inv(qs, limits, Do(qs, limits, limit, s, a))
  {
    match a
    case MarketStep(m) => MarketKeeps(qs, limits, limit, s, m);
    case OrderStep(b) => OrderKeeps(qs, limits, limit, s, b);
    case ReadApplied => hide Protocol.Inv, RoundTrip.Inv, Run;
  }

  lemma {:induction false} RunInv(qs: seq<Request>, limits: seq<Limits>, limit: nat, c: ClientId, run: seq<Joint>, i: nat)
    requires c < ME_MAX_NUM_CLIENTS && RoundTrip.Configured(limits) && IsRun(qs, limits, limit, c, run) && i < |run|
    ensures Inv(qs, limits, run[i])
  {
    hide Inv, Enabled, Do, RoundTrip.Configured;
    if i == 0 {
      var n: nat :| run[0] == Start(c, n);
      StartInv(qs, limits, c, n);
    } else {
      RunInv(qs, limits, limit, c, run, i - 1);
      assert Follows(qs, limits, limit, run[i - 1], run[i]);
      var a :| Enabled(qs, limits, run[i - 1], a) && run[i] == Do(qs, limits, limit, run[i - 1], a);
      StepKeeps(qs, limits, limit, run[i - 1], a);
    }
  }

  /** The books are those that some events already sent had made of the exchange's; when the last of them ended a
      request, they are the exchange's books after it. */
  ghost predicate BooksAreTheExchanges(qs: seq<Request>, s: Joint) {
    exists k: nat ::
      && k <= s.market.numbered && k <= |Run(qs).events| && s.market.books == BooksAt(Run(qs).events, k)
      && forall n :: 0 <= n <= |qs| && |Run(qs[..n]).events| == k ==> s.market.books == PublicBooks(Run(qs[..n]).engine.books)
  }

  lemma ExactAreTheExchanges(qs: seq<Request>, s: Joint)
    requires Protocol.Exact(Run(qs).events, s.market)
    ensures BooksAreTheExchanges(qs, s)
  {
    hide Run, PublicBooks, BooksAt;
    var k: nat :| k <= s.market.numbered && k <= |Run(qs).events| && s.market.books == BooksAt(Run(qs).events, k);
    forall n | 0 <= n <= |qs| && |Run(qs[..n]).events| == k
      ensures s.market.books == PublicBooks(Run(qs[..n]).engine.books)
    {
      RequestBoundary(qs, n);
    }
  }

  /** What the whole client promises. In every run of exchange, network and client together, whenever a new order is
      put on its way: the client is reconciled, its session is up and it is admitting; the order is well formed and
      within every limit; and the books the decision was made on are the exchange's, at a point the exchange had
      announced by then. */
  lemma NewOrdersSeeExactBooks(qs: seq<Request>, limits: seq<Limits>, limit: nat, c: ClientId, run: seq<Joint>, i: nat,
                               q: Request, x: Chance)
    requires c < ME_MAX_NUM_CLIENTS && RoundTrip.Configured(limits) && IsRun(qs, limits, limit, c, run) && i < |run|
    requires Enabled(qs, limits, run[i], OrderStep(RoundTrip.Submit(q, x))) && q.kind.New?
    requires Do(qs, limits, limit, run[i], OrderStep(RoundTrip.Submit(q, x))).trip.up != run[i].trip.up
    ensures var s := run[i];
            && WellFormed(q) && s.trip.client.reconciled && x.session && x.admitting
            && Affordable(s.trip.client.account, limits[q.ticker], x.totalPnl, q)
            && BooksAreTheExchanges(qs, s)
  {
    hide IsRun, Run, Send, Affordable, WellFormed, AccountInv, Protocol.PublisherInv, Protocol.ConsumerInv,
         Protocol.BooksInv, Protocol.Exact, BooksAreTheExchanges, RoundTrip.Configured, BooksOk;
    RunInv(qs, limits, limit, c, run, i);
    var s := run[i];
    SentExactlyWhen(s.trip.client, limits, q, x);
    Protocol.ReadyMeansExact(Run(qs).events, s.market);
    ExactAreTheExchanges(qs, s);
  }
}
