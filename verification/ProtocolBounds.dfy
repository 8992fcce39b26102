/**
 How much the client holds in any run of the protocol: the recovery caches stay within their limit and the
 queue within its capacity, so that a batch, once built, always fits an empty queue, and that no batch is ever
 built of a snapshot larger than the caches.
*/
module ProtocolBounds {
  import opened Types
  import opened PriceBooks
  import opened Replay
  import opened MarketStream
  import opened BookHashes
  import opened RecoverySpec
  import opened RecoveryProps
  import opened RecoveryComplete
  import opened SynthesizerSpec
  import opened Protocol

  ghost predicate Bounded(limit: nat, s: Sys) {
    && |s.consumer.rec.snapshot| + |s.consumer.rec.incremental| <= limit && |s.queue| <= ME_MAX_MARKET_UPDATES
    && s.consumer.rec.cycle <= s.lastCycle
  }

  lemma IngestCycle(r: Rec, snapshot: bool, u: Update, limit: nat)
    ensures var r' := Ingest(r, snapshot, u, limit).0; r'.cycle == r.cycle || (snapshot && r'.cycle == u.cycle)
  {
  }

  lemma BuildCaches(r: Rec)
    requires KeysOk(r)
    ensures Cached(Build(r).0) == Cached(r) && Build(r).0.cycle == r.cycle
  {
    hide Build;
  }

  lemma FrameCycle(stream: seq<Event>, s: Sys, u: Update)
    requires PublisherInv(stream, s) && GenuineSnapshot(World(stream, s.cycles), u)
    ensures u.cycle <= s.lastCycle
  {
    hide CycleFrames, GenuineStream;
  }

  lemma IngestStaysBounded(stream: seq<Event>, limit: nat, s: Sys, snapshot: bool, u: Update)
    requires Inv(stream, s) && Bounded(limit, s) && GenuineFrame(World(stream, s.cycles), snapshot, u)
    ensures KeysOk(s.consumer.rec) && Bounded(limit, IngestAndBuild(s, snapshot, u, limit))
  {
    hide Ingest, Build, GenuineSnapshot, GenuineIncrement, PublisherInv, BooksInv, GenerationInv, Cached;
    var v, r := World(stream, s.cycles), s.consumer.rec;
    IngestKeeps(v, r, snapshot, u, limit);
    IngestBounded(r, snapshot, u, limit);
    IngestCycle(r, snapshot, u, limit);
    BuildCaches(Ingest(r, snapshot, u, limit).0);
    if snapshot { FrameCycle(stream, s, u); }
  }

  lemma StaleBounded(limit: nat, s: Sys)
    requires Bounded(limit, s)
    ensures Bounded(limit, Stale(s))
  {
  }

  lemma ReceiveBounded(stream: seq<Event>, limit: nat, s: Sys, snapshot: bool, u: Update, full: bool)
    requires Inv(stream, s) && Bounded(limit, s) && Enabled(stream, s, Receive(snapshot, u, full))
    ensures Bounded(limit, Process(s, snapshot, u, full, limit))
  {
    var c := s.consumer;
    var (rec, next) := LiveCandidate(c.rec, u);
    hide Inv, IngestAndBuild, GenuineSnapshot, GenuineIncrement;
    if c.rec.recovering {
      IngestStaysBounded(stream, limit, s, snapshot, u);
    } else if !snapshot && (if next then full else rec.recovering) {
      FreshOk(stream, s);
      StaleBounded(limit, s);
      IngestStaysBounded(stream, limit, Stale(s), snapshot, u);
    }
  }

  /** Every step keeps the bounds. */
  lemma StepBounded(stream: seq<Event>, limit: nat, s: Sys, a: Step)
    requires Inv(stream, s) && Bounded(limit, s) && Enabled(stream, s, a)
    ensures Bounded(limit, Do(stream, limit, s, a))
  {
    hide Inv, Process, GenuineFrame;
    if a.Receive? { ReceiveBounded(stream, limit, s, a.snapshot, a.frame, a.full); }
  }

  lemma {:induction false} RunBounded(stream: seq<Event>, limit: nat, run: seq<Sys>, i: nat)
    requires GenuineStream(stream) && IsRun(stream, limit, run) && i < |run|
    ensures Bounded(limit, run[i])
    decreases i
  {
    hide Inv, Enabled, Do, Bounded;
    if i == 0 {
      var c: nat :| run[0] == Init(c);
      InitBounded(limit, c);
    } else {
      RunBounded(stream, limit, run, i - 1);
      RunInv(stream, limit, run, i - 1);
      assert Follows(stream, limit, run[i - 1], run[i]);
      var a :| Enabled(stream, run[i - 1], a) && run[i] == Do(stream, limit, run[i - 1], a);
      StepBounded(stream, limit, run[i - 1], a);
    }
  }

  lemma InitBounded(limit: nat, c: nat)
    ensures Bounded(limit, Init(c))
  {
  }

  // ------------------------------------------------------------------ batches and snapshots, measured

  lemma {:induction false} RangeHeld(m: map<nat, Update>, i: nat, j: nat)
    requires i <= j && forall k :: i < k <= j ==> k in m
    ensures j - i <= |m|
    decreases j - i
  {
    if i < j {
      var m' := m - {j};
      assert m'.Keys == m.Keys - {j};
      RangeHeld(m', i, j - 1);
    }
  }

  /** A batch is smaller than the caches it was built of. */
  lemma BatchFits(v: World, r: Rec, limit: nat)
    requires WorldOk(v) && RecInv(v, r) && Build(r).1.Some? && Cached(r) <= limit
    ensures |Build(r).1.value.events| + 2 <= limit && |CycleFrames(v, r.cycle)| <= limit
  {
    hide Build, CycleFrames, Body, GenuineSnapshot, GenuineIncrement, CycleHeld, GenuineStream;
    BuildIs(v, r);
    HeldExactly(v, r);
    MarkersAre(v, r.cycle);
    RangeHeld(r.incremental, Mark(v, r.cycle), Build(r).1.value.watermark);
  }

  function AtLeast(m: map<OrderId, Order>, i: nat): set<OrderId> { set id | id in m && id >= i }

  lemma AtLeastNext(m: map<OrderId, Order>, i: nat)
    requires forall id :: id in m ==> id < ME_MAX_ORDER_IDS
    ensures |AtLeast(m, i)| == if i in m then |AtLeast(m, i + 1)| + 1 else |AtLeast(m, i + 1)|
    ensures i >= ME_MAX_ORDER_IDS ==> |AtLeast(m, i)| == 0
  {
    assert AtLeast(m, i) == AtLeast(m, i + 1) + (if i in m then {i} else {});
    if i >= ME_MAX_ORDER_IDS { assert AtLeast(m, i) == {}; }
  }

  lemma {:induction false} LiveSize(t: TickerId, m: map<OrderId, Order>, i: nat)
    requires i <= ME_MAX_ORDER_IDS && forall id :: id in m ==> id < ME_MAX_ORDER_IDS
    ensures |LiveFrom(t, m, i)| == |AtLeast(m, i)|
    decreases ME_MAX_ORDER_IDS - i
  {
    hide LiveFrom, AtLeast;
    LiveNext(t, m, i);
    AtLeastNext(m, i);
    if i < ME_MAX_ORDER_IDS { LiveSize(t, m, i + 1); }
  }

  lemma {:induction false} SnapshotSize(os: OrdersByTicker, t: nat)
    requires t <= ME_MAX_TICKERS
    requires forall i :: 0 <= i < ME_MAX_TICKERS ==> forall id :: id in os[i] ==> id < ME_MAX_ORDER_IDS
    ensures |SnapshotFrom(os, t)| + LiveCount(os, t) + t == TotalLive(os) + ME_MAX_TICKERS
    decreases ME_MAX_TICKERS - t
  {
    hide LiveFrom, SnapshotFrom;
    SnapshotNext(os, t);
    if t < ME_MAX_TICKERS {
      LiveSize(t, os[t], 0);
      assert AtLeast(os[t], 0) == os[t].Keys;
      SnapshotSize(os, t + 1);
    }
  }

  /** The frames a snapshot of these books takes. */
  function SnapshotLength(bs: Books): (n: nat)
    ensures n >= ME_MAX_TICKERS + 2
  {
    TotalLive(OrdersOf(bs)) + ME_MAX_TICKERS + 2
  }

  /** A cycle has one frame for every live order, one for every ticker, and two markers. */
  lemma CycleSize(v: World, c: nat)
    requires WorldOk(v)
    ensures |CycleFrames(v, c)| == SnapshotLength(BooksAt(v.stream, Mark(v, c)))
  {
    hide CycleFrames, Mark, SnapshotFrom, BooksAt, TotalLive;
    MarkersAre(v, c);
    var bs := BooksAt(v.stream, Mark(v, c));
    StreamIndexed(v.stream, Mark(v, c));
    forall i | 0 <= i < ME_MAX_TICKERS ensures forall id :: id in OrdersOf(bs)[i] ==> id < ME_MAX_ORDER_IDS {
      assert Indexed(bs[i]);
    }
    SnapshotSize(OrdersOf(bs), 0);
    NoCount(OrdersOf(bs));
  }

  lemma NoCount(os: OrdersByTicker)
    ensures LiveCount(os, 0) == 0
  {
  }

  /** In every state of every run: a batch that waits fits the empty queue with room to spare, and it was built
      of a snapshot whose orders, tickers and markers fit the caches. */
  lemma CandidateFits(stream: seq<Event>, limit: nat, run: seq<Sys>, i: nat)
    requires GenuineStream(stream) && IsRun(stream, limit, run) && i < |run| && run[i].consumer.candidate.Some?
    ensures var s := run[i]; var v := World(stream, s.cycles);
            && |s.consumer.candidate.value| < limit
            && SnapshotLength(BooksAt(stream, Mark(v, s.consumer.rec.cycle))) <= limit
  {
    hide IsRun, Build, BooksInv, GenerationInv, RecInv, CycleFrames, SnapshotLength, BooksAt, Mark, GenuineStream;
    var s := run[i];
    RunInv(stream, limit, run, i);
    RunBounded(stream, limit, run, i);
    BatchFits(World(stream, s.cycles), s.consumer.rec, limit);
    CycleSize(World(stream, s.cycles), s.consumer.rec.cycle);
  }
}
