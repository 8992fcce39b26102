/**
 Snapshot and incremental recovery as one concurrent system: the publisher and the snapshot synthesizer
 of the exchange, a network that loses, repeats and reorders frames, the market data consumer and the
 trade engine of a client, the queue between them, and the generation counter both of them bump. A step
 changes what other threads can see once; `ProtocolFine` takes the accesses of a step apart.
*/
module Protocol {
  import opened Types
  import opened PriceBooks
  import opened Replay
  import opened MarketStream
  import opened BookHashes
  import opened RecoverySpec
  import opened RecoveryProps

  /** Where the engine thread stands: about to poll, about to store a generation, about to bump it. */
  datatype Pc = Polling | Storing(applied: nat) | Bumping

  /** The receiving thread: recovery state, the generation it works for, the batch waiting for room. */
  datatype Consumer = Consumer(rec: Rec, observed: nat, candidate: Option<seq<Event>>)

  datatype Sys = Sys(
    /** Events numbered and multicast (`next_inc_seq_num_ - 1`), and those the synthesizer has applied. */
    numbered: nat, snapshotted: nat,
    /** The last cycle number, and every published cycle's watermark. */
    lastCycle: nat, cycles: map<nat, nat>,
    consumer: Consumer,
    /** The queue to the engine, and the two generation counters. */
    queue: seq<Event>, generation: nat, applied: nat,
    /** The engine's books and program counter. */
    books: Books, pc: Pc)

  /** The consumer's constructor has bumped the generation once. */
  function Init(firstCycle: nat): Sys {
    Sys(0, 0, firstCycle, map[], Consumer(INITIAL, 2, None), [], 2, 0, EMPTY_BOOKS, Polling)
  }

  /** `RECOVERY_COMMIT`, carrying the batch's watermark and the generation it recovers. */
  function CommitMarker(watermark: nat, generation: nat): Event {
    Event(RecoveryCommit, watermark, TICKER_ID_INVALID, Invalid, PRICE_INVALID, QTY_INVALID, generation)
  }

  // ------------------------------------------------------------------ the exchange's moves

  /** The publisher numbers the next event, sends it and forwards it. */
  function Sent(s: Sys): Sys { s.(numbered := s.numbered + 1) }

  /** The synthesizer applies the next event to its orders. */
  function Synthesized(s: Sys): Sys { s.(snapshotted := s.snapshotted + 1) }

  /** A new cycle is taken of what the synthesizer holds. */
  function CyclePublished(s: Sys): Sys {
    s.(lastCycle := s.lastCycle + 1, cycles := s.cycles[s.lastCycle + 1 := s.snapshotted])
  }

  // ------------------------------------------------------------------ the consumer's moves

  /** `stale`: a new generation; the engine's books no longer count. */
  function Stale(s: Sys): Sys {
    s.(generation := s.generation + 1,
       consumer := Consumer(Restart(s.consumer.rec), s.generation + 1, None))
  }

  /** The end of `process`: cache the frame and look for a batch. */
  ghost function IngestAndBuild(s: Sys, snapshot: bool, u: Update, limit: nat): Sys
    requires KeysOk(s.consumer.rec)
  {
    var c := s.consumer;
    var (rec, b) := Build(Ingest(c.rec, snapshot, u, limit).0);
    s.(consumer := c.(rec := rec,
                      candidate := match b case None => None
                                   case Some(batch) => Some(batch.events + [CommitMarker(batch.watermark, c.observed)])))
  }

  /** `receive` and `process` for one frame; `full` says that the queue has no room. */
  ghost function Process(s: Sys, snapshot: bool, u: Update, full: bool, limit: nat): Sys
    requires KeysOk(s.consumer.rec)
  {
    var c := s.consumer;
    if c.rec.recovering then IngestAndBuild(s, snapshot, u, limit)
    else if snapshot then s
    else
      var (rec, next) := LiveCandidate(c.rec, u);
      if next && !full then s.(consumer := c.(rec := CommitLive(rec)), queue := s.queue + [u.event])
      else if !next && !rec.recovering then s
      else IngestAndBuild(Stale(s), snapshot, u, limit)
  }

  /** `publishRecovery`, when the whole batch fits. */
  function PublishRecovery(s: Sys): Sys
    requires s.consumer.candidate.Some? && s.consumer.candidate.value != []
  {
    var batch := s.consumer.candidate.value;
    s.(queue := s.queue + batch,
       consumer := s.consumer.(rec := Commit(s.consumer.rec, Batch([], batch[|batch| - 1].orderId)),
                               candidate := None))
  }

  // ------------------------------------------------------------------ steps

  datatype Step =
    | NumberEvent                                            // publisher: number, multicast, forward
    | ApplyToSnapshot                                        // synthesizer: apply the next event
    | PublishSnapshot                                        // synthesizer: publish a cycle
    | Fault                                                  // consumer: unusable datagram
    | Resync                                                 // consumer: notices the engine's bump
    | Receive(snapshot: bool, frame: Update, full: bool)     // consumer: one genuine frame
    | Admit                                                  // consumer: the batch enters the queue
    | ApplyEvent                                             // engine: applies the event in front
    | RejectEvent                                            // engine: the event in front does not apply
    | BumpGeneration                                         // engine: ... so the books no longer count
    | LoadGeneration                                         // engine: compares a marker's generation
    | StoreApplied                                           // engine: declares the generation applied

  predicate Accepts(s: Sys, e: Event) {
    e.ticker < ME_MAX_TICKERS && ClientAccepts(s.books[e.ticker], e.ticker, e)
  }

  ghost predicate Enabled(stream: seq<Event>, s: Sys, a: Step) {
    match a
    case NumberEvent => s.numbered < |stream|
    case ApplyToSnapshot => s.snapshotted < s.numbered
    case PublishSnapshot => true
    case Fault => true
    case Resync => s.generation != s.consumer.observed
    case Receive(snapshot, u, full) =>
      && KeysOk(s.consumer.rec)
      && GenuineFrame(World(stream, s.cycles), snapshot, u) && (!snapshot ==> u.seqNum <= s.numbered)
      && (!full ==> |s.queue| < ME_MAX_MARKET_UPDATES)
    case Admit =>
      && s.consumer.candidate.Some? && s.consumer.candidate.value != []
      && |s.queue| + |s.consumer.candidate.value| <= ME_MAX_MARKET_UPDATES
    case ApplyEvent => s.pc.Polling? && s.queue != [] && !s.queue[0].kind.RecoveryCommit? && Accepts(s, s.queue[0])
    case RejectEvent => s.pc.Polling? && s.queue != [] && !s.queue[0].kind.RecoveryCommit? && !Accepts(s, s.queue[0])
    case BumpGeneration => s.pc.Bumping? && s.queue != []
    case LoadGeneration => s.pc.Polling? && s.queue != [] && s.queue[0].kind.RecoveryCommit?
    case StoreApplied => s.pc.Storing? && s.queue != []
  }

  ghost function Do(stream: seq<Event>, limit: nat, s: Sys, a: Step): Sys
    requires Enabled(stream, s, a)
  {
    match a
    case NumberEvent => Sent(s)
    case ApplyToSnapshot => Synthesized(s)
    case PublishSnapshot => CyclePublished(s)
    case Fault => Stale(s)
    case Resync => s.(consumer := Consumer(Restart(s.consumer.rec), s.generation, None))
    case Receive(snapshot, u, full) => Process(s, snapshot, u, full, limit)
    case Admit => PublishRecovery(s)
    case ApplyEvent => s.(books := EffectOn(s.books, s.queue[0]), queue := s.queue[1..])
    case RejectEvent => s.(pc := Bumping)
    case BumpGeneration => s.(generation := s.generation + 1, queue := s.queue[1..], pc := Polling)
    case LoadGeneration =>
      if s.queue[0].priority == s.generation then s.(pc := Storing(s.queue[0].priority))
      else s.(queue := s.queue[1..])
    case StoreApplied => s.(applied := s.pc.applied, queue := s.queue[1..], pc := Polling)
  }

  /** `marketReady`, both counters read at once. */
  predicate Ready(s: Sys) { s.applied == s.generation }

  // ------------------------------------------------------------------ invariant

  /** Applying a stretch of the queue: none once an event does not apply; markers do nothing. */
  function RunQueue(bs: Books, es: seq<Event>): Option<Books>
    decreases |es|
  {
    if es == [] then Some(bs)
    else if es[0].kind.RecoveryCommit? then RunQueue(bs, es[1..])
    else if es[0].ticker < ME_MAX_TICKERS && ClientAccepts(bs[es[0].ticker], es[0].ticker, es[0])
      then RunQueue(EffectOn(bs, es[0]), es[1..])
    else None
  }

  predicate IsMarker(e: Event) { e.kind.RecoveryCommit? }

  ghost predicate PublisherInv(stream: seq<Event>, s: Sys) {
    && GenuineStream(stream)
    && s.snapshotted <= s.numbered <= |stream|
    && (forall c :: c in s.cycles ==> 0 < c <= s.lastCycle && s.cycles[c] <= s.snapshotted)
  }

  ghost predicate ConsumerInv(stream: seq<Event>, s: Sys) {
    var c := s.consumer;
    && RecInv(World(stream, s.cycles), c.rec)
    && (forall k :: k in c.rec.incremental ==> k <= s.numbered)
    && c.rec.expected <= s.numbered + 1
    && (c.candidate.Some? ==>
          && c.rec.recovering && Build(c.rec).1.Some?
          && c.candidate.value == Build(c.rec).1.value.events + [CommitMarker(Build(c.rec).1.value.watermark, c.observed)])
  }

  /** Generations only grow, along the queue too. */
  ghost predicate GenerationInv(s: Sys) {
    && s.applied <= s.consumer.observed <= s.generation
    && (forall i :: 0 <= i < |s.queue| && IsMarker(s.queue[i]) ==>
          s.applied < s.queue[i].priority <= s.consumer.observed)
    && (forall i, j :: 0 <= i < j < |s.queue| && IsMarker(s.queue[i]) && IsMarker(s.queue[j]) ==>
          s.queue[i].priority < s.queue[j].priority)
    && (s.consumer.rec.recovering ==>
          && s.applied < s.consumer.observed
          && forall i :: 0 <= i < |s.queue| && IsMarker(s.queue[i]) ==> s.queue[i].priority < s.consumer.observed)
    && (s.pc.Storing? ==> s.queue != [] && IsMarker(s.queue[0]) && s.queue[0].priority == s.pc.applied)
    && (s.pc.Bumping? ==> s.queue != [] && !IsMarker(s.queue[0]))
  }

  /** The batch of the current generation is in the queue up to its marker at `i`: if everything before
      the marker applies, the books are the exchange state at its watermark; the stream follows. */
  ghost predicate PendingAt(stream: seq<Event>, s: Sys, i: nat) {
    && i < |s.queue| && IsMarker(s.queue[i]) && s.queue[i].priority == s.consumer.observed
    && s.queue[i].orderId < s.consumer.rec.expected <= |stream| + 1
    && s.queue[i + 1..] == stream[s.queue[i].orderId..s.consumer.rec.expected - 1]
    && (RunQueue(s.books, s.queue[..i]).Some? ==>
          RunQueue(s.books, s.queue[..i]).value == BooksAt(stream, s.queue[i].orderId))
  }

  /** The books are the exchange state after `k` events and the queue holds the next ones. */
  ghost predicate CurrentAt(stream: seq<Event>, s: Sys, k: nat) {
    && k < s.consumer.rec.expected <= |stream| + 1
    && s.books == BooksAt(stream, k)
    && s.queue == stream[k..s.consumer.rec.expected - 1]
  }

  ghost predicate BooksInv(stream: seq<Event>, s: Sys) {
    !s.consumer.rec.recovering && s.generation == s.consumer.observed ==>
      if s.applied < s.consumer.observed then exists i :: PendingAt(stream, s, i)
      else exists k :: CurrentAt(stream, s, k)
  }

  ghost predicate Inv(stream: seq<Event>, s: Sys) {
    PublisherInv(stream, s) && ConsumerInv(stream, s) && GenerationInv(s) && BooksInv(stream, s)
  }

  /** The books are an exact exchange state, among those already emitted. */
  ghost predicate Exact(stream: seq<Event>, s: Sys) {
    exists k: nat :: k <= s.numbered && k <= |stream| && s.books == BooksAt(stream, k)
  }

  /** Whenever the market is ready the books are exact. */
  lemma ReadyMeansExact(stream: seq<Event>, s: Sys)
    requires Inv(stream, s) && Ready(s)
    ensures Exact(stream, s)
  {
    hide PublisherInv, PendingAt, RecInv, Build, BooksAt;
    var k: nat :| CurrentAt(stream, s, k);
    assert k <= s.numbered && s.books == BooksAt(stream, k);
  }

  lemma InitInv(stream: seq<Event>, firstCycle: nat)
    requires GenuineStream(stream)
    ensures Inv(stream, Init(firstCycle))
  {
  }

  // ------------------------------------------------------------------ preservation, step by step

  /** A new cycle takes nothing from the frames of the earlier ones. */
  lemma NewCycle(stream: seq<Event>, cycles: map<nat, nat>, c: nat, w: nat, r: Rec)
    requires RecInv(World(stream, cycles), r) && c !in cycles
    ensures RecInv(World(stream, cycles[c := w]), r)
  {
    hide CycleFrames, SnapshotFrames;
    forall k | k in r.snapshot ensures GenuineSnapshot(World(stream, cycles[c := w]), r.snapshot[k]) {
      var u := r.snapshot[k];
      assert GenuineSnapshot(World(stream, cycles), u);
      SameCycle(stream, cycles, c, w, u.cycle);
    }
  }

  lemma SameCycle(stream: seq<Event>, cycles: map<nat, nat>, c: nat, w: nat, d: nat)
    requires d != c
    ensures CycleFrames(World(stream, cycles[c := w]), d) == CycleFrames(World(stream, cycles), d)
    ensures Published(World(stream, cycles[c := w]), d) <==> Published(World(stream, cycles), d)
  {
    hide SnapshotFrames, OrdersOf, BooksAt;
  }

  /** Steps of the publisher and the synthesizer. */
  lemma ExchangeKeeps(stream: seq<Event>, limit: nat, s: Sys, a: Step)
    requires Inv(stream, s) && Enabled(stream, s, a)
    requires a.NumberEvent? || a.ApplyToSnapshot? || a.PublishSnapshot?
    ensures Inv(stream, Do(stream, limit, s, a))
  {
    hide RecInv, Build, RunQueue, BooksAt, GenuineStream, KeysOk;
    var s' := Do(stream, limit, s, a);
    if a.PublishSnapshot? {
      NewCycle(stream, s.cycles, s.lastCycle + 1, s.snapshotted, s.consumer.rec);
    }
    BooksCarry(stream, s, s');
  }

  /** A step that leaves books, queue, generations and recovery alone leaves this part alone. */
  lemma BooksCarry(stream: seq<Event>, s: Sys, s': Sys)
    requires BooksInv(stream, s)
    requires s'.books == s.books && s'.queue == s.queue && s'.generation == s.generation && s'.applied == s.applied
    requires s'.consumer.observed == s.consumer.observed
    requires s'.consumer.rec.recovering == s.consumer.rec.recovering
    requires s'.consumer.rec.expected == s.consumer.rec.expected
    ensures BooksInv(stream, s')
  {
    hide RunQueue, BooksAt;
    if i :| PendingAt(stream, s, i) { assert PendingAt(stream, s', i); }
    if k :| CurrentAt(stream, s, k) { assert CurrentAt(stream, s', k); }
  }

  /** A fresh generation, larger than all in use, with recovery restarted. */
  lemma FreshGeneration(stream: seq<Event>, s: Sys, g: nat)
    requires Inv(stream, s) && s.consumer.observed < g && s.generation <= g
    ensures Inv(stream, s.(generation := g, consumer := Consumer(Restart(s.consumer.rec), g, None)))
  {
    hide GenuineSnapshot, Build, RunQueue, BooksAt, GenuineStream;
  }

  /** While recovering, only the recovery state and the candidate change. */
  lemma RecoveryMoves(stream: seq<Event>, s: Sys, r: Rec, candidate: Option<seq<Event>>)
    requires Inv(stream, s) && s.consumer.rec.recovering && r.recovering && r.expected == s.consumer.rec.expected
    requires RecInv(World(stream, s.cycles), r) && forall k :: k in r.incremental ==> k <= s.numbered
    requires candidate.Some? ==>
               && Build(r).1.Some?
               && candidate.value == Build(r).1.value.events + [CommitMarker(Build(r).1.value.watermark, s.consumer.observed)]
    ensures Inv(stream, s.(consumer := s.consumer.(rec := r, candidate := candidate)))
  {
    hide GenuineSnapshot, Build, GenuineStream, RunQueue, BooksAt;
  }

  /** Caching a genuine frame and looking for a batch, while recovering. */
  lemma IngestKeepsInv(stream: seq<Event>, s: Sys, snapshot: bool, u: Update, limit: nat)
    requires Inv(stream, s) && s.consumer.rec.recovering
    requires GenuineFrame(World(stream, s.cycles), snapshot, u) && (!snapshot ==> u.seqNum <= s.numbered)
    ensures KeysOk(s.consumer.rec) && Inv(stream, IngestAndBuild(s, snapshot, u, limit))
  {
    hide GenuineFrame, GenuineSnapshot, Ingest, Build, GenerationInv, BooksInv, PublisherInv;
    var v := World(stream, s.cycles);
    var r := Ingest(s.consumer.rec, snapshot, u, limit).0;
    IngestKeeps(v, s.consumer.rec, snapshot, u, limit);
    IngestNumbers(s.consumer.rec, snapshot, u, limit, s.numbered);
    VoidedKeeps(v, r);
    var c := IngestAndBuild(s, snapshot, u, limit).consumer;
    RecoveryMoves(stream, s, c.rec, c.candidate);
  }

  lemma IngestNumbers(r: Rec, snapshot: bool, u: Update, limit: nat, n: nat)
    requires (forall k :: k in r.incremental ==> k <= n) && (!snapshot ==> u.seqNum <= n)
    ensures forall k :: k in Ingest(r, snapshot, u, limit).0.incremental ==> k <= n
    ensures Ingest(r, snapshot, u, limit).0.expected == r.expected
  {
  }

  lemma VoidedKeeps(v: World, r: Rec)
    requires RecInv(v, r)
    ensures RecInv(v, r.(invalidCycle := true))
  {
    hide GenuineSnapshot;
  }

  /** One genuine frame, whatever the consumer does with it. */
  lemma ReceiveKeeps(stream: seq<Event>, limit: nat, s: Sys, snapshot: bool, u: Update, full: bool)
    requires Inv(stream, s) && Enabled(stream, s, Receive(snapshot, u, full))
    ensures Inv(stream, Process(s, snapshot, u, full, limit))
  {
    var c := s.consumer;
    var (rec, next) := LiveCandidate(c.rec, u);
    if c.rec.recovering {
      IngestKeepsInv(stream, s, snapshot, u, limit);
    } else if !snapshot && next && !full {
      LivePush(stream, s, u);
    } else if !snapshot && (next || rec.recovering) {
      hide Inv, GenuineFrame, IngestAndBuild;
      FreshOk(stream, s);
      IngestKeepsInv(stream, Stale(s), snapshot, u, limit);
    }
  }

  lemma FreshOk(stream: seq<Event>, s: Sys)
    requires Inv(stream, s)
    ensures Inv(stream, Stale(s))
  {
    hide PublisherInv, ConsumerInv, BooksInv;
    FreshGeneration(stream, s, s.generation + 1);
  }

  function Pushed(s: Sys, e: Event): Sys {
    s.(consumer := s.consumer.(rec := CommitLive(s.consumer.rec)), queue := s.queue + [e])
  }

  lemma PushPending(stream: seq<Event>, s: Sys, i: nat)
    requires PendingAt(stream, s, i) && s.consumer.rec.expected <= |stream|
    ensures PendingAt(stream, Pushed(s, stream[s.consumer.rec.expected - 1]), i)
  {
    hide RunQueue, BooksAt;
    var w, e := s.queue[i].orderId, s.consumer.rec.expected;
    var q' := s.queue + [stream[e - 1]];
    assert q'[..i] == s.queue[..i];
    assert q'[i + 1..] == s.queue[i + 1..] + [stream[e - 1]];
    assert stream[w..e - 1] + [stream[e - 1]] == stream[w..e];
  }

  lemma PushCurrent(stream: seq<Event>, s: Sys, k: nat)
    requires CurrentAt(stream, s, k) && s.consumer.rec.expected <= |stream|
    ensures CurrentAt(stream, Pushed(s, stream[s.consumer.rec.expected - 1]), k)
  {
    hide BooksAt;
    var e := s.consumer.rec.expected;
    assert stream[k..e - 1] + [stream[e - 1]] == stream[k..e];
  }

  lemma PushBooks(stream: seq<Event>, s: Sys)
    requires BooksInv(stream, s) && 0 < s.consumer.rec.expected <= |stream|
    ensures BooksInv(stream, Pushed(s, stream[s.consumer.rec.expected - 1]))
  {
    hide PendingAt, CurrentAt;
    if !s.consumer.rec.recovering && s.generation == s.consumer.observed {
      if s.applied < s.consumer.observed {
        var i: nat :| PendingAt(stream, s, i);
        PushPending(stream, s, i);
      } else {
        var k: nat :| CurrentAt(stream, s, k);
        PushCurrent(stream, s, k);
      }
    }
  }

  /** The next event in sequence enters the queue. */
  lemma LivePush(stream: seq<Event>, s: Sys, u: Update)
    requires Inv(stream, s) && !s.consumer.rec.recovering && u.seqNum == s.consumer.rec.expected
    requires GenuineIncrement(World(stream, s.cycles), u) && u.seqNum <= s.numbered
    ensures Inv(stream, Pushed(s, u.event))
  {
    hide BooksInv, GenuineSnapshot, GenuineStream, Build;
    PushBooks(stream, s);
    StreamPlain(stream, u.seqNum - 1);
  }

  // ------------------------------------------------------------------ a batch enters the queue

  lemma {:induction false} RunConcat(bs: Books, a: seq<Event>, b: seq<Event>)
    ensures RunQueue(bs, a + b) == match RunQueue(bs, a) case None => None case Some(m) => RunQueue(m, b)
    decreases |a|
  {
    if a == [] {
      assert a + b == b;
    } else {
      assert (a + b)[1..] == a[1..] + b;
      RunConcat(bs, a[1..], b);
      if a[0].ticker < ME_MAX_TICKERS { RunConcat(EffectOn(bs, a[0]), a[1..], b); }
    }
  }

  /** Events that all apply have their effects. */
  lemma {:induction false} RunEffects(bs: Books, es: seq<Event>)
    requires forall i :: 0 <= i < |es| ==> !IsMarker(es[i])
    ensures RunQueue(bs, es).Some? ==> RunQueue(bs, es).value == Replayed(bs, es)
    decreases |es|
  {
    if es != [] {
      assert !IsMarker(es[0]);
      forall i | 0 <= i < |es[1..]| ensures !IsMarker(es[1..][i]) { assert es[1..][i] == es[i + 1]; }
      RunEffects(EffectOn(bs, es[0]), es[1..]);
    }
  }

  lemma StreamPlain(stream: seq<Event>, k: nat)
    requires GenuineStream(stream) && k < |stream|
    ensures !IsMarker(stream[k])
  {
    assert GenuineAt(stream, k);
  }

  lemma BodyPlain(v: World, c: nat)
    ensures forall i :: 0 <= i < |Body(v, c)| ==> !IsMarker(Body(v, c)[i])
  {
    hide BooksAt, SnapshotFrom, OrdersOf;
    SnapshotKinds(OrdersOf(BooksAt(v.stream, Mark(v, c))), 0);
    forall i | 0 <= i < |Body(v, c)| ensures !IsMarker(Body(v, c)[i]) { assert InSnapshot(Body(v, c)[i]); }
  }

  /** A candidate's events hold no marker. */
  lemma BatchPlain(v: World, r: Rec)
    requires WorldOk(v) && RecInv(v, r) && Build(r).1.Some?
    ensures forall i :: 0 <= i < |Build(r).1.value.events| ==> !IsMarker(Build(r).1.value.events[i])
  {
    hide Build, GenuineSnapshot, GenuineIncrement, CycleHeld, Covers, Body, GenuineStream, IsMarker;
    BuildIs(v, r);
    BodyPlain(v, r.cycle);
    var w, b := Mark(v, r.cycle), Build(r).1.value;
    var body := Body(v, r.cycle);
    forall i | 0 <= i < |b.events| ensures !IsMarker(b.events[i]) {
      if i >= |body| {
        StreamPlain(v.stream, w + i - |body|);
      }
    }
  }

  /** The batch's marker is the only one of its generation, and the last of all. */
  lemma AdmitGenerations(s: Sys, es: seq<Event>, w: nat)
    requires GenerationInv(s) && s.consumer.rec.recovering
    requires forall i :: 0 <= i < |es| ==> !IsMarker(es[i])
    requires s.consumer.candidate == Some(es + [CommitMarker(w, s.consumer.observed)])
    ensures GenerationInv(PublishRecovery(s))
    ensures PublishRecovery(s).queue == s.queue + es + [CommitMarker(w, s.consumer.observed)]
  {
    var s' := PublishRecovery(s);
    var m := CommitMarker(w, s.consumer.observed);
    assert s'.queue == s.queue + es + [m];
    forall i | 0 <= i < |s'.queue| && IsMarker(s'.queue[i])
      ensures i == |s'.queue| - 1 || (i < |s.queue| && s'.queue[i] == s.queue[i])
    {
    }
  }

  lemma WatermarkNumbered(stream: seq<Event>, s: Sys)
    requires PublisherInv(stream, s) && ConsumerInv(stream, s) && s.consumer.candidate.Some?
    ensures WorldOk(World(stream, s.cycles)) && Build(s.consumer.rec).1.Some?
    ensures Build(s.consumer.rec).1.value.watermark <= s.numbered
  {
    hide Build, GenuineSnapshot, GenuineIncrement, CycleHeld, Body, GenuineStream;
    var v, r := World(stream, s.cycles), s.consumer.rec;
    BuildIs(v, r);
    var w := Build(r).1.value.watermark;
    if w > Mark(v, r.cycle) { assert w in r.incremental; }
  }

  /** Admitting the candidate: after its marker nothing is in the queue, and whatever state the engine
      reaches before the batch, the batch leads it to the exchange state at the watermark. */
  lemma AdmitKeeps(stream: seq<Event>, s: Sys)
    requires Inv(stream, s) && s.consumer.candidate.Some?
    ensures s.consumer.candidate.value != [] && Inv(stream, PublishRecovery(s))
  {
    hide Build, GenuineSnapshot, GenuineIncrement, GenuineStream, GenerationInv, BooksInv;
    WatermarkNumbered(stream, s);
    BatchPlain(World(stream, s.cycles), s.consumer.rec);
    var b := Build(s.consumer.rec).1.value;
    AdmitGenerations(s, b.events, b.watermark);
    AdmitBooks(stream, s);
  }

  lemma AdmitBooks(stream: seq<Event>, s: Sys)
    requires Inv(stream, s) && s.consumer.candidate.Some? && s.consumer.candidate.value != []
    requires var b := Build(s.consumer.rec).1.value;
             PublishRecovery(s).queue == s.queue + b.events + [CommitMarker(b.watermark, s.consumer.observed)]
    ensures BooksInv(stream, PublishRecovery(s))
  {
    hide Build, GenuineSnapshot, GenuineIncrement, RunQueue, BooksAt, GenuineStream;
    WatermarkNumbered(stream, s);
    var b := Build(s.consumer.rec).1.value;
    AdmitRuns(World(stream, s.cycles), s.consumer.rec, s.books, s.queue);
    AdmitPending(stream, s, b);
  }

  lemma AdmitPending(stream: seq<Event>, s: Sys, b: Batch)
    requires s.consumer.candidate == Some(b.events + [CommitMarker(b.watermark, s.consumer.observed)])
    requires b.watermark <= |stream| && s.applied < s.consumer.observed
    requires RunQueue(s.books, s.queue + b.events).Some? ==>
               RunQueue(s.books, s.queue + b.events).value == BooksAt(stream, b.watermark)
    ensures BooksInv(stream, PublishRecovery(s))
  {
    hide RunQueue, BooksAt;
    var s' := PublishRecovery(s);
    var i := |s.queue| + |b.events|;
    assert s'.queue == s.queue + b.events + [CommitMarker(b.watermark, s.consumer.observed)];
    assert s'.queue[..i] == s.queue + b.events;
    assert s'.queue[i + 1..] == [] == stream[b.watermark..b.watermark];
    assert PendingAt(stream, s', i);
  }

  lemma AdmitRuns(v: World, r: Rec, bs: Books, q: seq<Event>)
    requires WorldOk(v) && RecInv(v, r) && Build(r).1.Some?
    ensures var b := Build(r).1.value;
            && b.watermark <= |v.stream|
            && (RunQueue(bs, q + b.events).Some? ==> RunQueue(bs, q + b.events).value == BooksAt(v.stream, b.watermark))
  {
    BuildRecovers(v, r, bs);
    BatchPlain(v, r);
    hide Build, RecInv, BooksAt, Replayed;
    var b := Build(r).1.value;
    RunConcat(bs, q, b.events);
    if RunQueue(bs, q).Some? {
      var mid := RunQueue(bs, q).value;
      BuildRecovers(v, r, mid);
      RunEffects(mid, b.events);
    }
  }

  // ------------------------------------------------------------------ the engine's moves

  /** What popping the front of the queue keeps of the order of generations. */
  lemma PopGenerations(s: Sys, applied: nat, generation: nat)
    requires GenerationInv(s) && s.queue != [] && s.generation <= generation
    requires applied == s.applied || (IsMarker(s.queue[0]) && applied == s.queue[0].priority)
    ensures GenerationInv(s.(queue := s.queue[1..], applied := applied, generation := generation, pc := Polling))
  {
    var s' := s.(queue := s.queue[1..], applied := applied, generation := generation, pc := Polling);
    forall i | 0 <= i < |s'.queue| ensures s'.queue[i] == s.queue[i + 1] {}
  }

  /** The front of the queue left, with the effect `books` has it. */
  lemma PopPending(stream: seq<Event>, s: Sys, s': Sys, i: nat)
    requires PendingAt(stream, s, i) && i > 0 && s' == s.(queue := s.queue[1..], books := s'.books)
    requires RunQueue(s.books, s.queue[..i]) == RunQueue(s'.books, s.queue[1..i])
    ensures PendingAt(stream, s', i - 1)
  {
    assert s'.queue[..i - 1] == s.queue[1..i];
    assert s'.queue[i..] == s.queue[i + 1..];
  }

  lemma EngineKeeps(stream: seq<Event>, limit: nat, s: Sys, a: Step)
    requires Inv(stream, s) && Enabled(stream, s, a)
    requires a.ApplyEvent? || a.RejectEvent? || a.BumpGeneration? || a.LoadGeneration? || a.StoreApplied?
    ensures Inv(stream, Do(stream, limit, s, a))
  {
    hide RecInv, Build, GenuineStream, KeysOk;
    match a
    case ApplyEvent => ApplyKeeps(stream, s);
    case RejectEvent => BooksCarry(stream, s, s.(pc := Bumping));
    case BumpGeneration => PopGenerations(s, s.applied, s.generation + 1);
    case LoadGeneration => LoadKeeps(stream, s);
    case StoreApplied => StoreKeeps(stream, s);
  }

  lemma ApplyPending(stream: seq<Event>, s: Sys, i: nat)
    requires PendingAt(stream, s, i) && !IsMarker(s.queue[0]) && Accepts(s, s.queue[0])
    ensures i > 0 && PendingAt(stream, s.(books := EffectOn(s.books, s.queue[0]), queue := s.queue[1..]), i - 1)
  {
    hide EffectOn, BooksAt;
    assert s.queue[..i][1..] == s.queue[1..i];
    PopPending(stream, s, s.(books := EffectOn(s.books, s.queue[0]), queue := s.queue[1..]), i);
  }

  lemma ApplyCurrent(stream: seq<Event>, s: Sys, k: nat)
    requires CurrentAt(stream, s, k) && s.queue != []
    ensures CurrentAt(stream, s.(books := EffectOn(s.books, s.queue[0]), queue := s.queue[1..]), k + 1)
  {
    hide EffectOn;
    assert s.queue[0] == stream[k];
  }

  lemma ApplyBooks(stream: seq<Event>, s: Sys)
    requires BooksInv(stream, s) && s.queue != [] && !IsMarker(s.queue[0]) && Accepts(s, s.queue[0])
    ensures BooksInv(stream, s.(books := EffectOn(s.books, s.queue[0]), queue := s.queue[1..]))
  {
    hide PendingAt, CurrentAt, Accepts, EffectOn;
    if !s.consumer.rec.recovering && s.generation == s.consumer.observed {
      if s.applied < s.consumer.observed {
        var i: nat :| PendingAt(stream, s, i);
        ApplyPending(stream, s, i);
      } else {
        var k: nat :| CurrentAt(stream, s, k);
        ApplyCurrent(stream, s, k);
      }
    }
  }

  lemma ApplyKeeps(stream: seq<Event>, s: Sys)
    requires Inv(stream, s) && s.pc.Polling? && s.queue != [] && !IsMarker(s.queue[0]) && Accepts(s, s.queue[0])
    ensures Inv(stream, s.(books := EffectOn(s.books, s.queue[0]), queue := s.queue[1..]))
  {
    hide GenuineStream, RecInv, Build, KeysOk, BooksInv, Accepts, EffectOn;
    PopGenerations(s, s.applied, s.generation);
    ApplyBooks(stream, s);
  }

  lemma LoadKeeps(stream: seq<Event>, s: Sys)
    requires Inv(stream, s) && s.pc.Polling? && s.queue != [] && IsMarker(s.queue[0])
    ensures Inv(stream, if s.queue[0].priority == s.generation then s.(pc := Storing(s.queue[0].priority))
                        else s.(queue := s.queue[1..]))
  {
    hide RecInv, Build, KeysOk, Genuine;
    if s.queue[0].priority == s.generation {
      hide GenuineStream;
      BooksCarry(stream, s, s.(pc := Storing(s.queue[0].priority)));
    } else {
      PopGenerations(s, s.applied, s.generation);
      PopMarker(stream, s);
    }
  }

  /** A marker that is not the current batch's own is skipped. */
  lemma PopMarker(stream: seq<Event>, s: Sys)
    requires PublisherInv(stream, s) && BooksInv(stream, s) && s.queue != [] && IsMarker(s.queue[0])
    requires s.queue[0].priority != s.consumer.observed || s.generation != s.consumer.observed
    ensures BooksInv(stream, s.(queue := s.queue[1..]))
  {
    hide Genuine, GenuineStream, BooksAt;
    var s' := s.(queue := s.queue[1..]);
    if !s.consumer.rec.recovering && s.generation == s.consumer.observed {
      if i: nat :| PendingAt(stream, s, i) {
        if i > 0 {
          assert s.queue[..i][1..] == s.queue[1..i];
          PopPending(stream, s, s', i);
          assert PendingAt(stream, s', i - 1);
        }
      }
      if k: nat :| CurrentAt(stream, s, k) {
        StreamPlain(stream, k);
      }
    }
  }

  /** The current batch's marker is at the front: the books are the state at its watermark. */
  lemma StoreCurrent(stream: seq<Event>, s: Sys, s': Sys)
    requires PendingAt(stream, s, 0) && s' == s.(applied := s'.applied, queue := s.queue[1..], pc := s'.pc)
    ensures CurrentAt(stream, s', s.queue[0].orderId)
  {
    hide BooksAt;
    assert s.queue[..0] == [];
  }

  lemma SamePending(stream: seq<Event>, s: Sys, s': Sys, j: nat)
    requires PendingAt(stream, s, j) && s'.queue == s.queue && s'.books == s.books && s'.consumer == s.consumer
    ensures PendingAt(stream, s', j)
  {
    hide BooksAt, RunQueue;
  }

  /** Only one marker carries the current generation. */
  lemma OwnMarkerFirst(stream: seq<Event>, s: Sys, i: nat)
    requires GenerationInv(s) && PendingAt(stream, s, i) && IsMarker(s.queue[0]) && s.queue[0].priority == s.consumer.observed
    ensures i == 0
  {
    hide BooksAt, RunQueue;
  }

  lemma StoreBooks(stream: seq<Event>, s: Sys, s': Sys)
    requires PublisherInv(stream, s) && BooksInv(stream, s) && GenerationInv(s)
    requires s.queue != [] && IsMarker(s.queue[0])
    requires s' == s.(applied := s.queue[0].priority, queue := s.queue[1..], pc := Polling)
    ensures BooksInv(stream, s')
  {
    hide PublisherInv, PendingAt, CurrentAt;
    if !s.consumer.rec.recovering && s.generation == s.consumer.observed {
      if s.queue[0].priority == s.consumer.observed {
        var i: nat :| PendingAt(stream, s, i);
        OwnMarkerFirst(stream, s, i);
        StoreCurrent(stream, s, s');
      } else {
        PopMarker(stream, s);
        var j: nat :| PendingAt(stream, s.(queue := s.queue[1..]), j);
        SamePending(stream, s.(queue := s.queue[1..]), s', j);
      }
    }
  }

  lemma StoreKeeps(stream: seq<Event>, s: Sys)
    requires Inv(stream, s) && s.pc.Storing? && s.queue != []
    ensures Inv(stream, s.(applied := s.pc.applied, queue := s.queue[1..], pc := Polling))
  {
    hide RecInv, Build, KeysOk, Genuine, BooksInv;
    PopGenerations(s, s.pc.applied, s.generation);
    StoreBooks(stream, s, s.(applied := s.pc.applied, queue := s.queue[1..], pc := Polling));
  }

  // ------------------------------------------------------------------ every run

  /** Every step of every thread keeps the invariant. */
  lemma StepKeeps(stream: seq<Event>, limit: nat, s: Sys, a: Step)
    requires Inv(stream, s) && Enabled(stream, s, a)
    ensures Inv(stream, Do(stream, limit, s, a))
  {
    hide Inv, Process, GenuineFrame;
    match a
    case NumberEvent => ExchangeKeeps(stream, limit, s, a);
    case ApplyToSnapshot => ExchangeKeeps(stream, limit, s, a);
    case PublishSnapshot => ExchangeKeeps(stream, limit, s, a);
    case Fault => FreshOk(stream, s);
    case Resync => ResyncKeeps(stream, s);
    case Receive(snapshot, u, full) => ReceiveKeeps(stream, limit, s, snapshot, u, full);
    case Admit => AdmitKeeps(stream, s);
    case ApplyEvent => EngineKeeps(stream, limit, s, a);
    case RejectEvent => EngineKeeps(stream, limit, s, a);
    case BumpGeneration => EngineKeeps(stream, limit, s, a);
    case LoadGeneration => EngineKeeps(stream, limit, s, a);
    case StoreApplied => EngineKeeps(stream, limit, s, a);
  }

  lemma ResyncKeeps(stream: seq<Event>, s: Sys)
    requires Inv(stream, s) && s.generation != s.consumer.observed
    ensures Inv(stream, s.(consumer := Consumer(Restart(s.consumer.rec), s.generation, None)))
  {
    hide PublisherInv, ConsumerInv, BooksInv;
    FreshGeneration(stream, s, s.generation);
  }

  /** A run: each state follows from the one before by some step of some thread. */
  ghost predicate IsRun(stream: seq<Event>, limit: nat, run: seq<Sys>) {
    && run != []
    && (exists c: nat :: run[0] == Init(c))
    && forall i :: 0 <= i < |run| - 1 ==> Follows(stream, limit, run[i], run[i + 1])
  }

  ghost predicate Follows(stream: seq<Event>, limit: nat, s: Sys, s': Sys) {
    exists a :: Enabled(stream, s, a) && s' == Do(stream, limit, s, a)
  }

  lemma {:induction false} RunInv(stream: seq<Event>, limit: nat, run: seq<Sys>, i: nat)
    requires GenuineStream(stream) && IsRun(stream, limit, run) && i < |run|
    ensures Inv(stream, run[i])
  {
    hide Inv, Enabled, Do;
    if i == 0 {
      var c: nat :| run[0] == Init(c);
      InitInv(stream, c);
    } else {
      RunInv(stream, limit, run, i - 1);
      assert Follows(stream, limit, run[i - 1], run[i]);
      var a :| Enabled(stream, run[i - 1], a) && run[i] == Do(stream, limit, run[i - 1], a);
      StepKeeps(stream, limit, run[i - 1], a);
    }
  }

  lemma CountersGrow(stream: seq<Event>, limit: nat, s: Sys, a: Step)
    requires Inv(stream, s) && Enabled(stream, s, a)
    ensures var s' := Do(stream, limit, s, a); s.applied <= s'.applied && s.generation <= s'.generation
  {
    hide RecInv, Build, Ingest, BooksInv, GenuineFrame;
  }

  lemma {:induction false} CountersGrowAlong(stream: seq<Event>, limit: nat, run: seq<Sys>, i: nat, j: nat)
    requires GenuineStream(stream) && IsRun(stream, limit, run) && i <= j < |run|
    ensures run[i].applied <= run[j].applied && run[i].generation <= run[j].generation
    decreases j - i
  {
    hide Inv, Enabled, Do;
    if i < j {
      CountersGrowAlong(stream, limit, run, i, j - 1);
      assert Follows(stream, limit, run[j - 1], run[j - 1 + 1]);
      var a :| Enabled(stream, run[j - 1], a) && run[j] == Do(stream, limit, run[j - 1], a);
      RunInv(stream, limit, run, j - 1);
      CountersGrow(stream, limit, run[j - 1], a);
    }
  }

  /** The main result. In every run, `marketReady` reads the applied generation in one state and the
      current generation in the same or a later state; if the two are equal, the books are an exact
      exchange state at the moment of the second read. */
  lemma MarketReadyMeansExact(stream: seq<Event>, limit: nat, run: seq<Sys>, i: nat, j: nat)
    requires GenuineStream(stream) && IsRun(stream, limit, run) && i <= j < |run|
    requires run[i].applied == run[j].generation
    ensures Exact(stream, run[j])
  {
    hide IsRun, Exact, PublisherInv, ConsumerInv, BooksInv;
    CountersGrowAlong(stream, limit, run, i, j);
    RunInv(stream, limit, run, j);
    ReadyMeansExact(stream, run[j]);
  }
}
