/**
 Recovery succeeds: every batch applies in full to any books, so once a batch is built and nothing else
 happens, the client becomes ready on the exact books.
*/
module ProtocolProgress {
  import opened Types
  import opened PriceBooks
  import opened Replay
  import opened MarketStream
  import opened RecoverySpec
  import opened RecoveryProps
  import opened Protocol
  import opened RecoveryComplete
  import opened ProtocolBounds
  import opened MarketSides

  // ------------------------------------------------------------------ every batch is accepted

  ghost predicate OrderGood(b: PriceBook, id: OrderId)
    requires id in b.orders
  {
    GoodPrice(b.orders[id].price) && GoodQty(b.orders[id].qty) && b.orders[id].side.Valid()
  }

  /** A public book that fits the client's pools and holds only presentable orders. */
  ghost predicate Fits(b: PriceBook) {
    && |b.orders| <= ME_MAX_ORDER_IDS && |b.fifo| <= ME_MAX_PRICE_LEVELS
    && forall id :: id in b.orders ==> OrderGood(b, id)
  }

  lemma OneMore<T>(s: set<T>, x: T)
    ensures |s + {x}| <= |s| + 1 && (x in s ==> s + {x} == s)
  {
  }

  lemma AppendFits(b: PriceBook, o: Order)
    requires Fits(b) && |b.orders| < ME_MAX_ORDER_IDS && (KeyOf(o) in b.fifo || |b.fifo| < ME_MAX_PRICE_LEVELS)
    requires GoodPrice(o.price) && GoodQty(o.qty) && o.side.Valid()
    ensures Fits(Append(b, o))
  {
    var b' := Append(b, o);
    assert b'.orders.Keys == b.orders.Keys + {o.id} && b'.fifo.Keys == b.fifo.Keys + {KeyOf(o)};
    OneMore(b.orders.Keys, o.id);
    OneMore(b.fifo.Keys, KeyOf(o));
    forall id | id in b'.orders ensures OrderGood(b', id) {
      if id != o.id { assert OrderGood(b, id); }
    }
  }

  lemma DeleteFits(b: PriceBook, id: OrderId)
    requires Fits(b) && Wf(b) && id in b.orders
    ensures Fits(Delete(b, id))
  {
    hide Without, Wf;
    OrderIs(b, id);
    var b' := Delete(b, id);
    SubsetSize(b'.orders.Keys, b.orders.Keys);
    SubsetSize(b'.fifo.Keys, b.fifo.Keys);
    forall x | x in b'.orders ensures OrderGood(b', x) { assert OrderGood(b, x); }
  }

  lemma SetQtyFits(b: PriceBook, id: OrderId, qty: nat)
    requires Fits(b) && id in b.orders && GoodQty(qty)
    ensures Fits(SetQty(b, id, qty))
  {
    var b' := SetQty(b, id, qty);
    assert b'.orders.Keys == b.orders.Keys;
    assert |b'.orders.Keys| == |b'.orders|;
    forall x | x in b'.orders ensures OrderGood(b', x) { assert OrderGood(b, x); }
  }

  lemma GenuineKeepsFits(b: PriceBook, me: TickerId, e: Event)
    requires Indexed(b) && Fits(b) && Genuine(b, me, e)
    ensures Fits(Effect(b, e))
  {
    hide Append, Delete, SetQty, Wf, Fits;
    if e.kind.Add? {
      AppendFits(b, EventOrder(e));
    } else if e.kind.Modify? {
      SetQtyFits(b, e.orderId, e.qty);
    } else if e.kind.Cancel? {
      DeleteFits(b, e.orderId);
    }
  }

  lemma {:induction false} StreamFits(stream: seq<Event>, k: nat, t: TickerId)
    requires GenuineStream(stream) && k <= |stream| && t < ME_MAX_TICKERS
    ensures Fits(BooksAt(stream, k)[t])
  {
    hide Fits, Indexed, Genuine;
    if k == 0 {
      EmptyFits();
    } else {
      StreamFits(stream, k - 1, t);
      StreamIndexed(stream, k - 1);
      assert GenuineAt(stream, k - 1);
      GenuineKeepsFits(BooksAt(stream, k - 1)[stream[k - 1].ticker], stream[k - 1].ticker, stream[k - 1]) by {
        StreamFits(stream, k - 1, stream[k - 1].ticker);
      }
    }
  }

  lemma EmptyFits()
    ensures Fits(EMPTY)
  {
  }

  /** The part of a book below an id it holds is strictly smaller. */
  lemma PartSmaller(b: PriceBook, n: nat)
    requires Indexed(b) && Fits(b) && n in b.orders
    ensures |Part(b, n).orders| < ME_MAX_ORDER_IDS
    ensures KeyOf(b.orders[n]) in Part(b, n).fifo || |Part(b, n).fifo| < ME_MAX_PRICE_LEVELS
  {
    hide Below, Wf;
    var p, k := Part(b, n), KeyOf(b.orders[n]);
    KnownOrder(b, n);
    assert p.orders.Keys <= b.orders.Keys - {n};
    SubsetSize(p.orders.Keys, b.orders.Keys - {n});
    if k !in p.fifo {
      assert p.fifo.Keys <= b.fifo.Keys - {k};
      SubsetSize(p.fifo.Keys, b.fifo.Keys - {k});
    }
  }

  lemma LiveAccepted(b: PriceBook, t: TickerId, n: nat)
    requires Indexed(b) && Fits(b) && n in b.orders
    ensures ClientAccepts(Part(b, n), t, AddEvent(t, b.orders[n])) && Effect(Part(b, n), AddEvent(t, b.orders[n])) == Part(b, n + 1)
  {
    hide Below, Wf, IdsAscend, Append;
    PartSmaller(b, n);
    PartStep(b, n);
    KnownOrder(b, n);
    assert OrderGood(b, n);
  }

  /** A ticker's live orders all apply, one after the other, to what the earlier ones built. */
  lemma {:induction false} LiveRuns(bs: Books, b: PriceBook, t: TickerId, i: nat)
    requires t < ME_MAX_TICKERS && Indexed(b) && Fits(b) && i <= ME_MAX_ORDER_IDS && bs[t] == Part(b, i)
    ensures RunQueue(bs, LiveFrom(t, b.orders, i)) == Some(bs[t := b])
    decreases ME_MAX_ORDER_IDS - i
  {
    hide Indexed, Fits, Part, LiveFrom, RunQueue, Effect;
    if i == ME_MAX_ORDER_IDS {
      PartWhole(b);
      LiveEnds(bs, t, b.orders);
      assert bs[t := b] == bs;
    } else {
      LiveNext(t, b.orders, i);
      var rest := LiveFrom(t, b.orders, i + 1);
      if i in b.orders {
        LiveAccepted(b, t, i);
        RunFirst(bs, AddEvent(t, b.orders[i]), rest);
        var next: Books := bs[t := Part(b, i + 1)];
        LiveRuns(next, b, t, i + 1);
        assert EffectOn(bs, AddEvent(t, b.orders[i])) == next;
        assert next[t := b] == bs[t := b];
        assert [AddEvent(t, b.orders[i])] + rest == LiveFrom(t, b.orders, i);
      } else {
        PartStep(b, i);
        assert [] + rest == rest;
        LiveRuns(bs, b, t, i + 1);
      }
    }
  }

  lemma LiveEnds(bs: Books, t: TickerId, orders: map<OrderId, Order>)
    ensures LiveFrom(t, orders, ME_MAX_ORDER_IDS) == [] && RunQueue(bs, []) == Some(bs)
  {
  }

  lemma RunFirst(bs: Books, e: Event, es: seq<Event>)
    requires !IsMarker(e) && e.ticker < ME_MAX_TICKERS && ClientAccepts(bs[e.ticker], e.ticker, e)
    ensures RunQueue(bs, [e] + es) == RunQueue(EffectOn(bs, e), es)
  {
    assert ([e] + es)[1..] == es;
  }

  /** So does a whole snapshot, to any books. */
  lemma {:induction false} SnapshotRuns(bs: Books, target: Books, t: nat)
    requires AllIndexed(target) && (forall i :: 0 <= i < ME_MAX_TICKERS ==> Fits(target[i])) && t <= ME_MAX_TICKERS
    ensures RunQueue(bs, SnapshotFrom(OrdersOf(target), t)).Some?
    decreases ME_MAX_TICKERS - t
  {
    hide Indexed, Fits, LiveFrom, RunQueue, Part;
    if t == ME_MAX_TICKERS {
      LiveEnds(bs, 0, map[]);
    } else {
      var rest := SnapshotFrom(OrdersOf(target), t + 1);
      var live := LiveFrom(t, OrdersOf(target)[t], 0);
      PartNothing(target[t]);
      var cleared := bs[t := EMPTY];
      LiveRuns(cleared, target[t], t, 0);
      RunFirst(bs, ClearEvent(t), live + rest);
      Protocol.RunConcat(cleared, live, rest);
      SnapshotRuns(cleared[t := target[t]], target, t + 1);
      assert [ClearEvent(t)] + live + rest == [ClearEvent(t)] + (live + rest);
    }
  }

  lemma GenuineRuns(b: PriceBook, t: TickerId, e: Event)
    requires Genuine(b, t, e)
    ensures !IsMarker(e) && ClientAccepts(b, t, e)
  {
  }

  /** So do the stream's own next events. */
  lemma {:induction false} StreamRuns(stream: seq<Event>, i: nat, j: nat)
    requires GenuineStream(stream) && i <= j <= |stream|
    ensures RunQueue(BooksAt(stream, i), stream[i..j]).Some?
    decreases j - i
  {
    hide Genuine, RunQueue, ClientAccepts;
    if i == j {
      LiveEnds(BooksAt(stream, i), 0, map[]);
    } else {
      assert GenuineAt(stream, i);
      GenuineRuns(BooksAt(stream, i)[stream[i].ticker], stream[i].ticker, stream[i]);
      assert stream[i..j] == [stream[i]] + stream[i + 1..j];
      RunFirst(BooksAt(stream, i), stream[i], stream[i + 1..j]);
      StreamRuns(stream, i + 1, j);
    }
  }

  /** Every event of a batch applies, whatever the books were, and the end is the exact exchange state. */
  lemma BatchApplies(v: World, r: Rec, bs: Books)
    requires WorldOk(v) && RecInv(v, r) && Build(r).1.Some?
    ensures var b := Build(r).1.value;
            b.watermark <= |v.stream| && RunQueue(bs, b.events) == Some(BooksAt(v.stream, b.watermark))
  {
    hide Build, RunQueue, BooksAt, SnapshotFrom, OrdersOf, Fits, Indexed, Replayed, GenuineStream, CycleHeld, Covers;
    BuildIs(v, r);
    BuildRecovers(v, r, bs);
    BatchPlain(v, r);
    var b, w := Build(r).1.value, Mark(v, r.cycle);
    var target := BooksAt(v.stream, w);
    StreamIndexed(v.stream, w);
    forall i | 0 <= i < ME_MAX_TICKERS ensures Fits(target[i]) { StreamFits(v.stream, w, i); }
    SnapshotRuns(bs, target, 0);
    BodyPlain(v, r.cycle);
    RunEffects(bs, Body(v, r.cycle));
    SnapshotRebuilds(bs, target, 0);
    StreamRuns(v.stream, w, b.watermark);
    Protocol.RunConcat(bs, Body(v, r.cycle), v.stream[w..b.watermark]);
    RunEffects(bs, b.events);
  }

  // ------------------------------------------------------------------ and the client becomes ready

  /** The engine works through its queue and nothing else happens. */
  function Drain(s: Sys): Sys
    decreases |s.queue|
  {
    if s.queue == [] then s else Drain(Turn(s))
  }

  ghost predicate EndsInMarker(s: Sys) {
    s.queue != [] && IsMarker(s.queue[|s.queue| - 1]) && s.queue[|s.queue| - 1].priority == s.generation
  }

  lemma TurnRuns(s: Sys)
    requires s.queue != [] && RunQueue(s.books, s.queue).Some?
    ensures var t := Turn(s);
            && t.queue == s.queue[1..] && t.generation == s.generation && t.consumer == s.consumer && t.pc == s.pc
            && RunQueue(t.books, t.queue) == RunQueue(s.books, s.queue)
            && t.applied == if IsMarker(s.queue[0]) && s.queue[0].priority == s.generation then s.generation else s.applied
  {
    hide EffectOn;
  }

  /** A queue that applies and ends in the current marker leaves the client ready. */
  lemma {:induction false} DrainReady(s: Sys)
    requires EndsInMarker(s) && RunQueue(s.books, s.queue).Some?
    ensures var d := Drain(s);
            d.queue == [] && Ready(d) && d.generation == s.generation && Some(d.books) == RunQueue(s.books, s.queue)
    decreases |s.queue|
  {
    hide Turn;
    TurnRuns(s);
    if |s.queue| > 1 {
      hide RunQueue;
      DrainReady(Turn(s));
    } else {
      assert Drain(Turn(s)) == Turn(s);
      LiveEnds(Turn(s).books, 0, map[]);
    }
  }

  /** A stretch of steps of the protocol. */
  ghost predicate Path(stream: seq<Event>, limit: nat, path: seq<Sys>) {
    path != [] && forall i :: 0 <= i < |path| - 1 ==> Follows(stream, limit, path[i], path[i + 1])
  }

  ghost predicate Reaches(stream: seq<Event>, limit: nat, s: Sys, t: Sys) {
    exists path :: Path(stream, limit, path) && path[0] == s && path[|path| - 1] == t
  }

  lemma ReachesSelf(stream: seq<Event>, limit: nat, s: Sys)
    ensures Reaches(stream, limit, s, s)
  {
    assert Path(stream, limit, [s]) && [s][0] == s == [s][|[s]| - 1];
  }

  lemma ReachesBy(stream: seq<Event>, limit: nat, s: Sys, a: Step)
    requires Enabled(stream, s, a)
    ensures Reaches(stream, limit, s, Do(stream, limit, s, a))
  {
    hide Enabled, Do;
    var path := [s, Do(stream, limit, s, a)];
    assert Follows(stream, limit, path[0], path[1]);
    assert Path(stream, limit, path) && path[|path| - 1] == Do(stream, limit, s, a);
  }

  lemma PathJoin(stream: seq<Event>, limit: nat, p: seq<Sys>, q: seq<Sys>)
    requires Path(stream, limit, p) && Path(stream, limit, q) && p[|p| - 1] == q[0]
    ensures Path(stream, limit, p + q[1..])
  {
    hide Follows;
    var r := p + q[1..];
    forall i | 0 <= i < |r| - 1 ensures Follows(stream, limit, r[i], r[i + 1]) {
      if i < |p| - 1 {
        assert Follows(stream, limit, p[i], p[i + 1]);
      } else {
        assert Follows(stream, limit, q[i - |p| + 1], q[i - |p| + 1 + 1]);
      }
    }
  }

  lemma ReachesOn(stream: seq<Event>, limit: nat, s: Sys, t: Sys, u: Sys)
    requires Reaches(stream, limit, s, t) && Reaches(stream, limit, t, u)
    ensures Reaches(stream, limit, s, u)
  {
    hide Follows;
    var p :| Path(stream, limit, p) && p[0] == s && p[|p| - 1] == t;
    var q :| Path(stream, limit, q) && q[0] == t && q[|q| - 1] == u;
    PathJoin(stream, limit, p, q);
    var r := p + q[1..];
    assert Path(stream, limit, r) && r[0] == s && r[|r| - 1] == u;
  }

  /** Working through the queue is made of the protocol's own steps. */
  lemma {:induction false} DrainReached(stream: seq<Event>, limit: nat, s: Sys)
    requires s.pc == Polling
    ensures Reaches(stream, limit, s, Drain(s))
    decreases |s.queue|
  {
    hide Enabled, Do, Reaches;
    if s.queue == [] {
      ReachesSelf(stream, limit, s);
    } else {
      TurnIsSteps(stream, limit, s);
      TurnShape(s);
      DrainReached(stream, limit, Turn(s));
      var (a, b) := StepsOf(s);
      var t := Do(stream, limit, s, a);
      ReachesBy(stream, limit, s, a);
      if b.Some? {
        ReachesBy(stream, limit, t, b.value);
        ReachesOn(stream, limit, s, t, Turn(s));
      }
      ReachesOn(stream, limit, s, Turn(s), Drain(s));
    }
  }

  lemma TurnShape(s: Sys)
    requires s.queue != []
    ensures |Turn(s).queue| < |s.queue| && Turn(s).pc == s.pc && Drain(s) == Drain(Turn(s))
  {
  }

  /** What the queue holds once a batch of the current generation has entered it. */
  lemma AdmittedRuns(stream: seq<Event>, s: Sys)
    requires Inv(stream, s) && s.consumer.candidate.Some? && s.generation == s.consumer.observed
    requires RunQueue(s.books, s.queue).Some?
    ensures s.consumer.candidate.value != []
    ensures var b := Build(s.consumer.rec).1.value; var p := PublishRecovery(s);
            && Build(s.consumer.rec).1.Some? && b.watermark <= |stream|
            && EndsInMarker(p) && p.pc == s.pc
            && RunQueue(p.books, p.queue) == Some(BooksAt(stream, b.watermark))
  {
    hide Build, GenerationInv, BooksInv, RunQueue, BooksAt, GenuineSnapshot, GenuineIncrement, GenuineStream;
    var b := Build(s.consumer.rec).1.value;
    var mid := RunQueue(s.books, s.queue).value;
    var m := CommitMarker(b.watermark, s.consumer.observed);
    BatchApplies(World(stream, s.cycles), s.consumer.rec, mid);
    Protocol.RunConcat(mid, b.events, [m]);
    Protocol.RunConcat(s.books, s.queue, b.events + [m]);
    MarkerRuns(BooksAt(stream, b.watermark), m);
  }

  lemma MarkerRuns(bs: Books, m: Event)
    requires IsMarker(m)
    ensures RunQueue(bs, [m]) == Some(bs)
  {
    assert [m][1..] == [];
  }

  /** A batch that waits behind an empty queue fits, enters, and leaves the market ready. */
  lemma BatchReached(stream: seq<Event>, limit: nat, s: Sys)
    requires Inv(stream, s) && Bounded(limit, s) && limit <= ME_MAX_MARKET_UPDATES && s.queue == [] && s.pc == Polling
    requires s.consumer.candidate.Some? && s.generation == s.consumer.observed
    ensures s.consumer.candidate.value != []
    ensures Build(s.consumer.rec).1.Some? && Build(s.consumer.rec).1.value.watermark <= |stream|
    ensures var t := Drain(PublishRecovery(s));
            Reaches(stream, limit, s, t) && Ready(t) && t.books == BooksAt(stream, Build(s.consumer.rec).1.value.watermark)
  {
    hide Build, RunQueue, BooksAt, PublishRecovery, Reaches, EndsInMarker, Drain, Ready, GenerationInv, BooksInv, RecInv,
         CycleFrames, GenuineStream;
    LiveEnds(s.books, 0, map[]);
    AdmittedRuns(stream, s);
    BatchFits(World(stream, s.cycles), s.consumer.rec, limit);
    var p := PublishRecovery(s);
    ReachesBy(stream, limit, s, Admit);
    DrainReady(p);
    DrainReached(stream, limit, p);
    ReachesOn(stream, limit, s, p, Drain(p));
  }

  // ------------------------------------------------------------------ from any state at all

  /** The consumer after the first `i` frames of cycle `c`, received in order and after a restart. */
  ghost function Holding(v: World, c: nat, expected: nat, i: nat): Rec
    requires i <= |CycleFrames(v, c)|
  {
    Rec(true, false, c, expected, map k: nat | k < i :: CycleFrames(v, c)[k], map[])
  }

  lemma HoldingInv(v: World, c: nat, expected: nat, i: nat)
    requires Published(v, c) && 0 < expected <= |v.stream| + 1 && i <= |CycleFrames(v, c)|
    ensures RecInv(v, Holding(v, c, expected, i)) && |Holding(v, c, expected, i).snapshot| == i
  {
    hide CycleFrames, Mark, FrameShape;
    var r := Holding(v, c, expected, i);
    forall k | k in r.snapshot ensures r.snapshot[k].seqNum == k && r.snapshot[k].cycle == c { FrameSays(v, c, k); }
    RangeSize(r.snapshot, i);
  }

  lemma FrameSays(v: World, c: nat, i: nat)
    requires i < |CycleFrames(v, c)|
    ensures var u := CycleFrames(v, c)[i];
            && u.seqNum == i && u.cycle == c && (u.event.kind.SnapshotEnd? <==> i == |CycleFrames(v, c)| - 1)
  {
    hide CycleFrames, Body, Mark;
    FrameIs(v, c, i);
  }

  lemma FirstFrame(v: World, c: nat, r: Rec, limit: nat)
    requires r.recovering && r.snapshot == map[] && r.incremental == map[] && r.cycle < c
    requires 1 <= |CycleFrames(v, c)| <= limit
    ensures Ingest(r, true, CycleFrames(v, c)[0], limit).0 == Holding(v, c, r.expected, 1)
  {
    hide CycleFrames;
    FrameSays(v, c, 0);
    var r' := Ingest(r, true, CycleFrames(v, c)[0], limit).0;
    assert r'.snapshot == Holding(v, c, r.expected, 1).snapshot && r'.incremental == map[];
  }

  lemma NextFrame(v: World, c: nat, expected: nat, i: nat, limit: nat)
    requires Published(v, c) && 0 < c && 0 < expected <= |v.stream| + 1 && 0 < i < |CycleFrames(v, c)| <= limit
    ensures Ingest(Holding(v, c, expected, i), true, CycleFrames(v, c)[i], limit).0 == Holding(v, c, expected, i + 1)
  {
    hide CycleFrames, RecInv, Published;
    FrameSays(v, c, i);
    HoldingInv(v, c, expected, i + 1);
    var r, r' := Holding(v, c, expected, i), Holding(v, c, expected, i + 1);
    assert r'.snapshot == r.snapshot[i := CycleFrames(v, c)[i]];
  }

  /** Until the last frame there is nothing to build, and nothing is voided. */
  lemma NotYet(v: World, c: nat, expected: nat, i: nat)
    requires Published(v, c) && 0 < expected <= |v.stream| + 1 && 0 < i < |CycleFrames(v, c)|
    ensures KeysOk(Holding(v, c, expected, i)) && Build(Holding(v, c, expected, i)) == (Holding(v, c, expected, i), None)
  {
    hide CycleFrames, Published, BuildFrom;
    HoldingInv(v, c, expected, i);
    FrameSays(v, c, i - 1);
    var m := Holding(v, c, expected, i).snapshot;
    assert Ends(m, 0, i - 1);
    forall lo: nat, hi: nat | Ends(m, lo, hi) ensures hi == i - 1 { EndsUnique(m, lo, hi, 0, i - 1); }
  }

  /** With the last frame there is: a batch that ends at the cycle's own watermark. */
  lemma NowComplete(v: World, c: nat, expected: nat)
    requires WorldOk(v) && Published(v, c) && 0 < expected <= |v.stream| + 1
    ensures var r := Holding(v, c, expected, |CycleFrames(v, c)|);
            KeysOk(r) && Build(r).0 == r && Build(r).1.Some? && Build(r).1.value.watermark == Mark(v, c)
  {
    hide CycleFrames, Build, GenuineSnapshot, GenuineIncrement, Body, GenuineStream;
    var r := Holding(v, c, expected, |CycleFrames(v, c)|);
    HoldingInv(v, c, expected, |CycleFrames(v, c)|);
    assert HeldUpTo(r, Mark(v, c), Mark(v, c));
    BuildExactlyWhen(v, r);
    BuildIs(v, r);
    var w := Build(r).1.value.watermark;
    assert w > Mark(v, c) ==> w in r.incremental;
  }

  /** The whole system with the consumer at that point. */
  ghost function Arrived(stream: seq<Event>, s: Sys, c: nat, i: nat): Sys
    requires i <= |CycleFrames(World(stream, s.cycles), c)|
  {
    s.(consumer := Consumer(Holding(World(stream, s.cycles), c, s.consumer.rec.expected, i), s.consumer.observed, None))
  }

  /** A restarted consumer, a cycle newer than any it has seen, and caches large enough for it. */
  ghost predicate Awaits(stream: seq<Event>, limit: nat, s: Sys, c: nat) {
    var v, r := World(stream, s.cycles), s.consumer.rec;
    && WorldOk(v) && Published(v, c) && r.recovering && r.snapshot == map[] && r.incremental == map[] && r.cycle < c
    && 0 < r.expected <= |stream| + 1 && s.consumer.candidate == None && 1 <= |CycleFrames(v, c)| <= limit
  }

  lemma FrameReached(stream: seq<Event>, limit: nat, s: Sys, r: Rec, c: nat, i: nat)
    requires Awaits(stream, limit, s, c) && KeysOk(r) && r.recovering && i < |CycleFrames(World(stream, s.cycles), c)|
    ensures var u := CycleFrames(World(stream, s.cycles), c)[i]; var t := s.(consumer := s.consumer.(rec := r));
            Reaches(stream, limit, t, IngestAndBuild(t, true, u, limit))
  {
    hide CycleFrames, Ingest, Build, KeysOk, WorldOk, Reaches;
    var u := CycleFrames(World(stream, s.cycles), c)[i];
    FrameSays(World(stream, s.cycles), c, i);
    ReachesBy(stream, limit, s.(consumer := s.consumer.(rec := r)), Receive(true, u, true));
  }

  lemma FirstReached(stream: seq<Event>, limit: nat, s: Sys, c: nat)
    requires Awaits(stream, limit, s, c) && KeysOk(s.consumer.rec) && 1 < |CycleFrames(World(stream, s.cycles), c)|
    ensures Reaches(stream, limit, s, Arrived(stream, s, c, 1))
  {
    hide CycleFrames, Ingest, Build, KeysOk, WorldOk, Reaches, Holding;
    var v := World(stream, s.cycles);
    FrameReached(stream, limit, s, s.consumer.rec, c, 0);
    FirstFrame(v, c, s.consumer.rec, limit);
    NotYet(v, c, s.consumer.rec.expected, 1);
    assert s.(consumer := s.consumer.(rec := s.consumer.rec)) == s;
  }

  lemma {:induction false} FramesReached(stream: seq<Event>, limit: nat, s: Sys, c: nat, i: nat)
    requires Awaits(stream, limit, s, c) && KeysOk(s.consumer.rec) && 0 < i < |CycleFrames(World(stream, s.cycles), c)|
    ensures Reaches(stream, limit, s, Arrived(stream, s, c, i))
  {
    hide CycleFrames, Ingest, Build, WorldOk, Reaches;
    if i == 1 {
      FirstReached(stream, limit, s, c);
    } else {
      var v, e := World(stream, s.cycles), s.consumer.rec.expected;
      FramesReached(stream, limit, s, c, i - 1);
      NotYet(v, c, e, i - 1);
      NotYet(v, c, e, i);
      NextFrame(v, c, e, i - 1, limit);
      FrameReached(stream, limit, s, Holding(v, c, e, i - 1), c, i - 1);
      ReachesOn(stream, limit, s, Arrived(stream, s, c, i - 1), Arrived(stream, s, c, i));
    }
  }

  /** The whole system once the batch of cycle `c` has been built. */
  ghost function Built(stream: seq<Event>, s: Sys, c: nat): Sys
    requires KeysOk(Holding(World(stream, s.cycles), c, s.consumer.rec.expected, |CycleFrames(World(stream, s.cycles), c)|))
  {
    var r := Holding(World(stream, s.cycles), c, s.consumer.rec.expected, |CycleFrames(World(stream, s.cycles), c)|);
    var b := Build(r).1;
    s.(consumer := Consumer(r, s.consumer.observed,
                            match b case None => None
                            case Some(b) => Some(b.events + [CommitMarker(b.watermark, s.consumer.observed)])))
  }

  lemma BuiltReached(stream: seq<Event>, limit: nat, s: Sys, c: nat)
    requires Awaits(stream, limit, s, c) && KeysOk(s.consumer.rec)
    ensures KeysOk(Holding(World(stream, s.cycles), c, s.consumer.rec.expected, |CycleFrames(World(stream, s.cycles), c)|))
    ensures Reaches(stream, limit, s, Built(stream, s, c)) && Built(stream, s, c).consumer.candidate.Some?
    ensures Build(Built(stream, s, c).consumer.rec).1.Some?
    ensures Build(Built(stream, s, c).consumer.rec).1.value.watermark == Mark(World(stream, s.cycles), c)
  {
    hide CycleFrames, Ingest, Build, WorldOk, Reaches, Body, Mark;
    var v, e := World(stream, s.cycles), s.consumer.rec.expected;
    MarkersAre(v, c);
    var n := |CycleFrames(v, c)|;
    FramesReached(stream, limit, s, c, n - 1);
    NotYet(v, c, e, n - 1);
    NextFrame(v, c, e, n - 1, limit);
    NowComplete(v, c, e);
    FrameReached(stream, limit, s, Holding(v, c, e, n - 1), c, n - 1);
    ReachesOn(stream, limit, s, Arrived(stream, s, c, n - 1), Built(stream, s, c));
  }

  lemma {:induction false} PathInv(stream: seq<Event>, limit: nat, path: seq<Sys>, i: nat)
    requires Path(stream, limit, path) && Inv(stream, path[0]) && Bounded(limit, path[0]) && i < |path|
    ensures Inv(stream, path[i]) && Bounded(limit, path[i])
  {
    hide Inv, Bounded, Enabled, Do;
    if i > 0 {
      PathInv(stream, limit, path, i - 1);
      assert Follows(stream, limit, path[i - 1], path[i - 1 + 1]);
      var a :| Enabled(stream, path[i - 1], a) && path[i] == Do(stream, limit, path[i - 1], a);
      StepKeeps(stream, limit, path[i - 1], a);
      StepBounded(stream, limit, path[i - 1], a);
    }
  }

  lemma ReachesInv(stream: seq<Event>, limit: nat, s: Sys, t: Sys)
    requires Reaches(stream, limit, s, t) && Inv(stream, s) && Bounded(limit, s)
    ensures Inv(stream, t) && Bounded(limit, t)
  {
    hide Inv, Bounded, Follows;
    var p :| Path(stream, limit, p) && p[0] == s && p[|p| - 1] == t;
    PathInv(stream, limit, p, |p| - 1);
  }

  /** What the exchange and the receiving thread hold; the engine's moves leave it alone. */
  ghost predicate SameButEngine(s: Sys, t: Sys) {
    && t.numbered == s.numbered && t.snapshotted == s.snapshotted && t.lastCycle == s.lastCycle && t.cycles == s.cycles
    && t.consumer == s.consumer
  }

  /** The engine finishes what it was about to do. */
  lemma Settles(stream: seq<Event>, limit: nat, s: Sys) returns (t: Sys)
    requires GenerationInv(s)
    ensures Reaches(stream, limit, s, t) && t.pc == Polling && SameButEngine(s, t)
  {
    hide Reaches;
    match s.pc
    case Polling =>
      t := s;
      ReachesSelf(stream, limit, s);
    case Storing(_) =>
      t := Do(stream, limit, s, StoreApplied);
      ReachesBy(stream, limit, s, StoreApplied);
    case Bumping =>
      t := Do(stream, limit, s, BumpGeneration);
      ReachesBy(stream, limit, s, BumpGeneration);
  }

  lemma {:induction false} Drained(s: Sys)
    ensures var d := Drain(s); d.queue == [] && d.pc == s.pc && SameButEngine(s, d)
    decreases |s.queue|
  {
    hide Accepts, EffectOn;
    if s.queue != [] { Drained(Turn(s)); }
  }

  /** The engine has worked off its queue; then the consumer goes stale and a new cycle is published. */
  ghost function Renewed(s: Sys): Sys { CyclePublished(Stale(Drain(s))) }

  lemma RenewedReached(stream: seq<Event>, limit: nat, s: Sys)
    requires Inv(stream, s) && s.pc == Polling
    ensures Reaches(stream, limit, s, Renewed(s))
  {
    hide Inv, Reaches, Drain, Stale;
    var d := Drain(s);
    DrainReached(stream, limit, s);
    ReachesBy(stream, limit, d, Fault);
    ReachesOn(stream, limit, s, d, Stale(d));
    ReachesBy(stream, limit, Stale(d), PublishSnapshot);
    ReachesOn(stream, limit, s, Stale(d), Renewed(s));
  }

  /** What a renewed client waits for. */
  lemma RenewedAwaits(stream: seq<Event>, limit: nat, s: Sys)
    requires Inv(stream, s) && s.consumer.rec.cycle <= s.lastCycle
    requires s.snapshotted <= |stream|
    requires SnapshotLength(BooksAt(stream, s.snapshotted)) <= limit
    ensures var t, c := Renewed(s), s.lastCycle + 1;
            && Awaits(stream, limit, t, c) && KeysOk(t.consumer.rec) && Mark(World(stream, t.cycles), c) == s.snapshotted
            && t.queue == [] && t.pc == s.pc && t.generation == t.consumer.observed && SameButEngine(s, Drain(s))
  {
    hide Drain, SnapshotLength, BooksAt, CycleFrames, GenuineStream, BooksInv, GenerationInv, GenuineSnapshot,
         GenuineIncrement, Build;
    Drained(s);
    CycleSize(World(stream, Renewed(s).cycles), s.lastCycle + 1);
  }

  /** Progress: from every state of every run, if the live orders of all tickers after the events the synthesizer
      has applied, with ten frames more, fit the recovery caches, there are steps to a state in which the market is
      ready, on exactly those books. */
  lemma ReadyIsReachable(stream: seq<Event>, limit: nat, run: seq<Sys>, i: nat)
    requires GenuineStream(stream) && IsRun(stream, limit, run) && i < |run|
    ensures run[i].snapshotted <= |stream|
    ensures SnapshotLength(BooksAt(stream, run[i].snapshotted)) <= limit <= ME_MAX_MARKET_UPDATES ==>
              exists t :: Reaches(stream, limit, run[i], t) && Ready(t) && t.books == BooksAt(stream, run[i].snapshotted)
  {
    hide IsRun, Bounded, SnapshotLength, BooksAt, Reaches, Ready, GenuineStream, ConsumerInv, BooksInv, GenerationInv;
    var s := run[i];
    RunInv(stream, limit, run, i);
    RunBounded(stream, limit, run, i);
    if SnapshotLength(BooksAt(stream, s.snapshotted)) <= limit <= ME_MAX_MARKET_UPDATES {
      ReadyFrom(stream, limit, s);
    }
  }

  lemma ReadyFrom(stream: seq<Event>, limit: nat, s: Sys)
    requires Inv(stream, s) && Bounded(limit, s) && s.snapshotted <= |stream|
    requires SnapshotLength(BooksAt(stream, s.snapshotted)) <= limit <= ME_MAX_MARKET_UPDATES
    ensures exists t :: Reaches(stream, limit, s, t) && Ready(t) && t.books == BooksAt(stream, s.snapshotted)
  {
    hide SnapshotLength, BooksAt, Reaches, Ready, Awaits, Mark, Renewed, Drain, Holding, Build, KeysOk, PublisherInv,
         ConsumerInv, BooksInv;
    var a := Settles(stream, limit, s);
    ReachesInv(stream, limit, s, a);
    RenewedReached(stream, limit, a);
    RenewedAwaits(stream, limit, a);
    var b, c := Renewed(a), a.lastCycle + 1;
    ReachesOn(stream, limit, s, a, b);
    BuiltReached(stream, limit, b, c);
    ReachesOn(stream, limit, s, b, Built(stream, b, c));
    ReachesInv(stream, limit, s, Built(stream, b, c));
    BatchReached(stream, limit, Built(stream, b, c));
    ReachesOn(stream, limit, s, Built(stream, b, c), Drain(PublishRecovery(Built(stream, b, c))));
  }
}
