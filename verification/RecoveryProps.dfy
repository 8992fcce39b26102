/**
 Recovery over genuine frames. Frames may be lost, repeated and reordered but not altered, and a cycle
 number names one publication. Every candidate batch then leads from any book state to an exact
 exchange state, and a candidate exists exactly when nothing needed is missing.
*/
module RecoveryProps {
  import opened Types
  import opened PriceBooks
  import opened Replay
  import opened MarketStream
  import opened BookHashes
  import opened RecoverySpec

  function Marker(kind: EventType, w: nat): Event {
    Event(kind, w, TICKER_ID_INVALID, Invalid, PRICE_INVALID, QTY_INVALID, PRIORITY_INVALID)
  }

  /** What `publishSnapshot` sends at watermark `w`. */
  function SnapshotEvents(w: nat, orders: OrdersByTicker): seq<Event> {
    [Marker(SnapshotStart, w)] + SnapshotFrom(orders, 0) + [Marker(SnapshotEnd, w)]
  }

  function SnapshotFrames(cycle: nat, w: nat, orders: OrdersByTicker): (r: seq<Update>)
    ensures |r| == |SnapshotEvents(w, orders)|
  {
    var es := SnapshotEvents(w, orders);
    var hash := BookHash(Flatten(orders, 0));
    seq(|es|, i requires 0 <= i < |es| => Update(i, es[i], cycle, w, hash))
  }

  /** The stream of exchange events, and the watermark of every snapshot cycle published so far. */
  datatype World = World(stream: seq<Event>, cycles: map<nat, nat>)

  ghost predicate WorldOk(v: World) {
    GenuineStream(v.stream) && forall c :: c in v.cycles ==> c > 0 && v.cycles[c] <= |v.stream|
  }

  predicate Published(v: World, c: nat) { c in v.cycles && v.cycles[c] <= |v.stream| }

  /** The watermark of cycle `c`. */
  function Mark(v: World, c: nat): (w: nat)
    ensures w <= |v.stream|
  {
    if Published(v, c) then v.cycles[c] else 0
  }

  /** The CLEAR and ADD events of cycle `c`. */
  function Body(v: World, c: nat): seq<Event> {
    SnapshotFrom(OrdersOf(BooksAt(v.stream, Mark(v, c))), 0)
  }

  function CycleFrames(v: World, c: nat): seq<Update> {
    SnapshotFrames(c, Mark(v, c), OrdersOf(BooksAt(v.stream, Mark(v, c))))
  }

  ghost predicate GenuineSnapshot(v: World, u: Update) {
    Published(v, u.cycle) && u.seqNum < |CycleFrames(v, u.cycle)| && u == CycleFrames(v, u.cycle)[u.seqNum]
  }

  ghost predicate GenuineIncrement(v: World, u: Update) {
    0 < u.seqNum <= |v.stream| && u.event == v.stream[u.seqNum - 1]
  }

  ghost predicate GenuineFrame(v: World, snapshot: bool, u: Update) {
    if snapshot then GenuineSnapshot(v, u) else GenuineIncrement(v, u)
  }

  /** The caches hold genuine frames, those of the snapshot cache all of the current cycle. */
  ghost predicate RecInv(v: World, s: Rec) {
    && KeysOk(s)
    && (forall k :: k in s.snapshot ==> GenuineSnapshot(v, s.snapshot[k]) && s.snapshot[k].cycle == s.cycle)
    && (forall k :: k in s.incremental ==> GenuineIncrement(v, s.incremental[k]))
    && 0 < s.expected <= |v.stream| + 1
  }

  // ------------------------------------------------------------------ preservation

  lemma EnterCycleKeeps(v: World, s: Rec, u: Update)
    requires RecInv(v, s) && GenuineSnapshot(v, u)
    ensures RecInv(v, EnterCycle(s, u))
    ensures u.cycle >= s.cycle ==> EnterCycle(s, u).cycle == u.cycle
    ensures EnterCycle(s, u).recovering == s.recovering
  {
    hide GenuineSnapshot, GenuineIncrement;
  }

  lemma StoreKeeps(v: World, s: Rec, snapshot: bool, u: Update, limit: nat)
    requires RecInv(v, s) && GenuineFrame(v, snapshot, u) && (snapshot ==> u.cycle == s.cycle)
    ensures RecInv(v, Store(s, snapshot, u, limit).0)
    ensures s.recovering ==> Store(s, snapshot, u, limit).0.recovering
  {
    hide GenuineSnapshot, GenuineIncrement;
  }

  lemma IngestKeeps(v: World, s: Rec, snapshot: bool, u: Update, limit: nat)
    requires RecInv(v, s) && GenuineFrame(v, snapshot, u)
    ensures RecInv(v, Ingest(s, snapshot, u, limit).0)
    ensures s.recovering ==> Ingest(s, snapshot, u, limit).0.recovering
  {
    hide RecInv, Store, EnterCycle, GenuineSnapshot, GenuineIncrement;
    if s.recovering && snapshot && u.cycle >= s.cycle {
      EnterCycleKeeps(v, s, u);
      StoreKeeps(v, EnterCycle(s, u), snapshot, u, limit);
    } else if s.recovering && !snapshot {
      StoreKeeps(v, s, snapshot, u, limit);
    }
  }

  /** After every ingest the caches hold no more than the limit allows. */
  lemma IngestBounded(s: Rec, snapshot: bool, u: Update, limit: nat)
    requires |s.snapshot| + |s.incremental| <= limit
    ensures var r := Ingest(s, snapshot, u, limit).0; |r.snapshot| + |r.incremental| <= limit
  {
    if s.recovering && snapshot && u.cycle > s.cycle {
      var kept := EnterCycle(s, u).incremental;
      SubsetSize(kept.Keys, s.incremental.Keys);
    }
  }

  // ------------------------------------------------------------------ the frames of one cycle

  predicate InSnapshot(e: Event) { (e.kind.Clear? || e.kind.Add?) && e.ticker < ME_MAX_TICKERS }

  ghost predicate AllInSnapshot(es: seq<Event>) { forall i :: 0 <= i < |es| ==> InSnapshot(es[i]) }

  lemma InSnapshotConcat(a: seq<Event>, b: seq<Event>)
    requires AllInSnapshot(a) && AllInSnapshot(b)
    ensures AllInSnapshot(a + b)
  {
  }

  lemma TickerKinds(t: TickerId, orders: map<OrderId, Order>)
    requires t < ME_MAX_TICKERS
    ensures AllInSnapshot([ClearEvent(t)]) && AllInSnapshot(LiveFrom(t, orders, 0))
  {
    hide LiveFrom;
    LiveTicker(t, orders, 0);
  }

  lemma {:induction false} SnapshotKinds(orders: OrdersByTicker, t: nat)
    requires t <= ME_MAX_TICKERS
    ensures AllInSnapshot(SnapshotFrom(orders, t))
    decreases ME_MAX_TICKERS - t
  {
    hide AllInSnapshot, SnapshotFrom, LiveFrom;
    SnapshotNext(orders, t);
    if t < ME_MAX_TICKERS {
      var live := LiveFrom(t, orders[t], 0);
      TickerKinds(t, orders[t]);
      SnapshotKinds(orders, t + 1);
      InSnapshotConcat([ClearEvent(t)], live);
      InSnapshotConcat([ClearEvent(t)] + live, SnapshotFrom(orders, t + 1));
    } else {
      NoneInSnapshot();
    }
  }

  lemma NoneInSnapshot()
    ensures AllInSnapshot([])
  {
  }

  /** Frame `i` of a cycle with this body: its number, the markers at the ends, the body between. */
  ghost predicate FrameShape(fs: seq<Update>, body: seq<Event>, i: nat) {
    && i < |fs| == |body| + 2
    && fs[i].seqNum == i
    && (0 < i < |fs| - 1 ==> fs[i].event == body[i - 1] && InSnapshot(fs[i].event))
    && (fs[i].event.kind.SnapshotEnd? <==> i == |fs| - 1)
    && (fs[i].event.kind.SnapshotStart? <==> i == 0)
  }

  lemma FramesShape(c: nat, w: nat, orders: OrdersByTicker, i: nat)
    requires i < |SnapshotFrames(c, w, orders)|
    ensures var fs := SnapshotFrames(c, w, orders);
            && |fs| == |SnapshotFrom(orders, 0)| + 2
            && FrameShape(fs, SnapshotFrom(orders, 0), i)
            && fs[i].watermark == w && fs[i].cycle == c && fs[i].hash == BookHash(Flatten(orders, 0))
  {
    hide BookHash, Flatten, SnapshotFrom;
    SnapshotKinds(orders, 0);
  }

  lemma FrameIs(v: World, c: nat, i: nat)
    requires i < |CycleFrames(v, c)|
    ensures FrameShape(CycleFrames(v, c), Body(v, c), i)
    ensures CycleFrames(v, c)[i].watermark == Mark(v, c) && CycleFrames(v, c)[i].cycle == c
    ensures CycleFrames(v, c)[i].hash == BookHash(Flatten(OrdersOf(BooksAt(v.stream, Mark(v, c))), 0))
    ensures |CycleFrames(v, c)| == |Body(v, c)| + 2
  {
    hide BookHash, Flatten, SnapshotFrom, SnapshotFrames, OrdersOf, BooksAt, FrameShape;
    FramesShape(c, Mark(v, c), OrdersOf(BooksAt(v.stream, Mark(v, c))), i);
  }

  /** The snapshot cache holds every frame of its cycle. */
  ghost predicate CycleHeld(v: World, s: Rec) {
    Published(v, s.cycle) && forall i :: 0 <= i < |CycleFrames(v, s.cycle)| ==> i in s.snapshot
  }

  lemma FrameHeld(v: World, s: Rec, k: nat)
    requires RecInv(v, s) && k in s.snapshot
    ensures Published(v, s.cycle) && k < |CycleFrames(v, s.cycle)| && s.snapshot[k] == CycleFrames(v, s.cycle)[k]
    ensures FrameShape(CycleFrames(v, s.cycle), Body(v, s.cycle), k)
    ensures s.snapshot[k].watermark == Mark(v, s.cycle)
  {
    hide CycleFrames, Body;
    assert GenuineSnapshot(v, s.snapshot[k]);
    FrameIs(v, s.cycle, k);
  }

  /** A walk appends exactly the events of the frames it passes, the markers apart. */
  lemma {:induction false} WalkEvents(frames: map<nat, Update>, fs: seq<Update>, body: seq<Event>, i: nat,
                                      h: Head, w: Walk, r: Walk)
    requires forall j :: i <= j < |fs| ==> j in frames && frames[j] == fs[j] && FrameShape(fs, body, j)
    requires |fs| == |body| + 2 && h.last == |fs| - 1
    requires 0 < i <= h.last && WalkFrames(frames, i, h, w) == Some(r)
    ensures r.events == w.events + body[i - 1..]
    decreases h.last + 1 - i
  {
    hide ApplyTo;
    assert FrameShape(fs, body, i);
    var next := WalkFrame(i, frames[i], h, w).value;
    if i < h.last {
      WalkEvents(frames, fs, body, i + 1, h, next, r);
      assert body[i - 1..] == [body[i - 1]] + body[i..];
    }
  }

  /** A walk over the increments appends exactly the next events of the stream, and leaves none out. */
  lemma {:induction false} TailEvents(v: World, m: map<nat, Update>, t: Tail, r: Tail)
    requires forall k :: k in m ==> m[k].seqNum == k && GenuineIncrement(v, m[k])
    requires 0 < t.next <= |v.stream| + 1 && WalkTail(m, t.next - 1, t) == Some(r)
    ensures t.next <= r.next <= |v.stream| + 1
    ensures r.events == t.events + v.stream[t.next - 1..r.next - 1]
    ensures forall k :: k in m ==> k < r.next
    ensures forall k :: t.next <= k < r.next ==> k in m
    decreases KeysFrom(m, t.next - 1)
  {
    hide ApplyTo;
    var n := NextKey(m, t.next - 1);
    if n.Some? {
      var k := n.value;
      var os := ApplyTo(t.orders, m[k].event);
      assert k in KeysFrom(m, t.next - 1) && k !in KeysFrom(m, k);
      var t' := Tail(t.next + 1, os.value, t.events + [m[k].event]);
      TailEvents(v, m, t', r);
      assert v.stream[t.next - 1..r.next - 1] == [v.stream[t.next - 1]] + v.stream[t.next..r.next - 1];
    }
  }

  // ------------------------------------------------------------------ soundness of candidates

  /** What a candidate batch stands for: the whole snapshot of the current cycle, then the stream. */
  ghost predicate BatchIs(v: World, s: Rec, b: Batch) {
    && Published(v, s.cycle) && Mark(v, s.cycle) <= b.watermark <= |v.stream|
    && b.events == Body(v, s.cycle) + v.stream[Mark(v, s.cycle)..b.watermark]
  }

  /** No increment above the snapshot is missing below the batch's end, and none is left above it. */
  ghost predicate Covers(s: Rec, from: nat, b: Batch) {
    && (forall k :: k in s.incremental ==> k <= b.watermark)
    && (forall k :: from < k <= b.watermark ==> k in s.incremental)
  }

  /** A candidate is a whole snapshot of the current cycle followed by the stream, up to the last cached
      increment: committing it discards nothing that it does not contain. */
  lemma BuildIs(v: World, s: Rec)
    requires RecInv(v, s) && Build(s).1.Some?
    ensures BatchIs(v, s, Build(s).1.value) && Covers(s, Mark(v, s.cycle), Build(s).1.value)
    ensures CycleHeld(v, s) && !s.invalidCycle && Build(s).0 == s
  {
    hide Body, CycleFrames, GenuineSnapshot;
    var hi := BuildEnds(s);
    FrameHeld(v, s, hi);
    BuildFromIs(v, s, hi);
  }

  /** A successful build had all frames from 0 to the last. */
  lemma BuildEnds(s: Rec) returns (hi: nat)
    requires KeysOk(s) && Build(s).1.Some?
    ensures forall j :: 0 <= j <= hi ==> j in s.snapshot
    ensures s.snapshot[hi].event.kind.SnapshotEnd? && !s.invalidCycle
    ensures Build(s) == BuildFrom(s, hi)
  {
    hide BuildFrom;
    EndsExist(s.snapshot);
    var lo: nat, h: nat :| Ends(s.snapshot, lo, h);
    hi := h;
    RangeFull(s.snapshot, |s.snapshot|);
  }

  lemma BuildFromIs(v: World, s: Rec, hi: nat)
    requires RecInv(v, s) && CycleHeld(v, s) && hi == |CycleFrames(v, s.cycle)| - 1
    requires (forall j :: 0 <= j <= hi ==> j in s.snapshot) && BuildFrom(s, hi).1.Some?
    ensures BatchIs(v, s, BuildFrom(s, hi).1.value)
    ensures Covers(s, Mark(v, s.cycle), BuildFrom(s, hi).1.value)
    ensures BuildFrom(s, hi).0 == s
  {
    hide Body, CycleFrames, GenuineSnapshot, BookHash, Flatten, FrameShape;
    var fs, body, wm := CycleFrames(v, s.cycle), Body(v, s.cycle), Mark(v, s.cycle);
    forall j | 0 <= j < |fs| ensures s.snapshot[j] == fs[j] && FrameShape(fs, body, j) { FrameHeld(v, s, j); }
    FrameIs(v, s.cycle, 0);
    FrameHeld(v, s, 0);
    var h := Head(s.cycle, wm, s.snapshot[0].hash, hi);
    var w0 := Walk({}, NO_ORDERS, []);
    var w := WalkFrames(s.snapshot, 0, h, w0).value;
    assert WalkFrames(s.snapshot, 1, h, w0) == Some(w);
    WalkEvents(s.snapshot, fs, body, 1, h, w0, w);
    assert w.events == body;
    var t := Tail(wm + 1, w.orders, w.events);
    TailEvents(v, s.incremental, t, WalkTail(s.incremental, wm, t).value);
  }

  /** Replaying a candidate from any client state yields the exchange state at its watermark. */
  lemma BuildRecovers(v: World, s: Rec, bs: Books)
    requires WorldOk(v) && RecInv(v, s) && Build(s).1.Some?
    ensures var b := Build(s).1.value;
            b.watermark <= |v.stream| && Replayed(bs, b.events) == BooksAt(v.stream, b.watermark)
  {
    hide Build, CycleHeld, GenuineSnapshot;
    BuildIs(v, s);
    var b, w := Build(s).1.value, Mark(v, s.cycle);
    StreamIndexed(v.stream, w);
    SnapshotRebuilds(bs, BooksAt(v.stream, w), 0);
    ReplayedStream(v.stream, w, b.watermark);
    ReplayedConcat(bs, Body(v, s.cycle), v.stream[w..b.watermark]);
  }
}
