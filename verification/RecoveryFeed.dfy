/**
 The recovering receiver over any reception: whatever the order and the repeats, nothing that is needed is lost,
 and a batch is ready exactly when all frames of the newest cycle received and a gapless run of increments above
 its watermark have arrived.
*/
module RecoveryFeed {
  import opened Types
  import opened PriceBooks
  import opened Replay
  import opened MarketStream
  import opened BookHashes
  import opened RecoverySpec
  import opened RecoveryProps
  import opened RecoveryComplete
  import opened Protocol
  import opened LiveFeed

  /** A frame and the channel it came on. */
  datatype Arrival = Arrival(snapshot: bool, frame: Update)

  ghost predicate AllGenuine(v: World, fs: seq<Arrival>) {
    forall i :: 0 <= i < |fs| ==> GenuineFrame(v, fs[i].snapshot, fs[i].frame)
  }

  /** The newest of a cycle known before and those received. */
  function Newest(c: nat, fs: seq<Arrival>): nat {
    if fs == [] then c
    else
      var m, f := Newest(c, fs[..|fs| - 1]), fs[|fs| - 1];
      if f.snapshot && f.frame.cycle > m then f.frame.cycle else m
  }

  ghost predicate HasIncrement(fs: seq<Arrival>, k: nat) {
    exists i :: 0 <= i < |fs| && !fs[i].snapshot && fs[i].frame.seqNum == k
  }

  ghost predicate HasFrame(fs: seq<Arrival>, c: nat, k: nat) {
    exists i :: 0 <= i < |fs| && fs[i].snapshot && fs[i].frame.cycle == c && fs[i].frame.seqNum == k
  }

  // ------------------------------------------------------------------ genuine frames never void a cycle

  lemma BuildFromStays(v: World, r: Rec, last: nat)
    requires WorldOk(v) && RecInv(v, r) && CycleHeld(v, r) && last == |Body(v, r.cycle)| + 1
    requires forall j :: 0 <= j <= last ==> j in r.snapshot
    ensures BuildFrom(r, last).0 == r
  {
    hide CycleFrames, GenuineSnapshot, BookHash, Flatten, FrameShape, BooksAt, WalkFrames, WalkTail, Body, NextKey,
         OrdersOf, GenuineIncrement;
    MarkersAre(v, r.cycle);
    FrameIs(v, r.cycle, 0);
    FrameHeld(v, r, 0);
    var os := OrdersOf(BooksAt(v.stream, Mark(v, r.cycle)));
    WalkSucceeds(v, r, Head(r.cycle, Mark(v, r.cycle), BookHash(Flatten(os, 0)), last), os);
  }

  /** Two ends that are the right markers agree, and nothing is missing between them. */
  lemma EndsAgree(v: World, r: Rec, hi: nat)
    requires RecInv(v, r) && Ends(r.snapshot, 0, hi) && r.snapshot[hi].event.kind.SnapshotEnd?
    ensures var first, last := r.snapshot[0], r.snapshot[hi];
            && last.watermark == first.watermark == first.event.orderId == last.event.orderId && first.hash == last.hash
            && hi == |Body(v, r.cycle)| + 1
    ensures hi == |r.snapshot| - 1 ==> CycleHeld(v, r) && forall j :: 0 <= j <= hi ==> j in r.snapshot
  {
    hide CycleFrames, GenuineSnapshot, GenuineIncrement, Body;
    FrameHeld(v, r, 0);
    FrameHeld(v, r, hi);
    EndFrames(v, r.cycle);
    MarkersAre(v, r.cycle);
    if hi == |r.snapshot| - 1 { RangeFull(r.snapshot, hi + 1); }
  }

  lemma GenuineStays(v: World, r: Rec)
    requires WorldOk(v) && RecInv(v, r)
    ensures Build(r).0 == r
  {
    hide GenuineSnapshot, GenuineIncrement, BuildFrom, Body, CycleHeld;
    if Build(r).0 != r {
      EndsExist(r.snapshot);
      var lo: nat, hi: nat :| Ends(r.snapshot, lo, hi);
      forall x: nat, y: nat | Ends(r.snapshot, x, y) ensures x == lo && y == hi { EndsUnique(r.snapshot, x, y, lo, hi); }
      if lo == 0 && r.snapshot[hi].event.kind.SnapshotEnd? {
        EndsAgree(v, r, hi);
        if hi == |r.snapshot| - 1 { BuildFromStays(v, r, hi); }
      }
    }
  }

  // ------------------------------------------------------------------ what is held

  /** Later cycles are taken of later states. */
  ghost predicate MarksGrow(v: World) {
    forall c, d :: c in v.cycles && d in v.cycles && c < d ==> v.cycles[c] <= v.cycles[d]
  }

  ghost predicate IncrementKept(v: World, c0: nat, fs: seq<Arrival>, r: Rec, k: nat) {
    && (k in r.incremental ==> HasIncrement(fs, k))
    && (HasIncrement(fs, k) && (r.cycle > c0 ==> k > Mark(v, r.cycle)) ==> k in r.incremental)
  }

  ghost predicate FrameKept(c0: nat, fs: seq<Arrival>, r: Rec, k: nat) {
    r.cycle > c0 ==> (k in r.snapshot <==> HasFrame(fs, r.cycle, k))
  }

  /** What a receiver that restarted in cycle `c0` holds after the frames `fs`. */
  ghost predicate Kept(v: World, c0: nat, fs: seq<Arrival>, r: Rec) {
    && r.recovering && r.cycle == Newest(c0, fs) >= c0
    && (r.cycle == c0 ==> r.invalidCycle && r.snapshot == map[])
    && (r.cycle > c0 ==> Published(v, r.cycle) && !r.invalidCycle)
    && (forall k: nat :: FrameKept(c0, fs, r, k))
    && (forall k: nat :: IncrementKept(v, c0, fs, r, k))
    && Cached(r) <= |fs|
  }

  lemma MoreIncrements(fs: seq<Arrival>, f: Arrival, k: nat)
    ensures HasIncrement(fs + [f], k) <==> HasIncrement(fs, k) || (!f.snapshot && f.frame.seqNum == k)
  {
    var gs := fs + [f];
    if i :| 0 <= i < |fs| && !fs[i].snapshot && fs[i].frame.seqNum == k { assert gs[i] == fs[i]; }
    if !f.snapshot && f.frame.seqNum == k { assert gs[|fs|] == f; }
  }

  lemma MoreFrames(fs: seq<Arrival>, f: Arrival, c: nat, k: nat)
    ensures HasFrame(fs + [f], c, k) <==>
              HasFrame(fs, c, k) || (f.snapshot && f.frame.cycle == c && f.frame.seqNum == k)
  {
    var gs := fs + [f];
    if i :| 0 <= i < |fs| && fs[i].snapshot && fs[i].frame.cycle == c && fs[i].frame.seqNum == k { assert gs[i] == fs[i]; }
    if f.snapshot && f.frame.cycle == c && f.frame.seqNum == k { assert gs[|fs|] == f; }
  }

  lemma NewestMore(c: nat, fs: seq<Arrival>, f: Arrival)
    ensures Newest(c, fs + [f]) == if f.snapshot && f.frame.cycle > Newest(c, fs) then f.frame.cycle else Newest(c, fs)
  {
    assert (fs + [f])[..|fs|] == fs;
  }

  /** No frame of a cycle newer than all received has been received. */
  lemma {:induction false} NewestBounds(c: nat, fs: seq<Arrival>, d: nat, k: nat)
    requires HasFrame(fs, d, k)
    ensures d <= Newest(c, fs)
    decreases |fs|
  {
    var front, f := fs[..|fs| - 1], fs[|fs| - 1];
    assert fs == front + [f];
    MoreFrames(front, f, d, k);
    NewestMore(c, front, f);
    if HasFrame(front, d, k) { NewestBounds(c, front, d, k); }
  }

  /** A genuine increment is cached, unless it already is. */
  lemma IncrementEnters(v: World, r: Rec, u: Update, limit: nat)
    requires RecInv(v, r) && r.recovering && GenuineIncrement(v, u) && Cached(r) < limit
    ensures var r' := Ingest(r, false, u, limit).0;
            && r' == (if u.seqNum in r.incremental then r else r.(incremental := r.incremental[u.seqNum := u]))
            && Cached(r') <= Cached(r) + 1
  {
    hide GenuineSnapshot;
    if u.seqNum !in r.incremental {
      assert r.incremental[u.seqNum := u].Keys == r.incremental.Keys + {u.seqNum};
      assert |r.incremental[u.seqNum := u].Keys| == |r.incremental[u.seqNum := u]|;
    }
  }

  lemma IncrementHeld(v: World, c0: nat, fs: seq<Arrival>, r: Rec, u: Update, limit: nat)
    requires RecInv(v, r) && Kept(v, c0, fs, r) && GenuineIncrement(v, u) && |fs| < limit
    ensures Kept(v, c0, fs + [Arrival(false, u)], Ingest(r, false, u, limit).0)
  {
    hide RecInv, GenuineIncrement, HasIncrement, HasFrame, Newest, Mark, Ingest, Cached, Published;
    var gs, r' := fs + [Arrival(false, u)], Ingest(r, false, u, limit).0;
    IncrementEnters(v, r, u, limit);
    NewestMore(c0, fs, Arrival(false, u));
    forall k: nat ensures FrameKept(c0, gs, r', k) && IncrementKept(v, c0, gs, r', k) {
      assert FrameKept(c0, fs, r, k) && IncrementKept(v, c0, fs, r, k);
      MoreIncrements(fs, Arrival(false, u), k);
      MoreFrames(fs, Arrival(false, u), r.cycle, k);
    }
  }

  lemma OneFrame(v: World, x: Update, y: Update)
    requires GenuineSnapshot(v, x) && GenuineSnapshot(v, y) && x.cycle == y.cycle && x.seqNum == y.seqNum
    ensures x == y
  {
    hide CycleFrames;
  }

  lemma NotEntered(r: Rec, u: Update)
    requires u.cycle <= r.cycle
    ensures EnterCycle(r, u) == r
  {
  }

  lemma StoreFresh(r: Rec, u: Update, limit: nat)
    requires u.seqNum !in r.snapshot && Cached(r) < limit
    ensures var r' := Store(r, true, u, limit).0;
            r' == r.(snapshot := r.snapshot[u.seqNum := u]) && Cached(r') <= Cached(r) + 1
  {
    assert r.snapshot[u.seqNum := u].Keys == r.snapshot.Keys + {u.seqNum};
    assert |r.snapshot[u.seqNum := u].Keys| == |r.snapshot[u.seqNum := u]|;
  }

  lemma StoreHeld(r: Rec, u: Update, limit: nat)
    requires u.seqNum in r.snapshot && r.snapshot[u.seqNum] == u
    ensures Store(r, true, u, limit).0 == r
  {
  }

  /** A genuine frame of the current cycle is cached, unless it already is. */
  lemma FrameEnters(v: World, r: Rec, u: Update, limit: nat)
    requires RecInv(v, r) && r.recovering && GenuineSnapshot(v, u) && u.cycle == r.cycle > 0 && !r.invalidCycle
    requires Cached(r) < limit
    ensures var r' := Ingest(r, true, u, limit).0;
            && r' == (if u.seqNum in r.snapshot then r else r.(snapshot := r.snapshot[u.seqNum := u]))
            && Cached(r') <= Cached(r) + 1
  {
    hide GenuineIncrement, GenuineSnapshot, EnterCycle, Store, Cached;
    NotEntered(r, u);
    if u.seqNum !in r.snapshot {
      StoreFresh(r, u, limit);
    } else {
      OneFrame(v, u, r.snapshot[u.seqNum]);
      StoreHeld(r, u, limit);
    }
  }

  lemma FrameCached(v: World, c0: nat, fs: seq<Arrival>, r: Rec, u: Update, limit: nat)
    requires RecInv(v, r) && Kept(v, c0, fs, r) && GenuineSnapshot(v, u) && u.cycle == r.cycle > c0 && |fs| < limit
    ensures Kept(v, c0, fs + [Arrival(true, u)], Ingest(r, true, u, limit).0)
  {
    hide RecInv, GenuineSnapshot, HasIncrement, HasFrame, Newest, Mark, Ingest, Cached, Published;
    var gs, r' := fs + [Arrival(true, u)], Ingest(r, true, u, limit).0;
    FrameEnters(v, r, u, limit);
    NewestMore(c0, fs, Arrival(true, u));
    forall k: nat ensures FrameKept(c0, gs, r', k) && IncrementKept(v, c0, gs, r', k) {
      assert FrameKept(c0, fs, r, k) && IncrementKept(v, c0, fs, r, k);
      MoreIncrements(fs, Arrival(true, u), k);
      MoreFrames(fs, Arrival(true, u), r.cycle, k);
    }
  }

  /** An older frame, or one of the cycle voided by the restart, is ignored. */
  lemma FrameIgnored(v: World, c0: nat, fs: seq<Arrival>, r: Rec, u: Update, limit: nat)
    requires Kept(v, c0, fs, r) && (u.cycle < r.cycle || u.cycle == r.cycle == c0)
    ensures Kept(v, c0, fs + [Arrival(true, u)], Ingest(r, true, u, limit).0)
  {
    hide HasIncrement, HasFrame, Newest, Mark, Published;
    var gs, r' := fs + [Arrival(true, u)], Ingest(r, true, u, limit).0;
    assert r' == r;
    NewestMore(c0, fs, Arrival(true, u));
    forall k: nat ensures FrameKept(c0, gs, r', k) && IncrementKept(v, c0, gs, r', k) {
      assert FrameKept(c0, fs, r, k) && IncrementKept(v, c0, fs, r, k);
      MoreIncrements(fs, Arrival(true, u), k);
      MoreFrames(fs, Arrival(true, u), r.cycle, k);
    }
  }

  /** The first frame of a newer cycle replaces the older cycle and outdates the increments it covers. */
  lemma CycleEnters(v: World, r: Rec, u: Update, limit: nat)
    requires RecInv(v, r) && r.recovering && GenuineSnapshot(v, u) && u.cycle > r.cycle && Cached(r) < limit
    ensures var r' := Ingest(r, true, u, limit).0;
            && r'.recovering && r'.cycle == u.cycle && !r'.invalidCycle && r'.snapshot == map[u.seqNum := u]
            && (forall k :: k in r'.incremental <==> k in r.incremental && k > Mark(v, u.cycle))
            && Cached(r') <= Cached(r) + 1
  {
    hide GenuineIncrement, CycleFrames;
    assert u.watermark == Mark(v, u.cycle) by { WatermarkIs(v, u); }
    var kept := map k | k in r.incremental && k > u.watermark :: r.incremental[k];
    SubsetSize(kept.Keys, r.incremental.Keys);
    assert |kept.Keys| == |kept|;
    assert map[u.seqNum := u].Keys == {u.seqNum} && |map[u.seqNum := u]| == |{u.seqNum}| == 1;
    var empty: map<nat, Update> := map[];
    assert empty[u.seqNum := u] == map[u.seqNum := u];
  }

  lemma WatermarkIs(v: World, u: Update)
    requires GenuineSnapshot(v, u)
    ensures u.watermark == Mark(v, u.cycle) && Published(v, u.cycle)
  {
    hide CycleFrames, Mark, FrameShape;
    FrameIs(v, u.cycle, u.seqNum);
  }

  lemma CycleCached(v: World, c0: nat, fs: seq<Arrival>, r: Rec, u: Update, limit: nat)
    requires RecInv(v, r) && MarksGrow(v) && Kept(v, c0, fs, r) && GenuineSnapshot(v, u) && u.cycle > r.cycle && |fs| < limit
    ensures Kept(v, c0, fs + [Arrival(true, u)], Ingest(r, true, u, limit).0)
  {
    hide RecInv, GenuineSnapshot, HasIncrement, HasFrame, Newest, Ingest, Cached;
    var gs, r' := fs + [Arrival(true, u)], Ingest(r, true, u, limit).0;
    CycleEnters(v, r, u, limit);
    WatermarkIs(v, u);
    NewestMore(c0, fs, Arrival(true, u));
    forall k: nat ensures FrameKept(c0, gs, r', k) && IncrementKept(v, c0, gs, r', k) {
      assert IncrementKept(v, c0, fs, r, k);
      MoreIncrements(fs, Arrival(true, u), k);
      MoreFrames(fs, Arrival(true, u), u.cycle, k);
      if HasFrame(fs, u.cycle, k) { NewestBounds(c0, fs, u.cycle, k); }
    }
  }

  // ------------------------------------------------------------------ any reception

  /** The receiver after one frame after another, looking for a batch each time as the source does. */
  ghost function Received(r: Rec, fs: seq<Arrival>, limit: nat): Rec
    decreases |fs|
  {
    if fs == [] then r
    else
      var s, f := Received(r, fs[..|fs| - 1], limit), fs[|fs| - 1];
      var t := Ingest(s, f.snapshot, f.frame, limit).0;
      if KeysOk(t) then Build(t).0 else t
  }

  /** Just restarted, in whatever cycle it was. */
  predicate Restarted(r: Rec) { r.recovering && r.invalidCycle && r.snapshot == map[] && r.incremental == map[] }

  lemma NothingKept(v: World, r: Rec)
    requires Restarted(r)
    ensures Kept(v, r.cycle, [], r)
  {
  }

  lemma ArrivalKept(v: World, c0: nat, fs: seq<Arrival>, r: Rec, f: Arrival, limit: nat)
    requires RecInv(v, r) && MarksGrow(v) && Kept(v, c0, fs, r) && |fs| < limit
    requires GenuineFrame(v, f.snapshot, f.frame)
    ensures Kept(v, c0, fs + [f], Ingest(r, f.snapshot, f.frame, limit).0)
  {
    assert r.cycle >= c0;
    hide RecInv, Kept, GenuineSnapshot, GenuineIncrement, Ingest, MarksGrow;
    if !f.snapshot {
      IncrementHeld(v, c0, fs, r, f.frame, limit);
    } else if f.frame.cycle > r.cycle {
      CycleCached(v, c0, fs, r, f.frame, limit);
    } else if f.frame.cycle == r.cycle > c0 {
      FrameCached(v, c0, fs, r, f.frame, limit);
    } else {
      FrameIgnored(v, c0, fs, r, f.frame, limit);
    }
  }

  /** Nothing received is lost but what is outdated: whatever genuine frames arrive after a restart, in any order and
      any number of times, as long as they do not outnumber the limit. */
  lemma {:induction false} NothingReceivedIsLost(v: World, r: Rec, fs: seq<Arrival>, limit: nat)
    requires WorldOk(v) && MarksGrow(v) && RecInv(v, r) && Restarted(r) && AllGenuine(v, fs) && |fs| <= limit
    ensures RecInv(v, Received(r, fs, limit)) && Kept(v, r.cycle, fs, Received(r, fs, limit))
    ensures Received(r, fs, limit).expected == r.expected
    decreases |fs|
  {
    hide RecInv, Kept, GenuineSnapshot, GenuineIncrement, Ingest, Build, MarksGrow, WorldOk;
    if fs == [] {
      NothingKept(v, r);
    } else {
      var front, f := fs[..|fs| - 1], fs[|fs| - 1];
      NothingReceivedIsLost(v, r, front, limit);
      var s := Received(r, front, limit);
      ArrivalKept(v, r.cycle, front, s, f, limit);
      assert front + [f] == fs;
      IngestKeeps(v, s, f.snapshot, f.frame, limit);
      IngestExpects(s, f, limit);
      RecInvKeys(v, Ingest(s, f.snapshot, f.frame, limit).0);
      GenuineStays(v, Ingest(s, f.snapshot, f.frame, limit).0);
    }
  }

  lemma IngestExpects(r: Rec, f: Arrival, limit: nat)
    ensures Ingest(r, f.snapshot, f.frame, limit).0.expected == r.expected
  {
  }

  lemma RecInvKeys(v: World, r: Rec)
    requires RecInv(v, r)
    ensures KeysOk(r)
  {
  }

  // ------------------------------------------------------------------ and when there is a batch

  /** All frames of the cycle have been received. */
  ghost predicate WholeCycle(v: World, fs: seq<Arrival>, c: nat) {
    forall k: nat :: k < |CycleFrames(v, c)| ==> HasFrame(fs, c, k)
  }

  /** Of the increments above `w`, those received are all up to some number. */
  ghost predicate Gapless(fs: seq<Arrival>, w: nat) {
    exists n: nat :: n >= w && ReceivedUpTo(fs, w, n)
  }

  ghost predicate ReceivedUpTo(fs: seq<Arrival>, w: nat, n: nat) {
    forall k: nat :: k > w ==> (HasIncrement(fs, k) <==> k <= n)
  }

  lemma CycleHeldWhen(v: World, c0: nat, fs: seq<Arrival>, r: Rec)
    requires RecInv(v, r) && Kept(v, c0, fs, r) && r.cycle > c0
    ensures CycleHeld(v, r) <==> WholeCycle(v, fs, r.cycle)
  {
    hide RecInv, HasFrame, HasIncrement, CycleFrames, Newest, Mark, Cached;
    if CycleHeld(v, r) {
      forall k: nat | k < |CycleFrames(v, r.cycle)| ensures HasFrame(fs, r.cycle, k) { assert FrameKept(c0, fs, r, k); }
    }
    if WholeCycle(v, fs, r.cycle) {
      forall i: nat | i < |CycleFrames(v, r.cycle)| ensures i in r.snapshot { assert FrameKept(c0, fs, r, i); }
    }
  }

  lemma NoGapWhen(v: World, c0: nat, fs: seq<Arrival>, r: Rec)
    requires Kept(v, c0, fs, r) && r.cycle > c0
    ensures NoGap(r, Mark(v, r.cycle)) <==> Gapless(fs, Mark(v, r.cycle))
  {
    hide HasFrame, HasIncrement, Newest, Mark, Cached;
    var w := Mark(v, r.cycle);
    forall k: nat | k > w ensures k in r.incremental <==> HasIncrement(fs, k) { assert IncrementKept(v, c0, fs, r, k); }
    if n :| n >= w && HeldUpTo(r, w, n) { assert ReceivedUpTo(fs, w, n); }
    if n: nat :| n >= w && ReceivedUpTo(fs, w, n) { assert HeldUpTo(r, w, n); }
  }

  /** Recovery succeeds exactly when it can. After a restart, whatever genuine frames arrive, in any order, with any
      losses and repeats, within the limit: there is a batch if and only if a newer cycle has arrived, the newest of
      those has arrived whole, and the increments received above its watermark have no gap. */
  lemma BatchExactlyWhen(v: World, r: Rec, fs: seq<Arrival>, limit: nat)
    requires WorldOk(v) && MarksGrow(v) && RecInv(v, r) && Restarted(r) && AllGenuine(v, fs) && |fs| <= limit
    ensures KeysOk(Received(r, fs, limit))
    ensures var c := Newest(r.cycle, fs);
            Build(Received(r, fs, limit)).1.Some? <==> c > r.cycle && WholeCycle(v, fs, c) && Gapless(fs, Mark(v, c))
  {
    hide Received, Build, RecInv, Gapless, WholeCycle, NoGap, CycleHeld, GenuineSnapshot, GenuineIncrement, HasFrame,
         HasIncrement, FrameKept, IncrementKept, MarksGrow, AllGenuine;
    NothingReceivedIsLost(v, r, fs, limit);
    var s := Received(r, fs, limit);
    RecInvKeys(v, s);
    BuildExactlyWhen(v, s);
    if s.cycle > r.cycle {
      CycleHeldWhen(v, r.cycle, fs, s);
      NoGapWhen(v, r.cycle, fs, s);
    }
  }

  // ------------------------------------------------------------------ in the protocol

  lemma StepMarks(stream: seq<Event>, limit: nat, s: Sys, a: Step)
    requires Inv(stream, s) && Enabled(stream, s, a) && MarksGrow(World(stream, s.cycles))
    ensures MarksGrow(World(stream, Do(stream, limit, s, a).cycles))
  {
    hide ConsumerInv, GenerationInv, BooksInv, GenuineStream, GenuineFrame, KeysOk;
  }

  lemma {:induction false} RunMarks(stream: seq<Event>, limit: nat, run: seq<Sys>, i: nat)
    requires GenuineStream(stream) && IsRun(stream, limit, run) && i < |run|
    ensures MarksGrow(World(stream, run[i].cycles))
  {
    hide Inv, Enabled, Do;
    if i > 0 {
      RunMarks(stream, limit, run, i - 1);
      RunInv(stream, limit, run, i - 1);
      assert Follows(stream, limit, run[i - 1], run[i]);
      var a :| Enabled(stream, run[i - 1], a) && run[i] == Do(stream, limit, run[i - 1], a);
      StepMarks(stream, limit, run[i - 1], a);
    }
  }

  ghost predicate OnlyFrames(steps: seq<Step>) { forall i :: 0 <= i < |steps| ==> steps[i].Receive? }

  /** The frames that the steps deliver. */
  function Delivered(steps: seq<Step>, n: nat): (fs: seq<Arrival>)
    requires n <= |steps|
    ensures |fs| <= n
  {
    if n == 0 then []
    else
      Delivered(steps, n - 1)
      + (if steps[n - 1].Receive? then [Arrival(steps[n - 1].snapshot, steps[n - 1].frame)] else [])
  }

  /** A consumer that has just restarted under the current generation, with nothing to publish. */
  predicate Fresh(s: Sys) { Restarted(s.consumer.rec) && s.consumer.candidate.None? }

  /** Where the consumer stands after the frames `fs`. */
  ghost predicate StandsAt(limit: nat, s: Sys, t: Sys, fs: seq<Arrival>) {
    && t.cycles == s.cycles && t.consumer.rec == Received(s.consumer.rec, fs, limit) && KeysOk(t.consumer.rec)
    && t.generation == s.generation && t.consumer.observed == s.consumer.observed
    && (t.consumer.candidate.Some? <==> Build(t.consumer.rec).1.Some?)
  }

  /** One more frame at a recovering consumer. */
  lemma FrameTaken(stream: seq<Event>, limit: nat, s: Sys, t: Sys, fs: seq<Arrival>, snapshot: bool, u: Update, full: bool)
    requires StandsAt(limit, s, t, fs) && t.consumer.rec.recovering && Enabled(stream, t, Receive(snapshot, u, full))
    requires WorldOk(World(stream, s.cycles)) && RecInv(World(stream, s.cycles), t.consumer.rec)
    ensures StandsAt(limit, s, Do(stream, limit, t, Receive(snapshot, u, full)), fs + [Arrival(snapshot, u)])
  {
    hide Ingest, Build, GenuineSnapshot, GenuineIncrement, KeysOk;
    var v, r := World(stream, s.cycles), t.consumer.rec;
    var gs := fs + [Arrival(snapshot, u)];
    assert gs[..|gs| - 1] == fs;
    IngestKeeps(v, r, snapshot, u, limit);
    RecInvKeys(v, Ingest(r, snapshot, u, limit).0);
    GenuineStays(v, Ingest(r, snapshot, u, limit).0);
  }

  lemma {:induction false} FramesTaken(stream: seq<Event>, limit: nat, path: seq<Sys>, steps: seq<Step>, n: nat)
    requires Trail(stream, limit, path, steps) && OnlyFrames(steps) && n <= |steps|
    requires Inv(stream, path[0]) && Fresh(path[0]) && MarksGrow(World(stream, path[0].cycles)) && n <= limit
    ensures Inv(stream, path[n]) && StandsAt(limit, path[0], path[n], Delivered(steps, n))
    ensures AllGenuine(World(stream, path[0].cycles), Delivered(steps, n)) && |Delivered(steps, n)| <= n
    decreases n
  {
    hide Enabled, Do, StandsAt, MarksGrow, PublisherInv, ConsumerInv, GenerationInv, BooksInv, Received, Build, RecInv,
         GenuineFrame;
    if n == 0 {
      FreshStands(stream, limit, path[0]);
    } else {
      FramesTaken(stream, limit, path, steps, n - 1);
      var s, t, a := path[0], path[n - 1], steps[n - 1];
      assert path[n - 1 + 1] == Do(stream, limit, t, a);
      var fs, v := Delivered(steps, n - 1), World(stream, s.cycles);
      SysWorld(stream, s);
      NothingReceivedIsLost(v, s.consumer.rec, fs, limit);
      StandsSays(limit, s, t, fs);
      KeptRecovers(v, s.consumer.rec.cycle, fs, t.consumer.rec);
      FrameTaken(stream, limit, s, t, fs, a.snapshot, a.frame, a.full);
      StepKeeps(stream, limit, t, a);
      EnabledFrame(stream, t, a);
    }
  }

  lemma FreshStands(stream: seq<Event>, limit: nat, s: Sys)
    requires Inv(stream, s) && Fresh(s)
    ensures StandsAt(limit, s, s, [])
  {
    hide PublisherInv, GenerationInv, BooksInv, GenuineSnapshot, GenuineIncrement;
  }

  lemma SysWorld(stream: seq<Event>, s: Sys)
    requires Inv(stream, s)
    ensures WorldOk(World(stream, s.cycles)) && RecInv(World(stream, s.cycles), s.consumer.rec)
  {
    hide RecInv, GenerationInv, BooksInv, GenuineStream, Build;
  }

  lemma StandsSays(limit: nat, s: Sys, t: Sys, fs: seq<Arrival>)
    requires StandsAt(limit, s, t, fs)
    ensures t.cycles == s.cycles && t.consumer.rec == Received(s.consumer.rec, fs, limit)
    ensures KeysOk(t.consumer.rec) && (t.consumer.candidate.Some? <==> Build(t.consumer.rec).1.Some?)
  {
    hide Received, Build;
  }

  lemma KeptRecovers(v: World, c0: nat, fs: seq<Arrival>, r: Rec)
    requires Kept(v, c0, fs, r)
    ensures r.recovering
  {
  }

  lemma EnabledFrame(stream: seq<Event>, s: Sys, a: Step)
    requires a.Receive? && Enabled(stream, s, a)
    ensures GenuineFrame(World(stream, s.cycles), a.snapshot, a.frame)
  {
    hide GenuineFrame;
  }

  /** The same in the protocol: a consumer that has just restarted holds a batch to publish exactly when, among the
      frames that have reached it since, the newest newer cycle is whole and the increments above its watermark have
      no gap. */
  lemma CandidateExactlyWhen(stream: seq<Event>, limit: nat, path: seq<Sys>, steps: seq<Step>)
    requires Trail(stream, limit, path, steps) && OnlyFrames(steps) && |steps| <= limit
    requires Inv(stream, path[0]) && Fresh(path[0]) && MarksGrow(World(stream, path[0].cycles))
    ensures var v, c0, fs := World(stream, path[0].cycles), path[0].consumer.rec.cycle, Delivered(steps, |steps|);
            var c := Newest(c0, fs);
            path[|steps|].consumer.candidate.Some? <==> c > c0 && WholeCycle(v, fs, c) && Gapless(fs, Mark(v, c))
  {
    hide Enabled, Do, StandsAt, MarksGrow, Received, Build, RecInv, PublisherInv, ConsumerInv, GenerationInv, BooksInv, Gapless,
         WholeCycle, AllGenuine, Newest;
    FramesTaken(stream, limit, path, steps, |steps|);
    var fs := Delivered(steps, |steps|);
    SysWorld(stream, path[0]);
    BatchExactlyWhen(World(stream, path[0].cycles), path[0].consumer.rec, fs, limit);
    StandsSays(limit, path[0], path[|steps|], fs);
  }
}
