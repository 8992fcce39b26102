/**
 What a batch has passed, whatever the frames it was built of, genuine or not: one consistent cycle without a missing
 frame, every event acceptable after the one before, the checksum of the rebuilt orders, and a gapless tail.
*/
module RecoveryChecks {
  import opened Types
  import opened PriceBooks
  import opened Replay
  import opened MarketStream
  import opened BookHashes
  import opened RecoverySpec
  import opened RecoveryProps

  /** Events applied one after the other; none when one is not acceptable. */
  function ApplyAll(os: OrdersByTicker, es: seq<Event>): Option<OrdersByTicker>
    decreases |es|
  {
    if es == [] then Some(os)
    else match ApplyTo(os, es[0]) case None => None case Some(next) => ApplyAll(next, es[1..])
  }

  lemma ApplyFirst(os: OrdersByTicker, e: Event, es: seq<Event>)
    ensures ApplyAll(os, [e] + es) == match ApplyTo(os, e) case None => None case Some(next) => ApplyAll(next, es)
  {
    hide ApplyTo;
    assert ([e] + es)[1..] == es;
  }

  /** The events cached under the numbers from `i` up to, but not including, `j`. */
  function EventsIn(m: map<nat, Update>, i: nat, j: nat): seq<Event>
    requires forall k :: i <= k < j ==> k in m
    decreases j - i
  {
    if i >= j then [] else [m[i].event] + EventsIn(m, i + 1, j)
  }

  /** A frame of the cycle that the head describes. */
  predicate Agrees(u: Update, h: Head) { u.cycle == h.cycle && u.watermark == h.watermark && u.hash == h.hash }

  lemma WalkOne(frames: map<nat, Update>, i: nat, h: Head, w: Walk)
    requires i in frames && 0 < i < h.last
    ensures WalkFrame(i, frames[i], h, w).Some? ==>
              && Agrees(frames[i], h) && ApplyTo(w.orders, frames[i].event).Some?
              && WalkFrame(i, frames[i], h, w).value.orders == ApplyTo(w.orders, frames[i].event).value
              && WalkFrame(i, frames[i], h, w).value.events == w.events + [frames[i].event]
  {
    hide ApplyTo;
  }

  lemma WalkNext(frames: map<nat, Update>, i: nat, h: Head, w: Walk)
    requires (forall j :: i <= j <= h.last ==> j in frames) && i <= h.last
    ensures WalkFrames(frames, i, h, w) ==
            match WalkFrame(i, frames[i], h, w) case None => None case Some(w') => WalkFrames(frames, i + 1, h, w')
  {
    hide WalkFrame;
  }

  lemma {:induction false} WalkPassed(frames: map<nat, Update>, i: nat, h: Head, w: Walk, r: Walk)
    requires (forall j :: i <= j <= h.last ==> j in frames) && 0 < i <= h.last && frames[h.last].event.kind.SnapshotEnd?
    requires WalkFrames(frames, i, h, w) == Some(r)
    ensures forall j :: i <= j <= h.last ==> Agrees(frames[j], h)
    ensures r.events == w.events + EventsIn(frames, i, h.last)
    ensures ApplyAll(w.orders, EventsIn(frames, i, h.last)) == Some(r.orders)
    decreases h.last - i
  {
    hide ApplyTo, WalkFrame, WalkFrames, ApplyAll, Agrees;
    if i < h.last {
      WalkNext(frames, i, h, w);
      WalkOne(frames, i, h, w);
      var w' := WalkFrame(i, frames[i], h, w).value;
      WalkPassed(frames, i + 1, h, w', r);
      ApplyFirst(w.orders, frames[i].event, EventsIn(frames, i + 1, h.last));
      assert w.events + [frames[i].event] + EventsIn(frames, i + 1, h.last) == w.events + EventsIn(frames, i, h.last);
    } else {
      WalkLast(frames, i, h, w);
      ApplyNone(w.orders);
      assert w.events + [] == w.events;
    }
  }

  lemma WalkLast(frames: map<nat, Update>, i: nat, h: Head, w: Walk)
    requires i in frames && 0 < i == h.last && frames[i].event.kind.SnapshotEnd?
    ensures WalkFrame(i, frames[i], h, w).Some? ==> Agrees(frames[i], h) && WalkFrame(i, frames[i], h, w).value == w
    ensures WalkFrames(frames, i, h, w).Some? ==> WalkFrame(i, frames[i], h, w).Some? && WalkFrames(frames, i, h, w).value == w
  {
  }

  lemma ApplyNone(os: OrdersByTicker)
    ensures ApplyAll(os, []) == Some(os)
  {
  }

  lemma {:induction false} TailPassed(m: map<nat, Update>, t: Tail, r: Tail)
    requires t.next > 0 && WalkTail(m, t.next - 1, t) == Some(r)
    ensures t.next <= r.next && (forall k :: t.next <= k < r.next ==> k in m) && (forall k :: k in m ==> k < r.next)
    ensures r.events == t.events + EventsIn(m, t.next, r.next)
    ensures ApplyAll(t.orders, EventsIn(m, t.next, r.next)) == Some(r.orders)
    decreases KeysFrom(m, t.next - 1)
  {
    hide ApplyTo, ApplyAll;
    var n := NextKey(m, t.next - 1);
    if n.Some? {
      var k := n.value;
      assert k in KeysFrom(m, t.next - 1) && k !in KeysFrom(m, k);
      var t' := Tail(t.next + 1, ApplyTo(t.orders, m[k].event).value, t.events + [m[k].event]);
      TailPassed(m, t', r);
      ApplyFirst(t.orders, m[k].event, EventsIn(m, t.next + 1, r.next));
      assert t.events + [m[k].event] + EventsIn(m, t.next + 1, r.next) == t.events + EventsIn(m, t.next, r.next);
    } else {
      ApplyNone(t.orders);
      assert t.events + [] == t.events;
    }
  }

  /** The frames numbered 0 to `last` are all held and agree; between the markers at the ends their events rebuild
      orders whose checksum is the one the frames carry; the increments up to `upTo` follow without a gap. */
  ghost predicate Checked(r: Rec, b: Batch, last: nat) {
    && (forall j :: j in r.snapshot <==> 0 <= j <= last) && last > 0
    && r.snapshot[0].event.kind.SnapshotStart? && r.snapshot[last].event.kind.SnapshotEnd?
    && var w, hash := r.snapshot[0].watermark, r.snapshot[0].hash;
       && (forall j :: 0 <= j <= last ==> Agrees(r.snapshot[j], Head(r.cycle, w, hash, last)))
       && r.snapshot[0].event.orderId == w == r.snapshot[last].event.orderId
       && w <= b.watermark && (forall k :: w < k <= b.watermark ==> k in r.incremental)
       && (forall k :: k in r.incremental ==> k <= b.watermark)
       && b.events == EventsIn(r.snapshot, 1, last) + EventsIn(r.incremental, w + 1, b.watermark + 1)
       && ApplyAll(NO_ORDERS, EventsIn(r.snapshot, 1, last)).Some?
       && BookHash(Flatten(ApplyAll(NO_ORDERS, EventsIn(r.snapshot, 1, last)).value, 0)) == hash
       && ApplyAll(NO_ORDERS, b.events).Some?
  }

  lemma {:induction false} ApplyConcat(os: OrdersByTicker, a: seq<Event>, b: seq<Event>)
    ensures ApplyAll(os, a + b) == match ApplyAll(os, a) case None => None case Some(m) => ApplyAll(m, b)
    decreases |a|
  {
    hide ApplyTo;
    if a == [] {
      assert a + b == b;
    } else {
      assert (a + b)[1..] == a[1..] + b;
      if ApplyTo(os, a[0]).Some? { ApplyConcat(ApplyTo(os, a[0]).value, a[1..], b); }
    }
  }

  lemma FirstFrameAgrees(r: Rec, h: Head)
    requires 0 in r.snapshot && (forall j :: 0 <= j <= h.last ==> j in r.snapshot)
    requires WalkFrames(r.snapshot, 0, h, Walk({}, NO_ORDERS, [])).Some?
    ensures Agrees(r.snapshot[0], h)
    ensures WalkFrames(r.snapshot, 0, h, Walk({}, NO_ORDERS, [])) == WalkFrames(r.snapshot, 1, h, Walk({}, NO_ORDERS, []))
  {
    hide ApplyTo;
  }

  /** Every batch has passed every check, also on frames that were altered on the way. */
  lemma EveryBatchIsChecked(r: Rec)
    requires KeysOk(r) && Build(r).1.Some?
    ensures !r.invalidCycle && exists last: nat :: Checked(r, Build(r).1.value, last)
  {
    hide BuildFrom, BookHash, Flatten, ApplyAll, ApplyTo;
    var hi := BuildEnds(r);
    EndsExist(r.snapshot);
    var lo: nat, last: nat :| Ends(r.snapshot, lo, last);
    forall x: nat, y: nat | Ends(r.snapshot, x, y) ensures x == lo && y == last { EndsUnique(r.snapshot, x, y, lo, last); }
    RangeFull(r.snapshot, last + 1);
    FromEnds(r, last);
    assert Checked(r, Build(r).1.value, last);
  }

  lemma FromEnds(r: Rec, last: nat)
    requires (forall j :: j in r.snapshot <==> 0 <= j <= last) && last > 0
    requires r.snapshot[0].event.kind.SnapshotStart? && r.snapshot[last].event.kind.SnapshotEnd?
    requires r.snapshot[0].event.orderId == r.snapshot[0].watermark == r.snapshot[last].event.orderId
    requires BuildFrom(r, last).1.Some?
    ensures Checked(r, BuildFrom(r, last).1.value, last)
  {
    hide BookHash, Flatten, ApplyAll, ApplyTo, WalkFrames, WalkTail, NextKey;
    var first := r.snapshot[0];
    var h, w0 := Head(r.cycle, first.watermark, first.hash, last), Walk({}, NO_ORDERS, []);
    FirstFrameAgrees(r, h);
    var w := WalkFrames(r.snapshot, 0, h, w0).value;
    WalkPassed(r.snapshot, 1, h, w0, w);
    var t := Tail(first.watermark + 1, w.orders, w.events);
    TailPassed(r.incremental, t, WalkTail(r.incremental, first.watermark, t).value);
    ApplyConcat(NO_ORDERS, EventsIn(r.snapshot, 1, last),
                EventsIn(r.incremental, first.watermark + 1, WalkTail(r.incremental, first.watermark, t).value.next));
    assert [] + EventsIn(r.snapshot, 1, last) == EventsIn(r.snapshot, 1, last);
  }

  /** The same number with another content: the cycle is void, nothing of it is kept, and nothing is built before a
      newer cycle; a contradiction among increments drops those too. */
  lemma ConflictVoids(r: Rec, snapshot: bool, u: Update, limit: nat)
    requires r.recovering && (snapshot ==> 0 < u.cycle == r.cycle && !r.invalidCycle)
    requires var cache := if snapshot then r.snapshot else r.incremental;
             u.seqNum in cache && (cache[u.seqNum].event != u.event
                                   || (snapshot && (cache[u.seqNum].watermark != u.watermark || cache[u.seqNum].hash != u.hash)))
    ensures var r' := Ingest(r, snapshot, u, limit).0;
            && r'.recovering && r'.invalidCycle && r'.snapshot == map[] && r'.cycle == r.cycle
            && (if snapshot then r'.incremental == r.incremental else r'.incremental == map[])
            && (KeysOk(r') ==> Build(r') == (r', None))
  {
  }

  lemma OneMoreCached(m: map<nat, Update>, u: Update)
    requires u.seqNum !in m
    ensures |m[u.seqNum := u]| == |m| + 1
  {
    assert m[u.seqNum := u].Keys == m.Keys + {u.seqNum};
    assert |m[u.seqNum := u].Keys| == |m[u.seqNum := u]|;
  }

  lemma StoreOverflows(r: Rec, snapshot: bool, u: Update, limit: nat)
    requires u.seqNum !in (if snapshot then r.snapshot else r.incremental) && Cached(r) >= limit
    ensures var r' := Store(r, snapshot, u, limit).0;
            r'.recovering && r'.invalidCycle && r'.snapshot == map[] && r'.incremental == map[] && r'.cycle == r.cycle
  {
    OneMoreCached(if snapshot then r.snapshot else r.incremental, u);
  }

  /** A frame that would exceed the limit empties the caches. */
  lemma OverflowRestarts(r: Rec, snapshot: bool, u: Update, limit: nat)
    requires r.recovering && (snapshot ==> 0 < u.cycle == r.cycle && !r.invalidCycle)
    requires u.seqNum !in (if snapshot then r.snapshot else r.incremental) && |r.snapshot| + |r.incremental| >= limit
    ensures var r' := Ingest(r, snapshot, u, limit).0;
            r'.recovering && r'.invalidCycle && r'.snapshot == map[] && r'.incremental == map[] && r'.cycle == r.cycle
  {
    hide Store;
    StoreOverflows(r, snapshot, u, limit);
  }

  /** Orders that mean something. */
  ghost predicate Presentable(os: OrdersByTicker) {
    forall t, id :: 0 <= t < ME_MAX_TICKERS && id in os[t] ==> PresentableAt(os, t, id)
  }

  ghost predicate PresentableAt(os: OrdersByTicker, t: TickerId, id: OrderId)
    requires t < ME_MAX_TICKERS && id in os[t]
  {
    var o := os[t][id];
    && 0 < id < ME_MAX_ORDER_IDS && o.id == id && o.price > 0 && o.price != PRICE_INVALID && o.qty > 0 && o.qty != QTY_INVALID
    && (o.side.Buy? || o.side.Sell?)
    && o.priority != 0 && o.priority != PRIORITY_INVALID
  }

  lemma ApplyPresentable(os: OrdersByTicker, e: Event)
    requires Presentable(os) && ApplyTo(os, e).Some?
    ensures Presentable(ApplyTo(os, e).value)
    ensures (e.kind.Modify? || e.kind.Cancel?) ==>
              e.orderId in os[e.ticker] && os[e.ticker][e.orderId].side == e.side && os[e.ticker][e.orderId].price == e.price
    ensures e.kind.Add? ==> e.orderId !in os[e.ticker]
  {
    var next := ApplyTo(os, e).value;
    forall t, id | 0 <= t < ME_MAX_TICKERS && id in next[t] ensures PresentableAt(next, t, id) {
      if id in os[t] { assert PresentableAt(os, t, id); }
    }
  }

  /** Whatever events a batch was built of, the orders they rebuild all mean something. */
  lemma {:induction false} RebuiltArePresentable(os: OrdersByTicker, es: seq<Event>)
    requires Presentable(os) && ApplyAll(os, es).Some?
    ensures Presentable(ApplyAll(os, es).value)
    decreases |es|
  {
    hide ApplyTo, Presentable;
    if es != [] {
      ApplyPresentable(os, es[0]);
      RebuiltArePresentable(ApplyTo(os, es[0]).value, es[1..]);
    }
  }
}
