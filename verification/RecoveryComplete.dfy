/**
 Recovery does not wait in vain: once the frames of the current cycle and the increments that follow
 its watermark are all cached, `build` returns a batch. With `RecoveryProps` this says exactly when.
*/
module RecoveryComplete {
  import opened Types
  import opened PriceBooks
  import opened Replay
  import opened MarketStream
  import opened BookHashes
  import opened RecoverySpec
  import opened RecoveryProps

  /** Orders that recovery accepts as ADDs. */
  ghost predicate GoodOrders(m: map<OrderId, Order>) {
    forall id :: id in m ==> GoodOrder(m, id)
  }

  ghost predicate GoodOrder(m: map<OrderId, Order>, id: OrderId)
    requires id in m
  {
    var o := m[id];
    && o.id == id && o.owner == ANONYMOUS && 0 < id < ME_MAX_ORDER_IDS
    && GoodPrice(o.price) && GoodQty(o.qty) && o.side.Valid()
    && o.priority != 0 && o.priority != PRIORITY_INVALID
  }

  lemma EffectGood(b: PriceBook, me: TickerId, e: Event)
    requires GoodOrders(b.orders) && Genuine(b, me, e)
    ensures GoodOrders(Effect(b, e).orders)
  {
    var m := Effect(b, e).orders;
    forall id | id in m ensures GoodOrder(m, id) {
      if id in b.orders { assert GoodOrder(b.orders, id); }
    }
  }

  lemma {:induction false} StreamGood(stream: seq<Event>, k: nat, t: TickerId)
    requires GenuineStream(stream) && k <= |stream| && t < ME_MAX_TICKERS
    ensures GoodOrders(BooksAt(stream, k)[t].orders)
  {
    if k > 0 {
      StreamGood(stream, k - 1, t);
      assert GenuineAt(stream, k - 1);
      if stream[k - 1].ticker == t { EffectGood(BooksAt(stream, k - 1)[t], t, stream[k - 1]); }
    }
  }

  // ------------------------------------------------------------------ the walk over the snapshot

  /** One CLEAR or ADD of a snapshot, as the walk takes it. */
  function WalkEvent(e: Event, w: Walk): Option<Walk> {
    if e.ticker >= ME_MAX_TICKERS || (e.kind.Clear? && e.ticker in w.cleared)
       || (!e.kind.Clear? && (!e.kind.Add? || e.ticker !in w.cleared)) then None
    else
      match ApplyTo(w.orders, e)
      case None => None
      case Some(os) => Some(Walk(if e.kind.Clear? then w.cleared + {e.ticker} else w.cleared, os, w.events + [e]))
  }

  function WalkList(es: seq<Event>, w: Walk): Option<Walk>
    decreases |es|
  {
    if es == [] then Some(w)
    else match WalkEvent(es[0], w) case None => None case Some(w') => WalkList(es[1..], w')
  }

  lemma {:induction false} WalkConcat(a: seq<Event>, b: seq<Event>, w: Walk)
    ensures WalkList(a + b, w) == match WalkList(a, w) case None => None case Some(m) => WalkList(b, m)
    decreases |a|
  {
    if a == [] {
      assert a + b == b;
    } else {
      assert (a + b)[1..] == a[1..] + b;
      if WalkEvent(a[0], w).Some? { WalkConcat(a[1..], b, WalkEvent(a[0], w).value); }
    }
  }

  /** Over a cycle's consistent frames the walk is a walk over their events. */
  lemma {:induction false} FramesAsList(frames: map<nat, Update>, fs: seq<Update>, body: seq<Event>, i: nat, h: Head, w: Walk)
    requires |fs| == |body| + 2 && h.last == |fs| - 1 && 0 < i <= h.last
    requires forall j :: i <= j < |fs| ==>
               && j in frames && frames[j] == fs[j] && FrameShape(fs, body, j)
               && fs[j].watermark == h.watermark && fs[j].cycle == h.cycle && fs[j].hash == h.hash
    ensures WalkFrames(frames, i, h, w) == WalkList(body[i - 1..], w)
    decreases h.last - i
  {
    hide ApplyTo;
    assert FrameShape(fs, body, i);
    if i < h.last {
      assert body[i - 1..][0] == body[i - 1] && body[i - 1..][1..] == body[i..];
      assert WalkFrame(i, frames[i], h, w) == WalkEvent(body[i - 1], w);
      if WalkEvent(body[i - 1], w).Some? {
        FramesAsList(frames, fs, body, i + 1, h, WalkEvent(body[i - 1], w).value);
      }
    } else {
      assert body[i - 1..] == [];
    }
  }

  function Under(m: map<OrderId, Order>, i: nat): map<OrderId, Order> { map id | id in m && id < i :: m[id] }

  lemma UnderAll(m: map<OrderId, Order>)
    requires GoodOrders(m)
    ensures Under(m, ME_MAX_ORDER_IDS) == m
  {
    forall id | id in m ensures id < ME_MAX_ORDER_IDS { assert GoodOrder(m, id); }
  }

  lemma GoodAt(m: map<OrderId, Order>, i: OrderId)
    requires GoodOrders(m) && i in m
    ensures GoodOrder(m, i)
  {
  }

  lemma UnderLacks(m: map<OrderId, Order>, i: nat)
    ensures i !in Under(m, i)
  {
  }

  lemma UnderStep(m: map<OrderId, Order>, i: nat)
    ensures Under(m, i + 1) == if i in m then Under(m, i)[i := m[i]] else Under(m, i)
  {
  }

  lemma WalkNothing(w: Walk)
    ensures WalkList([], w) == Some(w)
  {
  }

  /** One live order walked: it is the next of the orders by id. */
  lemma WalkLive(t: TickerId, m: map<OrderId, Order>, i: nat, w: Walk)
    requires t < ME_MAX_TICKERS && t in w.cleared && GoodOrders(m) && i < ME_MAX_ORDER_IDS && i in m
    requires w.orders[t] == Under(m, i)
    ensures var e := AddEvent(t, m[i]);
            WalkEvent(e, w) == Some(Walk(w.cleared, w.orders[t := Under(m, i + 1)], w.events + [e]))
  {
    hide Under, GoodOrders;
    UnderStep(m, i);
    GoodAt(m, i);
    UnderLacks(m, i);
    assert EventOrder(AddEvent(t, m[i])) == m[i];
  }

  lemma WalkFirst(e: Event, es: seq<Event>, w: Walk)
    ensures WalkList([e] + es, w) == match WalkEvent(e, w) case None => None case Some(w') => WalkList(es, w')
  {
    hide WalkEvent;
    assert ([e] + es)[1..] == es;
  }

  lemma {:induction false} LiveWalk(t: TickerId, m: map<OrderId, Order>, i: nat, w: Walk)
    requires t < ME_MAX_TICKERS && t in w.cleared && GoodOrders(m) && i <= ME_MAX_ORDER_IDS
    requires w.orders[t] == Under(m, i)
    ensures WalkList(LiveFrom(t, m, i), w)
         == Some(Walk(w.cleared, w.orders[t := m], w.events + LiveFrom(t, m, i)))
    decreases ME_MAX_ORDER_IDS - i
  {
    hide Under, GoodOrders, LiveFrom, WalkList, WalkEvent;
    if i == ME_MAX_ORDER_IDS {
      LiveEnds(t, m, w);
    } else {
      UnderStep(m, i);
      LiveNext(t, m, i);
      var rest := LiveFrom(t, m, i + 1);
      if i in m {
        var e := AddEvent(t, m[i]);
        var w' := Walk(w.cleared, w.orders[t := Under(m, i + 1)], w.events + [e]);
        WalkLive(t, m, i, w);
        WalkFirst(e, rest, w);
        LiveWalk(t, m, i + 1, w');
        assert w'.events + rest == w.events + LiveFrom(t, m, i);
        assert w'.orders[t := m] == w.orders[t := m];
      } else {
        LiveWalk(t, m, i + 1, w);
        assert [] + rest == rest;
      }
    }
  }

  lemma LiveEnds(t: TickerId, m: map<OrderId, Order>, w: Walk)
    requires t < ME_MAX_TICKERS && GoodOrders(m) && w.orders[t] == Under(m, ME_MAX_ORDER_IDS)
    ensures LiveFrom(t, m, ME_MAX_ORDER_IDS) == []
    ensures WalkList([], w) == Some(Walk(w.cleared, w.orders[t := m], w.events + []))
  {
    hide Under, GoodOrders;
    UnderAll(m);
    WalkNothing(w);
    assert w.events + [] == w.events && w.orders[t := m] == w.orders;
  }

  lemma TickerWalk(t: TickerId, m: map<OrderId, Order>, w: Walk)
    requires t < ME_MAX_TICKERS && t !in w.cleared && GoodOrders(m)
    ensures var es := [ClearEvent(t)] + LiveFrom(t, m, 0);
            WalkList(es, w) == Some(Walk(w.cleared + {t}, w.orders[t := m], w.events + es))
  {
    hide GoodOrders, LiveFrom;
    var w' := Walk(w.cleared + {t}, w.orders[t := map[]], w.events + [ClearEvent(t)]);
    assert WalkEvent(ClearEvent(t), w) == Some(w');
    assert Under(m, 0) == map[];
    LiveWalk(t, m, 0, w');
    var es := [ClearEvent(t)] + LiveFrom(t, m, 0);
    assert es[1..] == LiveFrom(t, m, 0);
    assert w'.events + LiveFrom(t, m, 0) == w.events + es;
    assert w.orders[t := map[]][t := m] == w.orders[t := m];
    assert WalkList(es, w) == WalkList(es[1..], w');
  }

  lemma {:induction false} SnapshotWalk(orders: OrdersByTicker, t: nat, w: Walk)
    requires t <= ME_MAX_TICKERS && forall i :: 0 <= i < ME_MAX_TICKERS ==> GoodOrders(orders[i])
    requires (forall i :: i in w.cleared <==> 0 <= i < t) && forall i :: 0 <= i < t ==> w.orders[i] == orders[i]
    ensures WalkList(SnapshotFrom(orders, t), w)
         == Some(Walk(ALL_TICKERS, orders, w.events + SnapshotFrom(orders, t)))
    decreases ME_MAX_TICKERS - t
  {
    hide GoodOrders, WalkEvent, LiveFrom, WalkList, SnapshotFrom;
    SnapshotNext(orders, t);
    if t == ME_MAX_TICKERS {
      assert w.cleared == ALL_TICKERS && w.orders == orders;
      WalkNothing(w);
      assert SnapshotFrom(orders, t) == [] && w.events + [] == w.events;
    } else {
      var head := [ClearEvent(t)] + LiveFrom(t, orders[t], 0);
      TickerWalk(t, orders[t], w);
      WalkConcat(head, SnapshotFrom(orders, t + 1), w);
      SnapshotWalk(orders, t + 1, Walk(w.cleared + {t}, w.orders[t := orders[t]], w.events + head));
      assert SnapshotFrom(orders, t) == head + SnapshotFrom(orders, t + 1);
      assert (w.events + head) + SnapshotFrom(orders, t + 1) == w.events + SnapshotFrom(orders, t);
    }
  }

  // ------------------------------------------------------------------ the walk over the increments

  /** Each event of the stream applies to the orders its predecessors left. */
  lemma StreamApplies(stream: seq<Event>, k: nat)
    requires GenuineStream(stream) && k < |stream|
    ensures ApplyTo(OrdersOf(BooksAt(stream, k)), stream[k]) == Some(OrdersOf(BooksAt(stream, k + 1)))
  {
    assert GenuineAt(stream, k);
    var e := stream[k];
    var bs := BooksAt(stream, k);
    assert BooksAt(stream, k + 1) == bs[e.ticker := Effect(bs[e.ticker], e)];
    assert OrdersOf(BooksAt(stream, k + 1)) == OrdersOf(bs)[e.ticker := Effect(bs[e.ticker], e).orders];
  }

  lemma {:induction false} TailApplies(v: World, m: map<nat, Update>, t: Tail, n: nat)
    requires WorldOk(v) && forall k :: k in m ==> GenuineIncrement(v, m[k]) && m[k].seqNum == k
    requires 0 < t.next <= n + 1 && t.next <= |v.stream| + 1
    requires forall k :: k in m && k >= t.next ==> k <= n
    requires forall k :: t.next <= k <= n ==> k in m
    requires t.orders == OrdersOf(BooksAt(v.stream, t.next - 1))
    ensures WalkTail(m, t.next - 1, t).Some?
    decreases n + 1 - t.next
  {
    hide ApplyTo, OrdersOf, BooksAt, GenuineStream;
    if t.next <= n {
      assert t.next in m;
      NextKeyUnique(m, t.next - 1, NextKey(m, t.next - 1), Some(t.next));
      StreamApplies(v.stream, t.next - 1);
      var t' := Tail(t.next + 1, OrdersOf(BooksAt(v.stream, t.next)), t.events + [m[t.next].event]);
      TailApplies(v, m, t', n);
      assert t.next in KeysFrom(m, t.next - 1);
    } else {
      NextKeyUnique(m, t.next - 1, NextKey(m, t.next - 1), None);
    }
  }

  // ------------------------------------------------------------------ exactly when

  /** The increments above `w` that are held are those up to some `n`. */
  ghost predicate NoGap(s: Rec, w: nat) {
    exists n :: n >= w && HeldUpTo(s, w, n)
  }

  ghost predicate HeldUpTo(s: Rec, w: nat, n: nat) {
    forall k :: k > w ==> (k in s.incremental <==> k <= n)
  }

  lemma {:induction false} RangeSize(m: map<nat, Update>, n: nat)
    requires forall k: nat :: k in m <==> k < n
    ensures |m| == n
  {
    if n > 0 {
      var m' := m - {n - 1};
      assert m'.Keys == m.Keys - {n - 1};
      RangeSize(m', n - 1);
    } else {
      assert m.Keys == {};
    }
  }

  /** The markers at the ends of a cycle's frames carry its watermark. */
  lemma MarkersAre(v: World, c: nat)
    ensures |CycleFrames(v, c)| == |Body(v, c)| + 2
    ensures CycleFrames(v, c)[0].event.orderId == Mark(v, c) == CycleFrames(v, c)[|Body(v, c)| + 1].event.orderId
  {
    hide BookHash, Flatten, SnapshotFrom, OrdersOf, BooksAt;
  }

  lemma WalkSucceeds(v: World, s: Rec, h: Head, os: OrdersByTicker)
    requires WorldOk(v) && RecInv(v, s) && CycleHeld(v, s)
    requires os == OrdersOf(BooksAt(v.stream, Mark(v, s.cycle)))
    requires h == Head(s.cycle, Mark(v, s.cycle), BookHash(Flatten(os, 0)), |Body(v, s.cycle)| + 1)
    requires forall j :: 0 <= j <= h.last ==> j in s.snapshot
    ensures WalkFrames(s.snapshot, 0, h, Walk({}, NO_ORDERS, [])) == Some(Walk(ALL_TICKERS, os, Body(v, s.cycle)))
  {
    hide CycleFrames, GenuineSnapshot, GenuineIncrement, BookHash, Flatten, FrameShape, GoodOrders, BooksAt, WalkList,
         OrdersOf, SnapshotFrom;
    var fs, body := CycleFrames(v, s.cycle), Body(v, s.cycle);
    MarkersAre(v, s.cycle);
    forall j | 0 <= j < |fs|
      ensures s.snapshot[j] == fs[j] && FrameShape(fs, body, j)
      ensures fs[j].watermark == h.watermark && fs[j].cycle == h.cycle && fs[j].hash == h.hash
    {
      FrameHeld(v, s, j);
      FrameIs(v, s.cycle, j);
    }
    var w0 := Walk({}, NO_ORDERS, []);
    assert WalkFrames(s.snapshot, 0, h, w0) == WalkFrames(s.snapshot, 1, h, w0);
    FramesAsList(s.snapshot, fs, body, 1, h, w0);
    forall t | 0 <= t < ME_MAX_TICKERS ensures GoodOrders(os[t]) {
      StreamGood(v.stream, Mark(v, s.cycle), t);
      OrdersAre(BooksAt(v.stream, Mark(v, s.cycle)), t);
    }
    SnapshotWalk(os, 0, w0);
    assert body[0..] == body && [] + body == body;
  }

  lemma OrdersAre(bs: Books, t: nat)
    requires t < ME_MAX_TICKERS
    ensures OrdersOf(bs)[t] == bs[t].orders
  {
  }

  lemma BuildFromSucceeds(v: World, s: Rec, last: nat)
    requires WorldOk(v) && RecInv(v, s) && CycleHeld(v, s)
    requires forall j :: 0 <= j <= last ==> j in s.snapshot
    requires last == |Body(v, s.cycle)| + 1
    requires NoGap(s, Mark(v, s.cycle))
    ensures BuildFrom(s, last).1.Some?
  {
    hide CycleFrames, GenuineSnapshot, BookHash, Flatten, FrameShape, BooksAt, WalkFrames, WalkTail, Body, NextKey,
         OrdersOf, GenuineIncrement;
    var w := Mark(v, s.cycle);
    MarkersAre(v, s.cycle);
    FrameIs(v, s.cycle, 0);
    FrameHeld(v, s, 0);
    var os := OrdersOf(BooksAt(v.stream, w));
    WalkSucceeds(v, s, Head(s.cycle, w, BookHash(Flatten(os, 0)), last), os);
    var n :| n >= w && HeldUpTo(s, w, n);
    forall k | k in s.incremental ensures k <= |v.stream| { IncrementIn(v, s.incremental[k]); }
    TailApplies(v, s.incremental, Tail(w + 1, os, Body(v, s.cycle)), n);
    assert IsNext(s.incremental, w, if n > w then Some(w + 1) else None);
    NextKeyUnique(s.incremental, w, NextKey(s.incremental, w), if n > w then Some(w + 1) else None);
  }

  lemma IncrementIn(v: World, u: Update)
    requires GenuineIncrement(v, u)
    ensures u.seqNum <= |v.stream|
  {
  }

  /** Over genuine frames a batch is built if and only if the current cycle has not been voided, all its
      frames are held, and the held increments above its watermark have no gap. */
  lemma BuildExactlyWhen(v: World, s: Rec)
    requires WorldOk(v) && RecInv(v, s)
    ensures Build(s).1.Some? <==> !s.invalidCycle && CycleHeld(v, s) && NoGap(s, Mark(v, s.cycle))
  {
    hide CycleFrames, GenuineSnapshot, GenuineIncrement, BuildFrom, Body, Build, FrameShape;
    if Build(s).1.Some? {
      BuildIs(v, s);
      assert HeldUpTo(s, Mark(v, s.cycle), Build(s).1.value.watermark);
    }
    if !s.invalidCycle && CycleHeld(v, s) && NoGap(s, Mark(v, s.cycle)) {
      var last := |Body(v, s.cycle)| + 1;
      MarkersAre(v, s.cycle);
      FrameHeld(v, s, 0);
      FrameHeld(v, s, last);
      EndFrames(v, s.cycle);
      HeldExactly(v, s);
      BuildFromSucceeds(v, s, last);
      BuildReaches(s, last);
    }
  }

  lemma EndFrames(v: World, c: nat)
    ensures var fs := CycleFrames(v, c); var last := |Body(v, c)| + 1;
            && |fs| == last + 1 && fs[0].event.kind.SnapshotStart? && fs[last].event.kind.SnapshotEnd?
            && fs[0].watermark == Mark(v, c) == fs[last].watermark && fs[0].hash == fs[last].hash
  {
    hide CycleFrames, Body;
    MarkersAre(v, c);
    FrameIs(v, c, 0);
    FrameIs(v, c, |Body(v, c)| + 1);
  }

  lemma HeldExactly(v: World, s: Rec)
    requires RecInv(v, s) && CycleHeld(v, s)
    ensures |s.snapshot| == |Body(v, s.cycle)| + 2 && Ends(s.snapshot, 0, |Body(v, s.cycle)| + 1)
  {
    hide CycleFrames, GenuineSnapshot, GenuineIncrement, Body;
    MarkersAre(v, s.cycle);
    forall k | k in s.snapshot ensures k < |CycleFrames(v, s.cycle)| { FrameHeld(v, s, k); }
    RangeSize(s.snapshot, |CycleFrames(v, s.cycle)|);
  }

  /** When the ends agree and no frame is missing, `build` goes on to the walks. */
  lemma BuildReaches(s: Rec, last: nat)
    requires KeysOk(s) && !s.invalidCycle && Ends(s.snapshot, 0, last) && |s.snapshot| == last + 1
    requires forall j :: 0 <= j <= last ==> j in s.snapshot
    requires s.snapshot[0].event.kind.SnapshotStart? && s.snapshot[last].event.kind.SnapshotEnd?
    requires s.snapshot[0].watermark == s.snapshot[last].watermark == s.snapshot[0].event.orderId
    requires s.snapshot[last].event.orderId == s.snapshot[0].watermark && s.snapshot[0].hash == s.snapshot[last].hash
    ensures Build(s) == BuildFrom(s, last)
  {
    hide BuildFrom;
    forall lo: nat, hi: nat | Ends(s.snapshot, lo, hi) ensures lo == 0 && hi == last {
      EndsUnique(s.snapshot, lo, hi, 0, last);
    }
  }
}
