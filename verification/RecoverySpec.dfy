/** The recovery state machine of `MarketRecovery`, as functions on its state. */
module RecoverySpec {
  import opened Types
  import opened PriceBooks
  import opened Replay
  import opened MarketStream
  import opened BookHashes

  /** `MDPMarketUpdate`: a frame of the incremental or of the snapshot channel. */
  datatype Update = Update(seqNum: nat, event: Event, cycle: nat, watermark: nat, hash: nat)

  datatype Batch = Batch(events: seq<Event>, watermark: nat)

  /** Both caches are keyed by sequence number. */
  datatype Rec = Rec(recovering: bool, invalidCycle: bool, cycle: nat, expected: nat,
                     snapshot: map<nat, Update>, incremental: map<nat, Update>)

  const INITIAL := Rec(true, false, 0, 1, map[], map[])

  type OrdersByTicker = os: seq<map<OrderId, Order>> | |os| == ME_MAX_TICKERS witness NO_ORDERS

  const NO_ORDERS: seq<map<OrderId, Order>> := [map[], map[], map[], map[], map[], map[], map[], map[]]

  function Restart(s: Rec): Rec {
    s.(recovering := true, snapshot := map[], incremental := map[], invalidCycle := true)
  }

  /** The next event in sequence passes; an older one is ignored; a gap restarts recovery. */
  function LiveCandidate(s: Rec, u: Update): (Rec, bool) {
    if s.recovering then (s, false)
    else if u.seqNum == s.expected then (s, true)
    else if u.seqNum < s.expected then (s, false)
    else (Restart(s), false)
  }

  function CommitLive(s: Rec): Rec { s.(expected := s.expected + 1) }

  function Cached(s: Rec): nat { |s.snapshot| + |s.incremental| }

  /** A newer snapshot cycle replaces the cached one and outdates the increments it covers. */
  function EnterCycle(s: Rec, u: Update): Rec {
    if u.cycle > s.cycle
    then s.(cycle := u.cycle, snapshot := map[], invalidCycle := false,
            incremental := map k | k in s.incremental && k > u.watermark :: s.incremental[k])
    else s
  }

  /** Caches a frame under its number; the same number with another content voids the cycle. */
  function Store(s: Rec, snapshot: bool, u: Update, limit: nat): (Rec, bool) {
    var cache := if snapshot then s.snapshot else s.incremental;
    if u.seqNum in cache then
      var held := cache[u.seqNum];
      var same := held.event == u.event && (!snapshot || (held.watermark == u.watermark && held.hash == u.hash));
      if !same then (if snapshot then s.(invalidCycle := true, snapshot := map[]) else Restart(s), false)
      else if snapshot then (s, false)
      else if Cached(s) > limit then (Restart(s), false)
      else (s, true)
    else
      var s' := if snapshot then s.(snapshot := cache[u.seqNum := u]) else s.(incremental := cache[u.seqNum := u]);
      if Cached(s') > limit then (Restart(s'), false) else (s', true)
  }

  function Ingest(s: Rec, snapshot: bool, u: Update, limit: nat): (Rec, bool) {
    if !s.recovering then (s, false)
    else if snapshot then
      if u.cycle == 0 || u.cycle < s.cycle then (s, false) else
      var s' := EnterCycle(s, u);
      if s'.invalidCycle then (s', false) else Store(s', snapshot, u, limit)
    else Store(s, snapshot, u, limit)
  }

  function Commit(s: Rec, b: Batch): Rec {
    s.(expected := b.watermark + 1, recovering := false, snapshot := map[], incremental := map[])
  }

  // ------------------------------------------------------------------ building a batch

  /** One event applied to the rebuilt orders; none when it is not acceptable. */
  function ApplyTo(os: OrdersByTicker, e: Event): Option<OrdersByTicker> {
    if e.ticker >= ME_MAX_TICKERS || !RecoveryAccepts(os[e.ticker], e) then None
    else
      var m := os[e.ticker];
      Some(os[e.ticker :=
        match e.kind
        case Clear => map[]
        case Add => m[e.orderId := EventOrder(e)]
        case Modify => m[e.orderId := m[e.orderId].(qty := e.qty)]
        case Cancel => m - {e.orderId}
        case _ => m])
  }

  /** `flatten`: all rebuilt orders, by ticker and then by order id. */
  function Flatten(os: OrdersByTicker, t: nat): seq<Event>
    decreases ME_MAX_TICKERS - t
  {
    if t >= ME_MAX_TICKERS then [] else LiveFrom(t, os[t], 0) + Flatten(os, t + 1)
  }

  /** Progress of the walk over the snapshot frames. */
  datatype Walk = Walk(cleared: set<TickerId>, orders: OrdersByTicker, events: seq<Event>)

  /** What all frames of a cycle must agree on. */
  datatype Head = Head(cycle: nat, watermark: nat, hash: nat, last: nat)

  /** One snapshot frame: markers at the ends only, one CLEAR per ticker before its orders. */
  function WalkFrame(id: nat, u: Update, h: Head, w: Walk): Option<Walk> {
    if u.watermark != h.watermark || u.cycle != h.cycle || u.hash != h.hash then None
    else if id == 0 then Some(w)
    else if u.event.kind.SnapshotEnd? then (if id != h.last then None else Some(w))
    else if u.event.ticker >= ME_MAX_TICKERS then None
    else if u.event.kind.Clear? && u.event.ticker in w.cleared then None
    else if !u.event.kind.Clear? && (!u.event.kind.Add? || u.event.ticker !in w.cleared) then None
    else
      match ApplyTo(w.orders, u.event)
      case None => None
      case Some(os) =>
        Some(Walk(if u.event.kind.Clear? then w.cleared + {u.event.ticker} else w.cleared, os, w.events + [u.event]))
  }

  /** The frames numbered from `i` up to the last. */
  function WalkFrames(frames: map<nat, Update>, i: nat, h: Head, w: Walk): Option<Walk>
    requires forall j :: i <= j <= h.last ==> j in frames
    decreases h.last + 1 - i
  {
    if i > h.last then Some(w)
    else
      match WalkFrame(i, frames[i], h, w)
      case None => None
      case Some(w') => WalkFrames(frames, i + 1, h, w')
  }

  /** `upper_bound`: the least key above `k`. */
  ghost predicate IsNext(m: map<nat, Update>, k: int, r: Option<nat>) {
    match r
    case None => forall j :: j in m ==> j <= k
    case Some(n) => n in m && n > k && forall j :: j in m && j > k ==> n <= j
  }

  ghost function NextKey(m: map<nat, Update>, k: int): (r: Option<nat>)
    ensures IsNext(m, k, r)
  {
    NextKeyExists(m, k, m.Keys);
    var r :| IsNext(m, k, r);
    r
  }

  lemma {:induction false} NextKeyExists(m: map<nat, Update>, k: int, keys: set<nat>)
    requires keys <= m.Keys
    requires forall j :: j in m && j > k && j !in keys ==> exists i :: i in keys && k < i <= j
    ensures exists r :: IsNext(m, k, r)
    decreases |keys|
  {
    if n :| n in keys && n > k {
      if i :| i in keys && k < i < n {
        forall j | j in m && j > k && j !in keys - {n} ensures exists i :: i in keys - {n} && k < i <= j {
          if j !in keys {
            var l :| l in keys && k < l <= j;
            if l == n { assert i in keys - {n} && k < i <= j; } else { assert l in keys - {n} && k < l <= j; }
          } else {
            assert i in keys - {n} && k < i <= j;
          }
        }
        NextKeyExists(m, k, keys - {n});
      } else {
        assert IsNext(m, k, Some(n));
      }
    } else {
      assert IsNext(m, k, None);
    }
  }

  lemma NextKeyUnique(m: map<nat, Update>, k: int, r: Option<nat>, r': Option<nat>)
    requires IsNext(m, k, r) && IsNext(m, k, r')
    ensures r == r'
  {
  }

  /** Progress of the walk over the cached increments: the next number needed, orders, events. */
  datatype Tail = Tail(next: nat, orders: OrdersByTicker, events: seq<Event>)

  ghost function KeysFrom(m: map<nat, Update>, k: int): set<nat> { set j | j in m && j > k }

  /** The cached increments above `above`, which must continue without a gap. */
  ghost function WalkTail(m: map<nat, Update>, above: int, t: Tail): (r: Option<Tail>)
    ensures r.Some? ==> r.value.next >= t.next
    decreases KeysFrom(m, above)
  {
    match NextKey(m, above)
    case None => Some(t)
    case Some(k) =>
      if k != t.next then None else
      match ApplyTo(t.orders, m[k].event)
      case None => None
      case Some(os) =>
        assert k in KeysFrom(m, above) && k !in KeysFrom(m, k);
        WalkTail(m, k, Tail(t.next + 1, os, t.events + [m[k].event]))
  }

  /** The first and the last frame held. */
  ghost predicate Ends(m: map<nat, Update>, lo: nat, hi: nat) {
    lo in m && hi in m && forall k :: k in m ==> lo <= k <= hi
  }

  /** Frames are cached under their own numbers. */
  ghost predicate KeysOk(s: Rec) {
    && (forall k :: k in s.snapshot ==> s.snapshot[k].seqNum == k)
    && (forall k :: k in s.incremental ==> s.incremental[k].seqNum == k)
  }

  /** Building only ever voids the cycle; without a snapshot there is no batch. */
  lemma BuildLeaves(r: Rec)
    requires KeysOk(r)
    ensures var r' := Build(r).0;
            && r'.recovering == r.recovering && r'.expected == r.expected && r'.snapshot == r.snapshot
            && r'.incremental == r.incremental && (r.snapshot == map[] ==> Build(r).1.None?)
  {
  }

  lemma {:induction false} RangeFull(m: map<nat, Update>, n: nat)
    requires forall k :: k in m ==> k < n
    requires |m| == n
    ensures forall k :: 0 <= k < n ==> k in m
  {
    if n > 0 {
      var m' := m - {n - 1};
      assert m'.Keys == m.Keys - {n - 1};
      if n - 1 !in m {
        assert m' == m;
        RangeSmall(m, n - 1);
      }
      RangeFull(m', n - 1);
    }
  }

  lemma {:induction false} RangeSmall(m: map<nat, Update>, n: nat)
    requires forall k :: k in m ==> k < n
    ensures |m| <= n
  {
    if n > 0 {
      var m' := m - {n - 1};
      assert m'.Keys == m.Keys - {n - 1};
      RangeSmall(m', n - 1);
    } else {
      assert m.Keys == {};
    }
  }

  const ALL_TICKERS: set<TickerId> := {0, 1, 2, 3, 4, 5, 6, 7}

  /** The orders of a complete, consistent snapshot, by its first and last frames. */
  ghost function BuildFrom(s: Rec, last: nat): (r: (Rec, Option<Batch>))
    requires forall j :: 0 <= j <= last ==> j in s.snapshot
    ensures r.0 == s || (r.1 == None && r.0 == s.(invalidCycle := true))
  {
    var first := s.snapshot[0];
    var it := NextKey(s.incremental, first.watermark);
    if it.Some? && it.value != first.watermark + 1 then (s, None)
    else
      match WalkFrames(s.snapshot, 0, Head(s.cycle, first.watermark, first.hash, last), Walk({}, NO_ORDERS, []))
      case None => (s, None)
      case Some(w) =>
        if w.cleared != ALL_TICKERS then (s, None)
        else if BookHash(Flatten(w.orders, 0)) != first.hash then (s.(invalidCycle := true), None)
        else
          match WalkTail(s.incremental, first.watermark, Tail(first.watermark + 1, w.orders, w.events))
          case None => (s, None)
          case Some(t) => (s, Some(Batch(t.events, t.next - 1)))
  }

  /** `build`: a candidate batch, or nothing yet; a snapshot that contradicts itself voids its cycle. */
  ghost function Build(s: Rec): (r: (Rec, Option<Batch>))
    requires KeysOk(s)
    ensures r.0 == s || (r.1 == None && r.0 == s.(invalidCycle := true))
  {
    if s.snapshot == map[] || s.invalidCycle then (s, None)
    else
      EndsExist(s.snapshot);
      var lo: nat, hi: nat :| Ends(s.snapshot, lo, hi);
      var first, last := s.snapshot[lo], s.snapshot[hi];
      if lo != 0 || !first.event.kind.SnapshotStart? || !last.event.kind.SnapshotEnd? then (s, None)
      else if last.watermark != first.watermark || first.event.orderId != first.watermark
           || last.event.orderId != first.watermark || first.hash != last.hash
        then (s.(invalidCycle := true), None)
      else if hi != |s.snapshot| - 1 then (s, None)
      else
        RangeFull(s.snapshot, hi + 1);
        BuildFrom(s, hi)
  }

  lemma {:induction false} EndsExist(m: map<nat, Update>)
    requires m != map[]
    ensures exists lo, hi :: Ends(m, lo, hi)
    decreases |m|
  {
    assert m.Keys != {};
    var k :| k in m;
    var m' := m - {k};
    assert m'.Keys == m.Keys - {k};
    if m' == map[] {
      assert m.Keys == {k} + m'.Keys == {k};
      assert Ends(m, k, k);
    } else {
      EndsExist(m');
      var lo: nat, hi: nat :| Ends(m', lo, hi);
      forall j | j in m ensures (if k < lo then k else lo) <= j <= (if k > hi then k else hi) {
        if j != k { assert j in m'; }
      }
      assert Ends(m, if k < lo then k else lo, if k > hi then k else hi);
    }
  }

  lemma EndsUnique(m: map<nat, Update>, lo: nat, hi: nat, lo': nat, hi': nat)
    requires Ends(m, lo, hi) && Ends(m, lo', hi')
    ensures lo == lo' && hi == hi'
  {
  }
}
