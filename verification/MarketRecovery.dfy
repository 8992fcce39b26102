/** `MarketRecovery`: the recovery caches and flags updated in place, against their specification. */
module MarketRecoveries {
  import opened Types
  import opened PriceBooks
  import opened Replay
  import opened MarketStream
  import opened BookHashes
  import opened RecoverySpec

  class MarketRecovery {
    const limit: nat
    var recovering: bool
    var invalidCycle: bool
    var cycle: nat
    var expected: nat
    var snapshot: map<nat, Update>
    var incremental: map<nat, Update>

    function Contents(): Rec
      reads this
    {
      Rec(recovering, invalidCycle, cycle, expected, snapshot, incremental)
    }

    ghost predicate Valid()
      reads this
    {
      KeysOk(Contents())
    }

    /** The cache must hold at least one empty snapshot. */
    constructor (limit: nat)
      requires limit >= ME_MAX_TICKERS + 2
      ensures Valid() && Contents() == INITIAL && this.limit == limit
    {
      this.limit := limit;
      recovering, invalidCycle, cycle, expected := true, false, 0, 1;
      snapshot, incremental := map[], map[];
    }

    method DoRestart()
      modifies this
      ensures Valid() && Contents() == Restart(old(Contents()))
    {
      recovering, snapshot, incremental, invalidCycle := true, map[], map[], true;
    }

    method DoLiveCandidate(u: Update) returns (next: bool)
      requires Valid()
      modifies this
      ensures Valid() && (Contents(), next) == LiveCandidate(old(Contents()), u)
    {
      if recovering {
        return false;
      }
      if u.seqNum == expected {
        return true;
      }
      if u.seqNum < expected {
        return false;
      }
      DoRestart();
      next := false;
    }

    method DoCommitLive()
      requires Valid()
      modifies this
      ensures Valid() && Contents() == CommitLive(old(Contents()))
    {
      expected := expected + 1;
    }

    method DoIngest(isSnapshot: bool, u: Update) returns (stored: bool)
      requires Valid()
      modifies this
      ensures Valid() && (Contents(), stored) == Ingest(old(Contents()), isSnapshot, u, limit)
    {
      if !recovering {
        return false;
      }
      if isSnapshot {
        if u.cycle == 0 || u.cycle < cycle {
          return false;
        }
        if u.cycle > cycle {
          cycle, snapshot, invalidCycle := u.cycle, map[], false;
          incremental := map k | k in incremental && k > u.watermark :: incremental[k];
        }
        if invalidCycle {
          return false;
        }
      }
      var cache := if isSnapshot then snapshot else incremental;
      if u.seqNum in cache {
        var held := cache[u.seqNum];
        var same := held.event == u.event && (!isSnapshot || (held.watermark == u.watermark && held.hash == u.hash));
        if !same {
          if isSnapshot {
            invalidCycle, snapshot := true, map[];
          } else {
            DoRestart();
          }
          return false;
        }
        if isSnapshot {
          return false;
        }
      } else if isSnapshot {
        snapshot := snapshot[u.seqNum := u];
      } else {
        incremental := incremental[u.seqNum := u];
      }
      if |snapshot| + |incremental| > limit {
        DoRestart();
        return false;
      }
      stored := true;
    }

    method DoCommit(b: Batch)
      requires Valid()
      modifies this
      ensures Valid() && Contents() == Commit(old(Contents()), b)
    {
      expected, recovering, snapshot, incremental := b.watermark + 1, false, map[], map[];
    }

    /** `map::upper_bound`. */
    method UpperBound(m: map<nat, Update>, k: int) returns (r: Option<nat>)
      ensures r == NextKey(m, k)
    {
      if exists j :: j in m.Keys && j > k {
        ghost var n := NextKey(m, k);
        assert n.Some? && n.value in m.Keys && n.value > k && forall j :: j in m.Keys && j > k ==> n.value <= j;
        var i :| i in m.Keys && i > k && forall j :: j in m.Keys && j > k ==> i <= j;
        r := Some(i);
      } else {
        r := None;
      }
    }

    /** The walk over the snapshot frames in order, each checked and applied. */
    method WalkSnapshot(h: Head) returns (w: Option<Walk>)
      requires forall j :: 0 <= j <= h.last ==> j in snapshot
      ensures w == WalkFrames(snapshot, 0, h, Walk({}, NO_ORDERS, []))
    {
      hide WalkFrame;
      var walk := Walk({}, NO_ORDERS, []);
      for id := 0 to h.last + 1
        invariant WalkFrames(snapshot, id, h, walk) == WalkFrames(snapshot, 0, h, Walk({}, NO_ORDERS, []))
      {
        var step := WalkFrame(id, snapshot[id], h, walk);
        if step == None {
          return None;
        }
        walk := step.value;
      }
      w := Some(walk);
    }

    /** The walk over the increments above the watermark, which must follow one another. */
    method WalkIncremental(watermark: nat, it: Option<nat>, t: Tail) returns (r: Option<Tail>)
      requires it == NextKey(incremental, watermark)
      ensures r == WalkTail(incremental, watermark, t)
    {
      hide ApplyTo;
      var tail, above, cur := t, watermark as int, it;
      while cur.Some?
        invariant cur == NextKey(incremental, above)
        invariant WalkTail(incremental, above, tail) == WalkTail(incremental, watermark, t)
        decreases KeysFrom(incremental, above)
      {
        if cur.value != tail.next {
          return None;
        }
        var os := ApplyTo(tail.orders, incremental[cur.value].event);
        if os == None {
          return None;
        }
        assert cur.value in KeysFrom(incremental, above) && cur.value !in KeysFrom(incremental, cur.value);
        tail := Tail(tail.next + 1, os.value, tail.events + [incremental[cur.value].event]);
        above := cur.value;
        cur := UpperBound(incremental, above);
      }
      r := Some(tail);
    }

    /** `build` once the ends of the snapshot agree and no frame is missing. */
    method BuildBody(last: nat) returns (b: Option<Batch>)
      requires Valid() && forall j :: 0 <= j <= last ==> j in snapshot
      modifies this
      ensures Valid() && (Contents(), b) == BuildFrom(old(Contents()), last)
    {
      hide WalkFrames, WalkTail, NextKey, BookHash, Flatten;
      var first := snapshot[0];
      var it := UpperBound(incremental, first.watermark);
      if it.Some? && it.value != first.watermark + 1 {
        return None;
      }
      var w := WalkSnapshot(Head(cycle, first.watermark, first.hash, last));
      if w == None || w.value.cleared != ALL_TICKERS {
        return None;
      }
      if BookHash(Flatten(w.value.orders, 0)) != first.hash {
        invalidCycle := true;
        return None;
      }
      var t := WalkIncremental(first.watermark, it, Tail(first.watermark + 1, w.value.orders, w.value.events));
      if t == None {
        return None;
      }
      b := Some(Batch(t.value.events, t.value.next - 1));
    }

    method DoBuild() returns (b: Option<Batch>)
      requires Valid()
      modifies this
      ensures Valid() && (Contents(), b) == Build(old(Contents()))
    {
      hide BuildFrom;
      if snapshot == map[] || invalidCycle {
        return None;
      }
      EndsExist(snapshot);
      assert exists lo, hi :: lo in snapshot.Keys && hi in snapshot.Keys && Ends(snapshot, lo, hi);
      var lo :| lo in snapshot.Keys && forall k :: k in snapshot.Keys ==> lo <= k;
      var hi :| hi in snapshot.Keys && forall k :: k in snapshot.Keys ==> k <= hi;
      assert Ends(snapshot, lo, hi);
      var first, last := snapshot[lo], snapshot[hi];
      if first.seqNum != 0 || !first.event.kind.SnapshotStart? || !last.event.kind.SnapshotEnd? {
        return None;
      }
      if last.watermark != first.watermark || first.event.orderId != first.watermark
         || last.event.orderId != first.watermark || first.hash != last.hash {
        invalidCycle := true;
        return None;
      }
      if last.seqNum != |snapshot| - 1 {
        return None;
      }
      RangeFull(snapshot, hi + 1);
      b := BuildBody(hi);
    }
  }
}
