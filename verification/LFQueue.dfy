/** `LFQueue` as one thread sees it between the other's steps: a bounded FIFO in a ring of slots. */
module LFQueues {
  import opened Types
  import opened Cursors

  class LFQueue<T(0)> {
    const store: array<T>
    var head: nat
    var tail: nat
    var fullCount: nat
    var highWatermark: nat

    /** Everything ever pushed, and how much of it was popped. */
    ghost var pushed: seq<T>
    ghost var popped: nat

    ghost predicate Valid()
      reads `head, `tail, `pushed, `popped, store
    {
      && store.Length > 0
      && popped <= |pushed| <= popped + store.Length
      && head == Cursor(popped, store.Length) && tail == Cursor(|pushed|, store.Length)
      && forall i :: popped <= i < |pushed| ==> SlotHolds(i)
    }

    ghost predicate SlotHolds(i: nat)
      reads `pushed, store
      requires store.Length > 0 && i < |pushed|
    {
      store[i % store.Length] == pushed[i]
    }

    ghost function Contents(): seq<T>
      reads `pushed, `popped
      requires popped <= |pushed|
    {
      pushed[popped..]
    }

    constructor (capacity: nat)
      requires capacity > 0
      ensures Valid() && Contents() == [] && store.Length == capacity && fresh(store)
      ensures fullCount == 0 && highWatermark == 0
    {
      store := new T[capacity];
      head, tail, fullCount, highWatermark := 0, 0, 0, 0;
      pushed, popped := [], 0;
    }

    method Used() returns (n: nat)
      requires Valid()
      ensures n == |Contents()| <= store.Length
    {
      hide Cursor, Distance, LFQueue.SlotHolds;
      DistanceIs(|pushed|, popped, store.Length);
      n := Distance(tail, head, store.Length);
    }

    /** One value into a slot that holds nothing unread. */
    method Put(value: T)
      requires Valid() && |Contents()| < store.Length
      modifies `tail, `pushed, store
      ensures Valid() && pushed == old(pushed) + [value] && Contents() == old(Contents()) + [value]
    {
      var n := store.Length;
      SlotIs(|pushed|, n);
      NextIs(|pushed|, n);
      forall i | popped <= i < |pushed| ensures i % n != |pushed| % n { SlotsDiffer(i, |pushed|, n); }
      hide Cursor, Next;
      store[tail % n] := value;
      tail := Next(tail, n);
      pushed := pushed + [value];
      forall i | popped <= i < |pushed| ensures SlotHolds(i) {
        if i < |pushed| - 1 { assert old(SlotHolds(i)); }
      }
    }

    method TryPush(value: T) returns (ok: bool)
      requires Valid()
      modifies this, store
      ensures Valid() && ok == (|old(Contents())| < store.Length)
      ensures Contents() == if ok then old(Contents()) + [value] else old(Contents())
      ensures fullCount == old(fullCount) + (if ok then 0 else 1)
    {
      hide LFQueue.SlotHolds, Cursor;
      var used := Used();
      if used == store.Length {
        fullCount := fullCount + 1;
        return false;
      }
      Put(value);
      if used + 1 > highWatermark { highWatermark := used + 1; }
      ok := true;
    }

    /** The values beyond the tail are written, and nothing unread is touched. */
    ghost predicate WrittenBeyond(values: seq<T>, done: nat)
      reads `pushed, store
      requires store.Length > 0 && done <= |values|
    {
      forall j :: 0 <= j < done ==> store[(|pushed| + j) % store.Length] == values[j]
    }

    method WriteAll(values: seq<T>) returns (write: nat)
      requires Valid() && |Contents()| + |values| <= store.Length
      modifies store
      ensures Valid() && write == Cursor(|pushed| + |values|, store.Length) && WrittenBeyond(values, |values|)
    {
      var n, done := store.Length, 0;
      write := tail;
      hide Cursor, Next;
      while done < |values|
        invariant done <= |values| && write == Cursor(|pushed| + done, n)
        invariant forall i :: popped <= i < |pushed| ==> SlotHolds(i)
        invariant WrittenBeyond(values, done)
      {
        ghost var w := |pushed| + done;
        SlotIs(w, n);
        NextIs(w, n);
        forall i | popped <= i < w ensures i % n != w % n { SlotsDiffer(i, w, n); }
        WriteOne(write % n, values, done);
        write, done := Next(write, n), done + 1;
      }
    }

    method WriteOne(slot: nat, values: seq<T>, done: nat)
      requires store.Length > 0 && done < |values| && slot == (|pushed| + done) % store.Length
      requires popped <= |pushed|
      requires forall i :: popped <= i < |pushed| + done ==> i % store.Length != slot
      requires WrittenBeyond(values, done) && forall i :: popped <= i < |pushed| ==> SlotHolds(i)
      modifies store
      ensures WrittenBeyond(values, done + 1) && forall i :: popped <= i < |pushed| ==> SlotHolds(i)
    {
      store[slot] := values[done];
      forall i | popped <= i < |pushed| ensures SlotHolds(i) { assert old(SlotHolds(i)); }
    }

    /** Written beyond the tail, the values are what the slots will hold once the tail has moved. */
    method PublishAll(values: seq<T>) returns (write: nat)
      requires Valid() && |Contents()| + |values| <= store.Length
      modifies store
      ensures store.Length > 0 && head == Cursor(popped, store.Length)
      ensures write == Cursor(|pushed + values|, store.Length)
      ensures forall i :: popped <= i < |pushed + values| ==> store[i % store.Length] == (pushed + values)[i]
    {
      hide Cursor;
      write := WriteAll(values);
      forall i | popped <= i < |pushed + values| ensures store[i % store.Length] == (pushed + values)[i] {
        if i < |pushed| {
          assert SlotHolds(i);
        } else {
          assert store[(|pushed| + (i - |pushed|)) % store.Length] == values[i - |pushed|];
        }
      }
    }

    /** All or nothing: the whole batch is written beyond the tail before the tail moves over it. */
    method TryPushBatch(values: seq<T>) returns (ok: bool)
      requires Valid()
      modifies this, store
      ensures Valid() && ok == (|old(Contents())| + |values| <= store.Length)
      ensures Contents() == if ok then old(Contents()) + values else old(Contents())
      ensures fullCount == old(fullCount) + (if ok then 0 else 1)
    {
      hide Cursor;
      if values == [] {
        return true;
      }
      var used := Used();
      if |values| > store.Length - used {
        fullCount := fullCount + 1;
        return false;
      }
      tail := PublishAll(values);
      pushed := pushed + values;
      if used + |values| > highWatermark { highWatermark := used + |values|; }
      ok := true;
    }

    /** The oldest value, not removed. */
    method Peek() returns (r: Option<T>)
      requires Valid()
      ensures r == if Contents() == [] then None else Some(Contents()[0])
    {
      hide Cursor;
      DistanceIs(|pushed|, popped, store.Length);
      if head == tail {
        return None;
      }
      SlotIs(popped, store.Length);
      assert SlotHolds(popped);
      r := Some(store[head % store.Length]);
    }

    method Pop()
      requires Valid() && Contents() != []
      modifies `head, `popped
      ensures Valid() && Contents() == old(Contents())[1..]
    {
      hide Cursor, Next;
      NextIs(popped, store.Length);
      head := Next(head, store.Length);
      popped := popped + 1;
    }
  }
}
