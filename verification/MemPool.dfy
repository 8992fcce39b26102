/** `common/mem_pool.h`: a fixed number of slots and a stack of the free ones. */
module MemPools {
  import opened Types
  import opened Rings

  class MemPool<T> {
    const capacity: nat
    var blocks: seq<Option<T>>
    var free: seq<Slot>

    /** The live objects, by slot. */
    ghost var store: map<Slot, T>

    ghost predicate Valid()
      reads this
    {
      && |blocks| == capacity
      && (forall i :: 0 <= i < |free| ==> free[i] < capacity && blocks[free[i]].None?)
      && Distinct(free)
      && (forall s :: s in store <==> 0 <= s < capacity && blocks[s].Some?)
      && (forall s :: s in store ==> store[s] == blocks[s].value)
      && |store| + |free| == capacity
    }

    constructor (capacity: nat)
      requires 0 < capacity <= 0xFFFF_FFFF
      ensures Valid() && store == map[] && this.capacity == capacity
    {
      this.capacity := capacity;
      blocks := seq(capacity, _ => None);
      free := seq(capacity, i requires 0 <= i < capacity => capacity - i - 1);
      store := map[];
    }

    function Available(): (n: nat)
      requires Valid()
      reads this
      ensures n + |store| == capacity
    {
      |free|
    }

    /** Takes the most recently released slot; null when none is left. */
    method Allocate(v: T) returns (slot: int)
      requires Valid()
      modifies this
      ensures Valid()
      ensures |old(store)| == capacity ==> slot == NULL && store == old(store)
      ensures |old(store)| < capacity ==> slot >= 0 && slot !in old(store) && store == old(store)[slot := v]
    {
      if free == [] {
        return NULL;
      }
      var index := free[|free| - 1];
      blocks := blocks[index := Some(v)];
      free := free[..|free| - 1];
      store := store[index := v];
      slot := index;
    }

    /** Gives a slot back; the source stops on a foreign pointer or a second release. */
    method Deallocate(slot: Slot)
      requires Valid() && slot in store
      modifies this
      ensures Valid() && store == old(store) - {slot}
    {
      blocks := blocks[slot := None];
      free := free + [slot];
      store := store - {slot};
      assert old(store.Keys) == store.Keys + {slot};
    }

    /** Reading through a pointer into the pool. */
    method Get(slot: Slot) returns (v: T)
      requires Valid() && slot in store
      ensures v == store[slot]
    {
      v := blocks[slot].value;
    }

    /** Writing through a pointer into the pool. */
    method Put(slot: Slot, v: T)
      requires Valid() && slot in store
      modifies this
      ensures Valid() && store == old(store)[slot := v]
    {
      blocks := blocks[slot := Some(v)];
      store := store[slot := v];
      assert store.Keys == old(store.Keys);
    }
  }
}

/** Relinking nodes of a ring through pointers into their pool. */
module PoolRings {
  import opened Rings
  import opened MemPools

  method WritePrev<T>(pool: MemPool<Node<T>>, x: Slot, p: int)
    requires pool.Valid() && x in pool.store
    modifies pool
    ensures pool.Valid() && pool.store == SetPrev(old(pool.store), x, p)
  {
    var n := pool.Get(x);
    pool.Put(x, n.(prev := p));
  }

  method WriteNext<T>(pool: MemPool<Node<T>>, x: Slot, p: int)
    requires pool.Valid() && x in pool.store
    modifies pool
    ensures pool.Valid() && pool.store == SetNext(old(pool.store), x, p)
  {
    var n := pool.Get(x);
    pool.Put(x, n.(next := p));
  }

  method LinkNodeBefore<T>(pool: MemPool<Node<T>>, x: Slot, target: Slot)
    requires pool.Valid() && x in pool.store && LinksInto(pool.store, target)
    requires x != target && pool.store[target].prev != x
    modifies pool
    ensures pool.Valid() && pool.store == LinkBefore(old(pool.store), x, target)
  {
    var t := pool.Get(target);
    WritePrev(pool, x, t.prev);
    WriteNext(pool, x, target);
    WriteNext(pool, t.prev, x);
    WritePrev(pool, target, x);
  }

  /** Takes `x` out of its ring; its own links become null. */
  method UnlinkNode<T>(pool: MemPool<Node<T>>, x: Slot)
    requires pool.Valid() && LinksInto(pool.store, x)
    requires pool.store[x].prev != x && pool.store[x].next != x
    modifies pool
    ensures pool.Valid()
    ensures pool.store == Unlink(old(pool.store), x)[x := Node(old(pool.store)[x].val, NULL, NULL)]
  {
    var n := pool.Get(x);
    WriteNext(pool, n.prev, n.next);
    WritePrev(pool, n.next, n.prev);
    pool.Put(x, n.(prev := NULL, next := NULL));
  }
}
