/**
 The price levels of one book. `MEOrderBook` and `MarketOrderBook` contain this code twice, word for
 word: two rings of levels, a FIFO ring of orders in each level, the (side, price) index, two pools.
*/
module PriceLadders {
  import opened Types
  import opened Rings
  import opened PriceBooks
  import opened LadderShape
  import opened QueueShape
  import opened MemPools
  import opened PoolRings

  class PriceLadder {
    const orderPool: MemPool<Node<Order>>
    const levelPool: MemPool<Node<Level>>
    var bids: int
    var asks: int
    var index: map<Key, Slot>

    ghost var sides: Sides
    ghost var queues: map<Key, seq<Slot>>
    ghost var slotOf: map<OrderId, Slot>

    /** The plain book this ladder represents. */
    ghost var view: PriceBook

    ghost function Repr(): set<object> { {this, orderPool, levelPool} }

    ghost predicate PoolsOk()
      reads orderPool, levelPool
    {
      && orderPool.Valid() && levelPool.Valid()
      && orderPool.capacity == ME_MAX_ORDER_IDS
      && levelPool.capacity == ME_MAX_PRICE_LEVELS
    }

    ghost predicate Shape(orders: Store<Order>, levels: Store<Level>)
      reads this
    {
      && LevelsOk(levels, index, Heads(bids, asks), sides)
      && QueuesOk(orders, queues, slotOf, view)
      && FirstsOk(levels, index, queues)
    }

    ghost predicate Valid()
      reads Repr()
    {
      PoolsOk() && Shape(orderPool.store, levelPool.store)
    }

    constructor ()
      ensures Valid() && fresh(Repr()) && view == EMPTY
    {
      hide LevelsOk, QueuesOk, FirstsOk, MemPool.Valid;
      orderPool := new MemPool<Node<Order>>(ME_MAX_ORDER_IDS);
      levelPool := new MemPool<Node<Level>>(ME_MAX_PRICE_LEVELS);
      bids, asks, index := NULL, NULL, map[];
      sides, queues, slotOf, view := Sides([], []), map[], map[], EMPTY;
      new;
      EmptyShape();
    }

    function Best(side: Side): int
      reads this
    {
      if side.Buy? then bids else asks
    }

    /** `getOrdersAtPrice`. */
    function LevelAt(k: Key): int
      reads this
    {
      if k in index then index[k] else NULL
    }

    /** The do-while search: steps on from the best level while the level reached is better than `v`. */
    method Walk(v: Slot, best: Slot, side: Side, price: int, ghost ring: seq<Slot>)
      returns (target: Slot, ghost p: nat)
      requires levelPool.Valid() && v in levelPool.store
      requires levelPool.store[v].val.side == side && levelPool.store[v].val.price == price
      requires SideRing(levelPool.store - {v}, ring, best, side) && |ring| > 1
      requires BetterLevel(levelPool.store, ring[0], v, side)
      requires BetterLevel(levelPool.store, v, ring[|ring| - 1], side)
      ensures 0 < p < |ring| && target == ring[p] && target in levelPool.store
      ensures BetterLevel(levelPool.store, ring[p - 1], v, side)
      ensures !BetterLevel(levelPool.store, target, v, side)
    {
      ghost var levels: Store<Level> := levelPool.store;
      hide SideRing;
      WalkStep(levels, ring, best, side, v, 0);
      WalkStep(levels, ring, best, side, v, 1);
      var first := levelPool.Get(best);
      target := first.next;
      p := 1;
      var t := levelPool.Get(target);
      while target != best && Better(side, t.val.price, price)
        invariant 1 <= p < |ring| && target == ring[p] && target in levels && t == levels[target]
        invariant BetterLevel(levels, ring[p - 1], v, side)
        decreases |ring| - p
      {
        WalkStep(levels, ring, best, side, v, p);
        WalkStep(levels, ring, best, side, v, p + 1);
        target := t.next;
        p := p + 1;
        t := levelPool.Get(target);
      }
      WalkStep(levels, ring, best, side, v, p);
    }

    /** The level a new one goes before, and the new one's position in the ring of its side. */
    method FindTarget(v: Slot) returns (target: Slot, newBest: bool, ghost p: nat)
      requires levelPool.Valid() && v in levelPool.store
      requires LevelsOk(levelPool.store - {v}, index, Heads(bids, asks), sides)
      requires var l := levelPool.store[v].val;
               l.side.Valid() && LevelKey(l) !in index && sides.Of(l.side) != []
      ensures var l := levelPool.store[v].val; var ring := sides.Of(l.side);
              && p <= |ring| && target == ring[if p == |ring| then 0 else p] && newBest == (p == 0)
              && (forall i :: 0 <= i < p ==> BetterLevel(levelPool.store, ring[i], v, l.side))
              && (forall i :: p <= i < |ring| ==> BetterLevel(levelPool.store, v, ring[i], l.side))
    {
      hide LevelsOk, SideRing, IndexOk, MemPool.Valid;
      var level := levelPool.Get(v);
      var side, price := level.val.side, level.val.price;
      ghost var levels: Store<Level>, ring: seq<Slot> := levelPool.store, sides.Of(side);
      var best := Best(side);
      HeadOf(levels - {v}, index, Heads(bids, asks), sides, side);
      IndexOf(levels - {v}, index, Heads(bids, asks), sides);
      WalkStep(levels, ring, best, side, v, 0);
      WalkStep(levels, ring, best, side, v, |ring| - 1);
      var first := levelPool.Get(best);
      var last := levelPool.Get(first.prev);
      PriceDiffers(levels, index, v, best);
      PriceDiffers(levels, index, v, first.prev);
      newBest := Better(side, price, first.val.price);
      target := best;
      p := if newBest then 0 else |ring|;
      if !newBest && Better(side, price, last.val.price) {
        target, p := Walk(v, best, side, price, ring);
        WalkStep(levels, ring, best, side, v, p);
        PriceDiffers(levels, index, v, target);
      }
      SplitAt(levels, ring, best, side, v, p);
    }

    method SetBest(side: Side, v: int)
      modifies `bids, `asks
      ensures Heads(bids, asks) == Heads(old(bids), old(asks)).Set(side, v)
    {
      if side.Buy? { bids := v; } else { asks := v; }
    }

    /** Links a new level into the ring of its side. */
    method LinkLevel(v: Slot) returns (newBest: bool, ghost p: nat)
      requires levelPool.Valid() && v in levelPool.store
      requires LevelsOk(levelPool.store - {v}, index, Heads(bids, asks), sides)
      requires var l := levelPool.store[v].val; l.side.Valid() && LevelKey(l) !in index
      modifies levelPool
      ensures levelPool.Valid()
      ensures var st := old(levelPool.store); var l := st[v].val; var ring := sides.Of(l.side);
              && p <= |ring| && newBest == (p == 0)
              && (forall i :: 0 <= i < p ==> BetterLevel(st, ring[i], v, l.side))
              && (forall i :: p <= i < |ring| ==> BetterLevel(st, v, ring[i], l.side))
              && (ring != [] ==> var t := ring[if p == |ring| then 0 else p];
                                 LinksInto(st, t) && v != t && st[t].prev != v)
              && levelPool.store == Linked(st, ring, p, v)
    {
      hide SideRing, LinkBefore, LevelsOk, BetterLevel, MemPool.Valid;
      var level := levelPool.Get(v);
      var side := level.val.side;
      ghost var levels: Store<Level>, ring: seq<Slot> := levelPool.store, sides.Of(side);
      HeadOf(levels - {v}, index, Heads(bids, asks), sides, side);
      if Best(side) == NULL {
        WriteNext(levelPool, v, v);
        WritePrev(levelPool, v, v);
        newBest, p := true, 0;
      } else {
        var target;
        target, newBest, p := FindTarget(v);
        LinkTarget(levels, ring, Best(side), side, p, v);
        LinkNodeBefore(levelPool, v, target);
      }
    }

    /** `addOrdersAtPrice`: names a new level in the index and links it into the ring of its side. */
    method AddOrdersAtPrice(v: Slot)
      requires levelPool.Valid() && v in levelPool.store
      requires LevelsOk(levelPool.store - {v}, index, Heads(bids, asks), sides)
      requires var l := levelPool.store[v].val; l.side.Valid() && LevelKey(l) !in index
      modifies `index, `bids, `asks, `sides, levelPool
      ensures levelPool.Valid() && LevelsOk(levelPool.store, index, Heads(bids, asks), sides)
      ensures index == old(index)[LevelKey(old(levelPool.store)[v].val) := v]
      ensures levelPool.store.Keys == old(levelPool.store).Keys
      ensures forall w :: w in levelPool.store ==> levelPool.store[w].val == old(levelPool.store)[w].val
    {
      hide MemPool.Valid, LevelsOk, Linked, InsertAt, BetterLevel, LinksInto;
      var level := levelPool.Get(v);
      ghost var levels: Store<Level>, ring: seq<Slot> := levelPool.store, sides.Of(level.val.side);
      var newBest;
      ghost var p;
      newBest, p := LinkLevel(v);
      LevelInsert(levels, index, Heads(bids, asks), sides, p, v);
      index := index[LevelKey(level.val) := v];
      if newBest {
        SetBest(level.val.side, v);
      }
      sides := sides.Set(level.val.side, InsertAt(ring, p, v));
    }

    /** `removeOrdersAtPrice`: takes a level out of its ring, the index and the pool. */
    method RemoveOrdersAtPrice(side: Side, price: int)
      requires levelPool.Valid() && LevelsOk(levelPool.store, index, Heads(bids, asks), sides)
      requires (side, price) in index
      modifies `index, `bids, `asks, `sides, levelPool
      ensures levelPool.Valid() && LevelsOk(levelPool.store, index, Heads(bids, asks), sides)
      ensures index == old(index) - {(side, price)}
      ensures levelPool.store.Keys == old(levelPool.store).Keys - {old(index)[(side, price)]}
      ensures forall w :: w in levelPool.store ==> levelPool.store[w].val == old(levelPool.store)[w].val
    {
      hide MemPool.Valid, LevelsOk, Unlink, RemoveAt, LinksInto;
      var v := index[(side, price)];
      ghost var levels: Store<Level>, ring: seq<Slot> := levelPool.store, sides.Of(side);
      ghost var p := PlaceOf(levels, index, Heads(bids, asks), sides, (side, price));
      LevelRemove(levels, index, Heads(bids, asks), sides, side, p);
      var level := levelPool.Get(v);
      if level.next == v {
        SetBest(side, NULL);
      } else {
        if v == Best(side) {
          SetBest(side, level.next);
        }
        UnlinkNode(levelPool, v);
        WriteThenDrop(Unlink(levels, v), v, levelPool.store[v]);
      }
      index := index - {(side, price)};
      sides := sides.Set(side, RemoveAt(ring, p));
      levelPool.Deallocate(v);
    }

    /** A level for an order whose price has none yet. */
    method AddLevel(x: Slot, k: Key)
      requires levelPool.Valid() && k.0.Valid() && k !in index
      requires |levelPool.store| < levelPool.capacity
      requires LevelsOk(levelPool.store, index, Heads(bids, asks), sides)
      requires FirstsOk(levelPool.store, index, queues)
      modifies `index, `bids, `asks, `sides, levelPool
      ensures levelPool.Valid() && LevelsOk(levelPool.store, index, Heads(bids, asks), sides)
      ensures FirstsOk(levelPool.store, index, queues[k := [] + [x]])
    {
      hide MemPool.Valid, LevelsOk, FirstsOk;
      ghost var levels: Store<Level> := levelPool.store;
      var node := Node(Level(k.0, k.1, x), NULL, NULL);
      var v := levelPool.Allocate(node);
      WriteThenDrop(levels, v, node);
      AddOrdersAtPrice(v);
      FirstsNewLevel(levels, levelPool.store, old(index), queues, k, v, node, x);
    }

    method LinkOrder(x: Slot, first: int, ghost q: seq<Slot>)
      requires orderPool.Valid() && x in orderPool.store
      requires first == if q == [] then NULL else q[0]
      requires q != [] ==> LinksInto(orderPool.store, q[0]) && x != q[0] && orderPool.store[q[0]].prev != x
      modifies orderPool
      ensures orderPool.Valid() && orderPool.store == Linked(old(orderPool.store), q, |q|, x)
    {
      hide MemPool.Valid, LinkBefore, LinksInto;
      if first == NULL {
        WriteNext(orderPool, x, x);
        WritePrev(orderPool, x, x);
      } else {
        LinkNodeBefore(orderPool, x, first);
      }
    }

    /** `addOrder`: appends a new order to the FIFO of its level, making the level if need be. */
    method AddOrder(x: Slot)
      requires PoolsOk() && x in orderPool.store && Shape(orderPool.store - {x}, levelPool.store)
      requires var o := orderPool.store[x].val;
               && o.id !in view.orders && o.side.Valid()
               && (KeyOf(o) in index || |levelPool.store| < ME_MAX_PRICE_LEVELS)
      modifies Repr()
      ensures Valid() && orderPool.store.Keys == old(orderPool.store).Keys
      ensures forall y :: y in orderPool.store ==> orderPool.store[y].val == old(orderPool.store)[y].val
      ensures var o := old(orderPool.store)[x].val;
              view == Append(old(view), o) && slotOf == old(slotOf)[o.id := x]
    {
      hide MemPool.Valid, LevelsOk, QueuesOk, FirstsOk, Linked, LinksInto, Append;
      var node := orderPool.Get(x);
      var k := KeyOf(node.val);
      ghost var q: seq<Slot> := RingAt(queues, k);
      QueuesAppend(orderPool.store, queues, slotOf, view, x, k, q);
      FirstsKeys(levelPool.store, index, queues);
      if LevelAt(k) == NULL {
        LinkOrder(x, NULL, q);
        AddLevel(x, k);
      } else {
        FirstsAppend(levelPool.store, index, queues, k, x);
        var level := levelPool.Get(index[k]);
        LinkOrder(x, level.val.first, q);
      }
      queues := queues[k := q + [x]];
      slotOf := slotOf[node.val.id := x];
      view := Append(view, node.val);
    }

    /** Takes a slot for a new order and puts the order into the ladder. */
    method PlaceOrder(o: Order) returns (x: Slot)
      requires Valid() && |orderPool.store| < ME_MAX_ORDER_IDS
      requires o.id !in view.orders && o.side.Valid()
      requires KeyOf(o) in view.fifo || |levelPool.store| < ME_MAX_PRICE_LEVELS
      modifies Repr()
      ensures Valid() && x !in old(orderPool.store) && view == Append(old(view), o)
      ensures slotOf == old(slotOf)[o.id := x]
      ensures orderPool.store.Keys == old(orderPool.store).Keys + {x} && orderPool.store[x].val == o
      ensures forall y :: y in old(orderPool.store) ==> orderPool.store[y].val == old(orderPool.store)[y].val
    {
      hide PriceLadder.Shape, MemPool.Valid, Append, Wf;
      Counts();
      x := TakeSlot(o);
      AddOrder(x);
    }

    /** A free slot for an order that is not linked yet. */
    method TakeSlot(o: Order) returns (x: Slot)
      requires orderPool.Valid() && |orderPool.store| < orderPool.capacity
      modifies orderPool
      ensures orderPool.Valid() && x !in old(orderPool.store)
      ensures orderPool.store == old(orderPool.store)[x := Node(o, NULL, NULL)]
      ensures orderPool.store - {x} == old(orderPool.store)
    {
      hide MemPool.Valid;
      ghost var st: Store<Order> := orderPool.store;
      x := orderPool.Allocate(Node(o, NULL, NULL));
      WriteThenDrop(st, x, Node(o, NULL, NULL));
    }

    /** The order in front of a level has left; the next one takes its place. */
    method MoveFirst(k: Key, x: Slot, next: Slot, ghost q: seq<Slot>)
      requires levelPool.Valid() && k in index && k in queues && queues[k] != [] && q != []
      requires LevelsOk(levelPool.store, index, Heads(bids, asks), sides)
      requires FirstsOk(levelPool.store, index, queues)
      requires q[0] == if queues[k][0] == x then next else queues[k][0]
      modifies levelPool
      ensures levelPool.Valid() && levelPool.store.Keys == old(levelPool.store).Keys
      ensures LevelsOk(levelPool.store, index, Heads(bids, asks), sides)
      ensures FirstsOk(levelPool.store, index, queues[k := q])
    {
      assert IndexOk(levelPool.store, index);
      hide MemPool.Valid, LevelsOk, IndexOk;
      var level := levelPool.Get(index[k]);
      if level.val.first == x {
        LevelFirst(levelPool.store, index, Heads(bids, asks), sides, index[k], next);
        levelPool.Put(index[k], level.(val := level.val.(first := next)));
      }
      FirstsShrink(old(levelPool.store), index, queues, k, q, levelPool.store);
    }

    method DropLevel(k: Key)
      requires levelPool.Valid() && k in index
      requires LevelsOk(levelPool.store, index, Heads(bids, asks), sides)
      requires FirstsOk(levelPool.store, index, queues)
      modifies `index, `bids, `asks, `sides, levelPool
      ensures levelPool.Valid() && index.Keys == old(index).Keys - {k}
      ensures LevelsOk(levelPool.store, index, Heads(bids, asks), sides)
      ensures FirstsOk(levelPool.store, index, queues - {k})
    {
      assert IndexOk(levelPool.store, index);
      hide MemPool.Valid, LevelsOk, IndexOk, FirstsOk;
      RemoveOrdersAtPrice(k.0, k.1);
      FirstsDropLevel(old(levelPool.store), levelPool.store, old(index), queues, k);
    }

    /** Takes an order out of the ring of its level, and its slot back into the pool. */
    method UnlinkOrder(x: Slot, ghost q: seq<Slot>)
      requires orderPool.Valid() && x in orderPool.store
      requires |q| > 1 ==> LinksInto(orderPool.store, x)
      requires |q| > 1 ==> orderPool.store[x].prev != x && orderPool.store[x].next != x
      requires |q| == 1 <==> orderPool.store[x].prev == x
      requires q != []
      modifies orderPool
      ensures orderPool.Valid() && orderPool.store == Unlinked(old(orderPool.store), q, x)
    {
      hide MemPool.Valid, LinksInto, Unlink;
      var node := orderPool.Get(x);
      if node.prev != x {
        ghost var orders: Store<Order> := orderPool.store;
        UnlinkNode(orderPool, x);
        WriteThenDrop(Unlink(orders, x), x, orderPool.store[x]);
      }
      orderPool.Deallocate(x);
    }

    /** `removeOrder`: takes an order out of its level, the level too when it was the last one. */
    method RemoveOrder(x: Slot)
      requires Valid() && x in orderPool.store
      modifies Repr()
      ensures Valid() && orderPool.store.Keys == old(orderPool.store).Keys - {x}
      ensures forall y :: y in orderPool.store ==> orderPool.store[y].val == old(orderPool.store)[y].val
      ensures var o := old(orderPool.store)[x].val;
              && o.id in old(view).orders
              && view == Delete(old(view), o.id) && slotOf == old(slotOf) - {o.id}
    {
      hide MemPool.Valid, LevelsOk, IndexOk, QueuesOk, FirstsOk, Unlink, LinksInto, Delete, RemoveAt;
      var node := orderPool.Get(x);
      var k := KeyOf(node.val);
      ghost var orders: Store<Order> := orderPool.store;
      ghost var p := FindInQueue(orders, queues, slotOf, view, x);
      ghost var q: seq<Slot> := queues[k];
      QueuesDelete(orders, queues, slotOf, view, k, p, x);
      QueueLinks(orders, queues, slotOf, view, k, p);
      FirstsKeys(levelPool.store, index, queues);
      hide Unlinked;
      if node.prev == x {
        DropLevel(k);
      } else {
        MoveFirst(k, x, node.next, RemoveAt(q, p));
      }
      UnlinkOrder(x, q);
      queues := Shrunk(queues, k, p);
      slotOf := slotOf - {node.val.id};
      view := Delete(view, node.val.id);
    }

    lemma EmptyIndex()
      requires Valid() && view == EMPTY
      ensures slotOf == map[] && BboOf(view) == NO_BBO
    {
      assert slotOf.Keys == {};
    }

    lemma IdKeys()
      requires Valid()
      ensures slotOf.Keys == view.orders.Keys
    {
    }

    lemma ValueId(id: OrderId)
      requires Valid() && id in view.orders
      ensures view.orders[id].id == id
    {
    }

    lemma IdFacts(id: OrderId)
      requires Valid() && id in view.orders
      ensures id in slotOf && slotOf[id] in orderPool.store && orderPool.store[slotOf[id]].val == view.orders[id]
    {
    }

    method ReadOrder(x: Slot) returns (o: Order)
      requires Valid() && x in orderPool.store
      ensures o == orderPool.store[x].val && o.id in view.orders && view.orders[o.id] == o
      ensures o.id in slotOf && slotOf[o.id] == x
    {
      SlotFacts(x);
      var node := orderPool.Get(x);
      o := node.val;
    }

    /** Writes the remaining quantity of an order in place. */
    method SetOrderQty(x: Slot, qty: nat)
      requires Valid() && x in orderPool.store
      modifies Repr()
      ensures Valid() && orderPool.store.Keys == old(orderPool.store).Keys && slotOf == old(slotOf)
      ensures forall y :: y in orderPool.store ==>
                orderPool.store[y].val == if y == x then old(orderPool.store)[y].val.(qty := qty)
                                          else old(orderPool.store)[y].val
      ensures var o := old(orderPool.store)[x].val;
              && o.id in old(view).orders && view == SetQty(old(view), o.id, qty)
    {
      hide MemPool.Valid, LevelsOk, QueuesOk;
      QueuesSetQty(orderPool.store, queues, slotOf, view, x, qty);
      var node := orderPool.Get(x);
      orderPool.Put(x, node.(val := node.val.(qty := qty)));
      view := SetQty(view, node.val.id, qty);
    }

    /** The first order of the best level of a side; null when the side is empty. */
    method BestOrder(side: Side) returns (x: int)
      requires Valid() && side.Valid()
      ensures x == NULL <==> BestPrice(view, side) == None
      ensures x != NULL ==>
                && x >= 0 && x in orderPool.store
                && var k := (side, BestPrice(view, side).value);
                && k in view.fifo && view.fifo[k] != [] && view.fifo[k][0] in view.orders
                && orderPool.store[x].val == view.orders[view.fifo[k][0]]
    {
      BestIs(orderPool.store, levelPool.store, index, Heads(bids, asks), sides, queues, slotOf, view, side);
      FirstsKeys(levelPool.store, index, queues);
      hide MemPool.Valid, LevelsOk, QueuesOk, BestPrice;
      if Best(side) == NULL {
        return NULL;
      }
      var level := levelPool.Get(Best(side));
      QueueEnds(orderPool.store, queues, slotOf, view, (side, level.val.price));
      x := level.val.first;
    }

    /** `getNextPriority`: one more than the last order of the level, reached backwards from the first. */
    method NextPriorityAt(k: Key) returns (p: nat)
      requires Valid()
      ensures k in view.fifo ==> view.fifo[k] != [] && view.fifo[k][|view.fifo[k]| - 1] in view.orders
      ensures p == if k in view.fifo then view.orders[view.fifo[k][|view.fifo[k]| - 1]].priority + 1 else 1
    {
      hide MemPool.Valid, LevelsOk, QueuesOk;
      Counts();
      if LevelAt(k) == NULL {
        return 1;
      }
      FirstsKeys(levelPool.store, index, queues);
      QueueEnds(orderPool.store, queues, slotOf, view, k);
      var level := levelPool.Get(index[k]);
      var first := orderPool.Get(level.val.first);
      var last := orderPool.Get(first.prev);
      p := last.val.priority + 1;
    }

    /** The pools' counts, in terms of the plain book. */
    lemma Counts()
      requires Valid()
      ensures |orderPool.store| == |view.orders| && |levelPool.store| == |view.fifo|
      ensures index.Keys == view.fifo.Keys
      ensures Wf(view)
    {
      Sizes(orderPool.store, levelPool.store, index, queues, slotOf, view);
    }

    /** An order is reached through its slot, and a slot through its order's id. */
    lemma SlotFacts(x: Slot)
      requires Valid() && x in orderPool.store
      ensures var o := orderPool.store[x].val;
              o.id in view.orders && view.orders[o.id] == o && o.id in slotOf && slotOf[o.id] == x
    {
    }

    /** The quantity of the level at `k`, summed once around its ring. */
    method LevelQty(k: Key) returns (qty: nat)
      requires Valid() && k in index
      ensures k in view.fifo && qty == QueueQty(view, view.fifo[k])
    {
      hide MemPool.Valid, LevelsOk, QueuesOk, QueueQty;
      FirstsKeys(levelPool.store, index, queues);
      ghost var q: seq<Slot> := queues[k];
      var level := levelPool.Get(index[k]);
      QueueStep(orderPool.store, queues, slotOf, view, k, 0);
      var node := orderPool.Get(level.val.first);
      qty := node.val.qty;
      var order := node.next;
      ghost var i: nat := 1;
      while order != level.val.first
        invariant 1 <= i <= |q| && order == if i == |q| then q[0] else q[i]
        invariant qty == QueueQty(view, view.fifo[k][..i])
        decreases |q| - i
      {
        QueueStep(orderPool.store, queues, slotOf, view, k, i);
        node := orderPool.Get(order);
        qty := qty + node.val.qty;
        order := node.next;
        i := i + 1;
      }
      if i < |q| { QueueStep(orderPool.store, queues, slotOf, view, k, i); }
      assert view.fifo[k][..i] == view.fifo[k];
    }

    /** Best price and quantity of a side, the sentinels when it is empty. */
    method BestOf(side: Side) returns (price: int, qty: nat)
      requires Valid() && side.Valid()
      ensures var p := BestPrice(view, side);
              if p.None? then price == PRICE_INVALID && qty == BOOK_QTY_INVALID
              else price == p.value && qty == QueueQty(view, view.fifo[(side, p.value)])
    {
      hide MemPool.Valid, LevelsOk, QueuesOk, BestPrice, QueueQty;
      BestIs(orderPool.store, levelPool.store, index, Heads(bids, asks), sides, queues, slotOf, view, side);
      FirstsKeys(levelPool.store, index, queues);
      if Best(side) == NULL {
        return PRICE_INVALID, BOOK_QTY_INVALID;
      }
      var level := levelPool.Get(Best(side));
      price := level.val.price;
      qty := LevelQty((side, price));
    }

    /** Gives back all orders and all levels, as CLEAR does. */
    method Clear(oids: map<OrderId, Slot>)
      requires Valid() && oids == slotOf
      modifies Repr()
      ensures Valid() && view == EMPTY && slotOf == map[]
    {
      hide MemPool.Valid, FirstsOk, SideRing, OnRings, Wf, SlotsOk, QueueOk, LadderShape.IndexOk;
      assert SlotsOk(orderPool.store, oids, view);
      ReleaseOrders(oids);
      ReleaseLevels();
      index, bids, asks := map[], NULL, NULL;
      sides, queues, slotOf, view := Sides([], []), map[], map[], EMPTY;
      EmptyShape();
    }

    method ReleaseOrders(oids: map<OrderId, Slot>)
      requires orderPool.Valid() && SlotsOk(orderPool.store, oids, view)
      modifies orderPool
      ensures orderPool.Valid() && orderPool.store == map[]
    {
      hide MemPool.Valid, SlotsOk;
      ghost var orders: Store<Order> := orderPool.store;
      var rest := oids.Keys;
      SlotsNamed(orders, oids, view);
      while rest != {}
        invariant orderPool.Valid() && rest <= oids.Keys
        invariant forall x :: x in orderPool.store <==> x in orders && orders[x].val.id in rest
        decreases rest
      {
        var id :| id in rest;
        orderPool.Deallocate(oids[id]);
        rest := rest - {id};
      }
      assert orderPool.store.Keys == {};
    }

    lemma SlotsNamed(orders: Store<Order>, oids: map<OrderId, Slot>, b: PriceBook)
      requires SlotsOk(orders, oids, b)
      ensures forall id :: id in oids ==> oids[id] in orders && orders[oids[id]].val.id == id
      ensures forall x :: x in orders ==> orders[x].val.id in oids && oids[orders[x].val.id] == x
    {
    }

    method ReleaseLevels()
      requires levelPool.Valid() && IndexOk(levelPool.store, index)
      modifies levelPool
      ensures levelPool.Valid() && levelPool.store == map[]
    {
      hide MemPool.Valid;
      ghost var levels: Store<Level> := levelPool.store;
      var rest := index.Keys;
      while rest != {}
        invariant levelPool.Valid() && rest <= index.Keys
        invariant forall v :: v in levelPool.store <==> v in levels && LevelKey(levels[v].val) in rest
        decreases rest
      {
        var k :| k in rest;
        levelPool.Deallocate(index[k]);
        rest := rest - {k};
      }
      assert levelPool.store.Keys == {};
    }
  }
}
