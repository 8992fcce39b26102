/** The order rings of all levels, against the queues of the plain book. */
module QueueShape {
  import opened Types
  import opened Rings
  import opened PriceBooks
  import opened LadderShape

  ghost predicate Stands(orders: Store<Order>, x: Slot, id: OrderId, k: Key) {
    x in orders && orders[x].val.id == id && KeyOf(orders[x].val) == k
  }

  /** One level's ring holds the orders of queue `f`, in this order. */
  ghost predicate QueueOk(orders: Store<Order>, q: seq<Slot>, f: seq<OrderId>, k: Key) {
    && IsRing(orders, q) && q != [] && |q| == |f|
    && (forall i :: 0 <= i < |q| ==> Stands(orders, q[i], f[i], k))
  }

  /** Order ids and pool slots name the same orders. */
  ghost predicate SlotsOk(orders: Store<Order>, slotOf: map<OrderId, Slot>, b: PriceBook) {
    && slotOf.Keys == b.orders.Keys
    && (forall id :: id in slotOf ==>
          slotOf[id] in orders && orders[slotOf[id]].val == b.orders[id] && b.orders[id].id == id)
    && (forall x :: x in orders ==> orders[x].val.id in slotOf && slotOf[orders[x].val.id] == x)
  }

  ghost predicate QueuesOk(orders: Store<Order>, queues: map<Key, seq<Slot>>, slotOf: map<OrderId, Slot>,
                           b: PriceBook) {
    && Wf(b)
    && SlotsOk(orders, slotOf, b)
    && queues.Keys == b.fifo.Keys
    && (forall k :: k in queues ==> QueueOk(orders, queues[k], b.fifo[k], k))
  }

  /** Every level points at the head of its queue. */
  ghost predicate FirstsOk(levels: Store<Level>, index: map<Key, Slot>, queues: map<Key, seq<Slot>>) {
    && index.Keys == queues.Keys
    && (forall k :: k in index ==>
          queues[k] != [] && index[k] in levels && levels[index[k]].val.first == queues[k][0])
  }

  lemma QueueFrame(orders: Store<Order>, orders': Store<Order>, q: seq<Slot>, f: seq<OrderId>, k: Key)
    requires QueueOk(orders, q, f, k)
    requires forall x :: x in orders && KeyOf(orders[x].val) == k ==>
                           x in orders' && orders'[x].val.id == orders[x].val.id
                           && KeyOf(orders'[x].val) == k
                           && orders'[x].prev == orders[x].prev && orders'[x].next == orders[x].next
    ensures QueueOk(orders', q, f, k)
  {
    forall i | 0 <= i < |q| ensures Stands(orders', q[i], f[i], k) {
      assert Stands(orders, q[i], f[i], k);
    }
    forall x | x in q && x in orders
      ensures x in orders' && orders'[x].prev == orders[x].prev && orders'[x].next == orders[x].next
    {
      QueueMember(orders, q, f, k, x);
    }
    RingFrame(orders, orders', q);
  }

  lemma QueueMember(orders: Store<Order>, q: seq<Slot>, f: seq<OrderId>, k: Key, x: Slot)
    requires QueueOk(orders, q, f, k) && x in q
    ensures x in orders && KeyOf(orders[x].val) == k && orders[x].val.id in f
  {
    var i :| 0 <= i < |q| && q[i] == x;
    assert Stands(orders, q[i], f[i], k);
  }

  lemma SlotsAppend(orders: Store<Order>, orders': Store<Order>, slotOf: map<OrderId, Slot>, b: PriceBook, x: Slot)
    requires x in orders && SlotsOk(orders - {x}, slotOf, b) && orders[x].val.id !in b.orders
    requires orders'.Keys == orders.Keys && forall y :: y in orders ==> orders'[y].val == orders[y].val
    ensures SlotsOk(orders', slotOf[orders[x].val.id := x], Append(b, orders[x].val))
  {
    forall y | y in orders' && y != x ensures orders'[y].val.id in slotOf && slotOf[orders'[y].val.id] == y {
      assert y in orders - {x};
    }
  }

  /** The end of one queue, after the new order was linked in. */
  lemma QueueExtend(orders: Store<Order>, q: seq<Slot>, f: seq<OrderId>, k: Key, x: Slot)
    requires x in orders && KeyOf(orders[x].val) == k
    requires if q == [] then f == [] else QueueOk(orders - {x}, q, f, k)
    ensures q != [] ==> LinksInto(orders, q[0]) && x != q[0] && orders[q[0]].prev != x
    ensures QueueOk(Linked(orders, q, |q|, x), q + [x], f + [orders[x].val.id], k)
    ensures SameBut(orders, Linked(orders, q, |q|, x), q + [x])
  {
    LinkedRing(orders, q, |q|, x);
    assert InsertAt(q, |q|, x) == q + [x];
    var orders' := Linked(orders, q, |q|, x);
    hide Linked, IsRing, InsertAt;
    forall i | 0 <= i < |q + [x]| ensures Stands(orders', (q + [x])[i], (f + [orders[x].val.id])[i], k) {
      if i < |q| { assert Stands(orders - {x}, q[i], f[i], k); }
    }
  }

  /** Queues other than the one relinked stay as they were. */
  lemma OtherQueues(orders: Store<Order>, orders': Store<Order>, queues: map<Key, seq<Slot>>, b: PriceBook,
                    touched: seq<Slot>, k: Key)
    requires queues.Keys == b.fifo.Keys
    requires forall k' :: k' in queues ==> QueueOk(orders, queues[k'], b.fifo[k'], k')
    requires forall y :: y in orders && y !in touched ==> y in orders' && orders'[y] == orders[y]
    requires forall y :: y in touched && y in orders ==> KeyOf(orders[y].val) == k
    ensures forall k' :: k' in queues && k' != k ==> QueueOk(orders', queues[k'], b.fifo[k'], k')
  {
    forall k' | k' in queues && k' != k ensures QueueOk(orders', queues[k'], b.fifo[k'], k') {
      QueueFrame(orders, orders', queues[k'], b.fifo[k'], k');
    }
  }

  lemma QueuesPut(orders: Store<Order>, queues: map<Key, seq<Slot>>, slotOf: map<OrderId, Slot>,
                  b: PriceBook, b': PriceBook, k: Key, q: seq<Slot>, f: seq<OrderId>)
    requires Wf(b') && SlotsOk(orders, slotOf, b') && queues.Keys == b.fifo.Keys && b'.fifo == b.fifo[k := f]
    requires forall k' :: k' in queues && k' != k ==> QueueOk(orders, queues[k'], b.fifo[k'], k')
    requires QueueOk(orders, q, f, k)
    ensures QueuesOk(orders, queues[k := q], slotOf, b')
  {
  }

  function RingAt(queues: map<Key, seq<Slot>>, k: Key): seq<Slot> {
    if k in queues then queues[k] else []
  }

  /** What linking a new order to the end of its level's ring yields. */
  lemma QueuesAppend(orders: Store<Order>, queues: map<Key, seq<Slot>>, slotOf: map<OrderId, Slot>,
                     b: PriceBook, x: Slot, k: Key, q: seq<Slot>)
    requires x in orders && QueuesOk(orders - {x}, queues, slotOf, b)
    requires orders[x].val.id !in b.orders && orders[x].val.side.Valid()
    requires k == KeyOf(orders[x].val) && q == RingAt(queues, k)
    ensures q != [] ==> LinksInto(orders, q[0]) && x != q[0] && orders[q[0]].prev != x
    ensures QueuesOk(Linked(orders, q, |q|, x), queues[k := q + [x]], slotOf[orders[x].val.id := x],
                     Append(b, orders[x].val))
    ensures Linked(orders, q, |q|, x).Keys == orders.Keys
    ensures forall y :: y in orders ==> Linked(orders, q, |q|, x)[y].val == orders[y].val
  {
    var o := orders[x].val;
    assert k in queues ==> QueueOk(orders - {x}, queues[k], b.fifo[k], k);
    QueueExtend(orders, q, QueueAt(b, k), k, x);
    AppendWf(b, o);
    var orders' := Linked(orders, q, |q|, x);
    SlotsAppend(orders, orders', slotOf, b, x);
    hide Linked, Wf, IsRing, SlotsOk, QueueOk;
    forall y | y in q + [x] && y in orders - {x} ensures KeyOf(orders[y].val) == k {
      QueueMember(orders - {x}, q, b.fifo[k], k, y);
    }
    OtherQueues(orders - {x}, orders', queues, b, q + [x], k);
    QueuesPut(orders', queues, slotOf[o.id := x], b, Append(b, o), k, q + [x], QueueAt(b, k) + [o.id]);
  }

  lemma SlotsDelete(orders: Store<Order>, orders': Store<Order>, slotOf: map<OrderId, Slot>, b: PriceBook, x: Slot)
    requires x in orders && SlotsOk(orders, slotOf, b)
    requires orders'.Keys == orders.Keys - {x} && forall y :: y in orders' ==> orders'[y].val == orders[y].val
    ensures orders[x].val.id in b.orders
    ensures SlotsOk(orders', slotOf - {orders[x].val.id}, Delete(b, orders[x].val.id))
  {
  }

  lemma QueueShrink(orders: Store<Order>, q: seq<Slot>, f: seq<OrderId>, k: Key, p: nat)
    requires QueueOk(orders, q, f, k) && p < |q| && Distinct(f)
    ensures q[p] in orders && (|q| > 1 ==> LinksInto(orders, q[p])) && orders[q[p]].val.id == f[p]
    ensures Without(f, f[p]) == RemoveAt(f, p)
    ensures |q| > 1 ==> QueueOk(Unlinked(orders, q, q[p]), RemoveAt(q, p), Without(f, f[p]), k)
  {
    UnlinkedRing(orders, q, p);
    WithoutAt(f, p);
    RemoveAtIndex(q, p);
    RemoveAtIndex(f, p);
    assert Stands(orders, q[p], f[p], k);
    if |q| > 1 {
      var orders', q', f' := Unlinked(orders, q, q[p]), RemoveAt(q, p), RemoveAt(f, p);
      hide Unlinked, IsRing, RemoveAt;
      forall i | 0 <= i < |q'| ensures Stands(orders', q'[i], f'[i], k) {
        var j := if i < p then i else i + 1;
        assert Stands(orders, q[j], f[j], k);
        assert q'[i] != q[p];
      }
    }
  }

  function Shrunk(queues: map<Key, seq<Slot>>, k: Key, p: nat): map<Key, seq<Slot>>
    requires k in queues && p < |queues[k]|
  {
    if |queues[k]| == 1 then queues - {k} else queues[k := RemoveAt(queues[k], p)]
  }

  /** What taking an order out of its level's ring, and its slot out of the pool, yields. */
  lemma QueuesDelete(orders: Store<Order>, queues: map<Key, seq<Slot>>, slotOf: map<OrderId, Slot>,
                     b: PriceBook, k: Key, p: nat, x: Slot)
    requires QueuesOk(orders, queues, slotOf, b) && k in queues && p < |queues[k]| && x == queues[k][p]
    ensures x in orders && orders[x].val.id in b.orders && (|queues[k]| > 1 ==> LinksInto(orders, x))
    ensures Unlinked(orders, queues[k], x).Keys == orders.Keys - {x}
    ensures forall y :: y in orders && y != x ==> Unlinked(orders, queues[k], x)[y].val == orders[y].val
    ensures QueuesOk(Unlinked(orders, queues[k], x), Shrunk(queues, k, p), slotOf - {orders[x].val.id},
                     Delete(b, orders[x].val.id))
  {
    var q, f := queues[k], b.fifo[k];
    assert QueueWf(b, k) && QueueOk(orders, q, f, k);
    QueueShrink(orders, q, f, k, p);
    UnlinkedRing(orders, q, p);
    var id := orders[x].val.id;
    var orders' := Unlinked(orders, q, x);
    QueueMember(orders, q, f, k, x);
    SlotsDelete(orders, orders', slotOf, b, x);
    assert KeyOf(b.orders[id]) == k;
    DeleteWf(b, id);
    assert |Without(f, id)| == |q| - 1;
    hide Unlinked, RemoveAt, Wf, SlotsOk, IsRing, QueueOk, Without;
    forall y | y in q && y in orders ensures KeyOf(orders[y].val) == k {
      QueueMember(orders, q, f, k, y);
    }
    OtherQueues(orders, orders', queues, b, q, k);
    if |q| > 1 {
      QueuesPut(orders', queues, slotOf - {id}, b, Delete(b, id), k, RemoveAt(q, p), Without(f, id));
    }
  }

  lemma QueuesSetQty(orders: Store<Order>, queues: map<Key, seq<Slot>>, slotOf: map<OrderId, Slot>,
                     b: PriceBook, x: Slot, qty: nat)
    requires QueuesOk(orders, queues, slotOf, b) && x in orders
    ensures orders[x].val.id in b.orders
    ensures QueuesOk(orders[x := orders[x].(val := orders[x].val.(qty := qty))], queues, slotOf,
                     SetQty(b, orders[x].val.id, qty))
  {
    hide QueueOk, Wf;
    var orders' := orders[x := orders[x].(val := orders[x].val.(qty := qty))];
    SetQtyWf(b, orders[x].val.id, qty);
    forall k | k in queues ensures QueueOk(orders', queues[k], b.fifo[k], k) {
      QueueFrame(orders, orders', queues[k], b.fifo[k], k);
    }
  }

  /** Where an order stands in the ring of its level. */
  lemma FindInQueue(orders: Store<Order>, queues: map<Key, seq<Slot>>, slotOf: map<OrderId, Slot>,
                    b: PriceBook, x: Slot) returns (p: nat)
    requires QueuesOk(orders, queues, slotOf, b) && x in orders
    ensures KeyOf(orders[x].val) in queues
    ensures p < |queues[KeyOf(orders[x].val)]| && queues[KeyOf(orders[x].val)][p] == x
  {
    var o := orders[x].val;
    assert OrderWf(b, o.id);
    var k := KeyOf(o);
    p :| 0 <= p < |b.fifo[k]| && b.fifo[k][p] == o.id;
    assert Stands(orders, queues[k][p], b.fifo[k][p], k);
  }

  /** An order alone in its ring links to itself; otherwise its links lead to its neighbours. */
  lemma QueueLinks(orders: Store<Order>, queues: map<Key, seq<Slot>>, slotOf: map<OrderId, Slot>,
                   b: PriceBook, k: Key, p: nat)
    requires QueuesOk(orders, queues, slotOf, b) && k in queues && p < |queues[k]|
    ensures var q := queues[k];
            && q[p] in orders
            && (orders[q[p]].prev == q[p] <==> |q| == 1)
            && (|q| > 1 ==> && LinksInto(orders, q[p]) && orders[q[p]].next != q[p]
                            && orders[q[p]].next == q[NextIndex(p, |q|)]
                            && |RemoveAt(q, p)| == |q| - 1 && RemoveAt(q, p)[0] == if p == 0 then orders[q[p]].next else q[0])
            && (p > 0 ==> q[p] != q[0])
  {
    assert QueueOk(orders, queues[k], b.fifo[k], k);
    RingLinks(orders, queues[k], p);
    RemoveAtIndex(queues[k], p);
  }

  lemma FirstsNewLevel(levels: Store<Level>, levels': Store<Level>, index: map<Key, Slot>,
                       queues: map<Key, seq<Slot>>, k: Key, v: Slot, n: Node<Level>, x: Slot)
    requires FirstsOk(levels, index, queues) && k !in index && v !in levels && n.val.first == x
    requires levels'.Keys == levels[v := n].Keys
    requires forall w :: w in levels' ==> levels'[w].val == levels[v := n][w].val
    ensures FirstsOk(levels', index[k := v], queues[k := [] + [x]])
  {
  }

  lemma FirstsAppend(levels: Store<Level>, index: map<Key, Slot>, queues: map<Key, seq<Slot>>, k: Key, x: Slot)
    requires FirstsOk(levels, index, queues) && k in index
    ensures k in queues && FirstsOk(levels, index, queues[k := queues[k] + [x]])
    ensures queues[k] != [] && index[k] in levels && levels[index[k]].val.first == queues[k][0]
  {
  }

  lemma FirstsDropLevel(levels: Store<Level>, levels': Store<Level>, index: map<Key, Slot>,
                        queues: map<Key, seq<Slot>>, k: Key)
    requires FirstsOk(levels, index, queues) && k in index && IndexOk(levels, index)
    requires levels'.Keys == levels.Keys - {index[k]}
    requires forall w :: w in levels' ==> levels'[w].val == levels[w].val
    ensures FirstsOk(levels', index - {k}, queues - {k})
  {
  }

  lemma FirstsShrink(levels: Store<Level>, index: map<Key, Slot>, queues: map<Key, seq<Slot>>, k: Key,
                     q: seq<Slot>, levels': Store<Level>)
    requires FirstsOk(levels, index, queues) && k in index && q != [] && IndexOk(levels, index)
    requires levels' == levels[index[k] := levels[index[k]].(val := levels[index[k]].val.(first := q[0]))]
    ensures FirstsOk(levels', index, queues[k := q])
  {
  }

  lemma FirstsKeys(levels: Store<Level>, index: map<Key, Slot>, queues: map<Key, seq<Slot>>)
    requires FirstsOk(levels, index, queues)
    ensures index.Keys == queues.Keys
    ensures forall k :: k in queues ==> queues[k] != []
  {
  }

  /** The best-level pointer leads to the best price, and its first order to the head of that queue. */
  lemma BestIs(orders: Store<Order>, levels: Store<Level>, index: map<Key, Slot>, heads: Heads, sides: Sides,
               queues: map<Key, seq<Slot>>, slotOf: map<OrderId, Slot>, b: PriceBook, side: Side)
    requires LevelsOk(levels, index, heads, sides) && QueuesOk(orders, queues, slotOf, b)
    requires FirstsOk(levels, index, queues) && side.Valid()
    ensures heads.Of(side) == NULL <==> BestPrice(b, side) == None
    ensures var v := heads.Of(side);
            v != NULL ==>
              && v >= 0 && v in levels && BestPrice(b, side) == Some(levels[v].val.price)
              && (side, levels[v].val.price) in b.fifo && (side, levels[v].val.price) in queues
              && index[(side, levels[v].val.price)] == v
  {
    var ring, v := sides.Of(side), heads.Of(side);
    HeadOf(levels, index, heads, sides, side);
    forall q | (side, q) in b.fifo ensures ring != [] && !Better(side, q, levels[ring[0]].val.price) {
      var w := index[(side, q)];
      assert w in ring;
      var i :| 0 <= i < |ring| && ring[i] == w;
      assert i > 0 ==> BetterLevel(levels, ring[0], ring[i], side);
    }
    if ring != [] {
      assert OnSide(levels, ring[0], side);
      BestPriceUnique(b, side, levels[v].val.price);
    }
  }

  /** The ends of a level's ring are the ends of its queue. */
  lemma QueueEnds(orders: Store<Order>, queues: map<Key, seq<Slot>>, slotOf: map<OrderId, Slot>, b: PriceBook, k: Key)
    requires QueuesOk(orders, queues, slotOf, b) && k in queues
    ensures k in b.fifo && queues[k] != [] && b.fifo[k] != []
    ensures var x := queues[k][0]; var id := b.fifo[k][0];
            && x in orders && id in b.orders && orders[x].val == b.orders[id]
            && orders[x].prev == queues[k][|queues[k]| - 1]
    ensures var x := queues[k][|queues[k]| - 1]; var id := b.fifo[k][|b.fifo[k]| - 1];
            x in orders && id in b.orders && orders[x].val == b.orders[id]
  {
    var q, f := queues[k], b.fifo[k];
    assert QueueOk(orders, q, f, k) && QueueWf(b, k);
    assert Stands(orders, q[0], f[0], k) && Stands(orders, q[|q| - 1], f[|f| - 1], k);
    RingLinks(orders, q, 0);
  }

  lemma {:induction false} OneToOne<X>(f: map<X, Slot>)
    requires forall x, y :: x in f && y in f && x != y ==> f[x] != f[y]
    ensures |f| == |f.Values|
  {
    if f.Keys != {} {
      var x :| x in f;
      var g := f - {x};
      OneToOne(g);
      assert f.Values == g.Values + {f[x]};
      assert f[x] !in g.Values;
      assert f.Keys == g.Keys + {x};
    } else {
      assert f.Values == {};
    }
  }

  /** The pools hold as many objects as the plain book has queues and orders. */
  lemma Sizes(orders: Store<Order>, levels: Store<Level>, index: map<Key, Slot>, queues: map<Key, seq<Slot>>,
              slotOf: map<OrderId, Slot>, b: PriceBook)
    requires IndexOk(levels, index) && FirstsOk(levels, index, queues) && QueuesOk(orders, queues, slotOf, b)
    ensures |levels| == |b.fifo| && |orders| == |b.orders|
  {
    OneToOne(index);
    assert index.Values == levels.Keys by {
      forall v | v in levels ensures v in index.Values { assert index[LevelKey(levels[v].val)] == v; }
    }
    assert index.Keys == b.fifo.Keys;
    SlotSizes(orders, slotOf, b);
  }

  lemma SlotSizes(orders: Store<Order>, slotOf: map<OrderId, Slot>, b: PriceBook)
    requires SlotsOk(orders, slotOf, b)
    ensures |orders| == |b.orders|
  {
    forall x, y | x in slotOf && y in slotOf && x != y ensures slotOf[x] != slotOf[y] {
      assert orders[slotOf[x]].val.id == x && orders[slotOf[y]].val.id == y;
    }
    OneToOne(slotOf);
    assert slotOf.Values == orders.Keys by {
      forall x | x in orders ensures x in slotOf.Values { assert slotOf[orders[x].val.id] == x; }
    }
  }

  /** What a walk along a level's ring reads at position `i`. */
  lemma QueueStep(orders: Store<Order>, queues: map<Key, seq<Slot>>, slotOf: map<OrderId, Slot>, b: PriceBook,
                  k: Key, i: nat)
    requires QueuesOk(orders, queues, slotOf, b) && k in queues && i < |queues[k]|
    ensures k in b.fifo && |b.fifo[k]| == |queues[k]|
    ensures var x := queues[k][i]; var id := b.fifo[k][i];
            && x in orders && id in b.orders && orders[x].val == b.orders[id]
            && orders[x].next == queues[k][NextIndex(i, |queues[k]|)]
            && (i > 0 ==> x != queues[k][0])
    ensures i == 0 ==> QueueQty(b, b.fifo[k][..1]) == b.orders[b.fifo[k][0]].qty
    ensures QueueQty(b, b.fifo[k][..i + 1]) == QueueQty(b, b.fifo[k][..i]) + b.orders[b.fifo[k][i]].qty
  {
    var q, f := queues[k], b.fifo[k];
    assert QueueOk(orders, q, f, k) && QueueWf(b, k);
    assert Stands(orders, q[i], f[i], k);
    RingLinks(orders, q, i);
    assert f[..i + 1][..i] == f[..i];
  }

  lemma EmptyShape()
    ensures LevelsOk(map[], map[], Heads(NULL, NULL), Sides([], []))
    ensures QueuesOk(map[], map[], map[], EMPTY) && FirstsOk(map[], map[], map[])
  {
  }
}
