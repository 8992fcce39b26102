/**
 The plain price-time book: the live orders, and for every side and price the queue of order ids in
 arrival order. This is the reference of `tests/01_reliability/book_model_test.cpp`.
*/
module PriceBooks {
  import opened Types
  import opened Rings

  type Key = (Side, int)

  datatype PriceBook = PriceBook(orders: map<OrderId, Order>, fifo: map<Key, seq<OrderId>>)

  const EMPTY := PriceBook(map[], map[])

  function KeyOf(o: Order): Key { (o.side, o.price) }

  predicate Better(side: Side, p: int, q: int) {
    if side.Buy? then p > q else p < q
  }

  function QueueAt(b: PriceBook, k: Key): seq<OrderId> {
    if k in b.fifo then b.fifo[k] else []
  }

  function Without(s: seq<OrderId>, id: OrderId): seq<OrderId> {
    if s == [] then [] else if s[0] == id then s[1..] else [s[0]] + Without(s[1..], id)
  }

  /** A new order goes to the end of its queue. */
  function Append(b: PriceBook, o: Order): PriceBook {
    PriceBook(b.orders[o.id := o], b.fifo[KeyOf(o) := QueueAt(b, KeyOf(o)) + [o.id]])
  }

  /** An order leaves; an empty queue leaves with it. */
  function Delete(b: PriceBook, id: OrderId): PriceBook
    requires id in b.orders
  {
    var k := KeyOf(b.orders[id]);
    var rest := Without(QueueAt(b, k), id);
    PriceBook(b.orders - {id}, if rest == [] then b.fifo - {k} else b.fifo[k := rest])
  }

  function SetQty(b: PriceBook, id: OrderId, qty: nat): PriceBook
    requires id in b.orders
  {
    b.(orders := b.orders[id := b.orders[id].(qty := qty)])
  }

  /** Queue `k` holds orders of side and price `k`, each once. */
  ghost predicate QueueWf(b: PriceBook, k: Key)
    requires k in b.fifo
  {
    && k.0.Valid()
    && b.fifo[k] != []
    && Distinct(b.fifo[k])
    && (forall i :: 0 <= i < |b.fifo[k]| ==>
          b.fifo[k][i] in b.orders && KeyOf(b.orders[b.fifo[k][i]]) == k)
  }

  ghost predicate OrderWf(b: PriceBook, id: OrderId)
    requires id in b.orders
  {
    && b.orders[id].id == id
    && KeyOf(b.orders[id]) in b.fifo
    && id in b.fifo[KeyOf(b.orders[id])]
  }

  /** The queues hold exactly the live orders, each in the queue of its side and price. */
  ghost predicate Wf(b: PriceBook) {
    && (forall k :: k in b.fifo ==> QueueWf(b, k))
    && (forall id :: id in b.orders ==> OrderWf(b, id))
  }

  lemma {:induction false} WithoutAt(s: seq<OrderId>, k: nat)
    requires Distinct(s) && k < |s|
    ensures Without(s, s[k]) == RemoveAt(s, k)
  {
    if k == 0 {
    } else {
      assert s[1..][k - 1] == s[k];
      WithoutAt(s[1..], k - 1);
      assert [s[0]] + RemoveAt(s[1..], k - 1) == RemoveAt(s, k);
    }
  }

  lemma AppendWf(b: PriceBook, o: Order)
    requires Wf(b) && o.id !in b.orders && o.side.Valid()
    ensures Wf(Append(b, o))
  {
    var b' := Append(b, o);
    forall k | k in b'.fifo ensures QueueWf(b', k) {
      if k in b.fifo { assert QueueWf(b, k); }
      if k == KeyOf(o) {
        forall i | 0 <= i < |b'.fifo[k]|
          ensures b'.fifo[k][i] in b'.orders && KeyOf(b'.orders[b'.fifo[k][i]]) == k
        {
          if i < |b'.fifo[k]| - 1 { assert b'.fifo[k][i] == b.fifo[k][i]; }
        }
      }
    }
    forall id | id in b'.orders ensures OrderWf(b', id) {
      if id == o.id {
        assert b'.fifo[KeyOf(o)][|b'.fifo[KeyOf(o)]| - 1] == o.id;
      } else {
        assert OrderWf(b, id);
      }
    }
  }

  lemma WithoutFacts(s: seq<OrderId>, id: OrderId)
    requires Distinct(s) && id in s
    ensures Distinct(Without(s, id)) && |Without(s, id)| == |s| - 1
    ensures forall q :: q in Without(s, id) <==> q in s && q != id
  {
    hide Without, RemoveAt, Distinct;
    var i: nat :| i < |s| && s[i] == id;
    WithoutAt(s, i);
    RemoveAtFacts(s, i);
  }

  lemma RemoveAtFacts(s: seq<OrderId>, i: nat)
    requires Distinct(s) && i < |s|
    ensures Distinct(RemoveAt(s, i)) && |RemoveAt(s, i)| == |s| - 1
    ensures forall q :: q in RemoveAt(s, i) <==> q in s && q != s[i]
  {
    hide RemoveAt;
    RemoveAtIndex(s, i);
    var rest := RemoveAt(s, i);
    forall q | q in s && q != s[i] ensures q in rest {
      var j :| 0 <= j < |s| && s[j] == q;
      assert rest[if j < i then j else j - 1] == q;
    }
  }

  lemma DeleteWf(b: PriceBook, id: OrderId)
    requires Wf(b) && id in b.orders
    ensures Wf(Delete(b, id))
  {
    var k := KeyOf(b.orders[id]);
    assert OrderWf(b, id) && QueueWf(b, k);
    WithoutFacts(b.fifo[k], id);
    hide Without;
    var b' := Delete(b, id);
    forall k' | k' in b'.fifo ensures QueueWf(b', k') {
      assert QueueWf(b, k');
      forall j | 0 <= j < |b'.fifo[k']|
        ensures b'.fifo[k'][j] in b'.orders && KeyOf(b'.orders[b'.fifo[k'][j]]) == k'
      {
        assert b'.fifo[k'][j] in b.fifo[k'];
      }
    }
    forall q | q in b'.orders ensures OrderWf(b', q) {
      assert OrderWf(b, q);
    }
  }

  lemma SetQtyWf(b: PriceBook, id: OrderId, qty: nat)
    requires Wf(b) && id in b.orders
    ensures Wf(SetQty(b, id, qty))
  {
    var b' := SetQty(b, id, qty);
    forall k | k in b'.fifo ensures QueueWf(b', k) { assert QueueWf(b, k); }
    forall q | q in b'.orders ensures OrderWf(b', q) { assert OrderWf(b, q); }
  }

  ghost predicate IsBestPrice(b: PriceBook, side: Side, p: int) {
    (side, p) in b.fifo && forall q :: (side, q) in b.fifo ==> !Better(side, q, p)
  }

  /** The best price of a side, none when the side is empty. */
  ghost function BestPrice(b: PriceBook, side: Side): (r: Option<int>)
    ensures r == None <==> forall p :: (side, p) !in b.fifo
    ensures r.Some? ==> IsBestPrice(b, side, r.value)
  {
    if exists p :: (side, p) in b.fifo then
      var p :| (side, p) in b.fifo;
      BestPriceExists(b, side, b.fifo.Keys, p);
      var best :| IsBestPrice(b, side, best);
      Some(best)
    else
      None
  }

  lemma {:induction false} BestPriceExists(b: PriceBook, side: Side, keys: set<Key>, p: int)
    requires (side, p) in keys && keys <= b.fifo.Keys
    requires forall q :: (side, q) in b.fifo && (side, q) !in keys ==> !Better(side, q, p)
    ensures exists best :: IsBestPrice(b, side, best)
    decreases |keys|
  {
    if exists q :: (side, q) in keys && Better(side, q, p) {
      var q :| (side, q) in keys && Better(side, q, p);
      BestPriceExists(b, side, keys - {(side, p)}, q);
    } else {
      assert IsBestPrice(b, side, p);
    }
  }

  lemma BestPriceUnique(b: PriceBook, side: Side, p: int)
    requires IsBestPrice(b, side, p)
    ensures BestPrice(b, side) == Some(p)
  {
  }

  /** The quantity resting in a queue. */
  function QueueQty(b: PriceBook, ids: seq<OrderId>): nat {
    if ids == [] then 0
    else
      var last := ids[|ids| - 1];
      QueueQty(b, ids[..|ids| - 1]) + (if last in b.orders then b.orders[last].qty else 0)
  }

  /** `BBO`: best prices and the quantities resting there. */
  datatype BBO = BBO(bidPrice: int, bidQty: nat, askPrice: int, askQty: nat)

  const BOOK_QTY_INVALID: nat := 0xFFFF_FFFF_FFFF_FFFF

  const NO_BBO := BBO(PRICE_INVALID, BOOK_QTY_INVALID, PRICE_INVALID, BOOK_QTY_INVALID)

  ghost function BboOf(b: PriceBook): BBO {
    var bid, ask := BestPrice(b, Buy), BestPrice(b, Sell);
    BBO(if bid.None? then PRICE_INVALID else bid.value,
        if bid.None? then BOOK_QTY_INVALID else QueueQty(b, b.fifo[(Buy, bid.value)]),
        if ask.None? then PRICE_INVALID else ask.value,
        if ask.None? then BOOK_QTY_INVALID else QueueQty(b, b.fifo[(Sell, ask.value)]))
  }
}
