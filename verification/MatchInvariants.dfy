/** What every request keeps true of an exchange book, and price-time priority itself. */
module MatchInvariants {
  import opened Types
  import opened Rings
  import opened PriceBooks
  import opened MatchSpec

  /** One live order: fields within the limits checked on entry, priority no larger than the id. */
  ghost predicate InBounds(b: Book, id: OrderId)
    requires id in b.resting.orders
  {
    var o := b.resting.orders[id];
    && 0 < id < b.nextId
    && 1 <= o.priority <= id
    && 0 < o.price && o.price != PRICE_INVALID
    && o.qty <= INT32_MAX
    && o.owner in b.used
  }

  /** Along one level's FIFO both the market order id and the priority strictly increase. */
  ghost predicate Ascending(b: PriceBook, k: Key)
    requires k in b.fifo
  {
    forall i, j :: 0 <= i < j < |b.fifo[k]| ==> Earlier(b, b.fifo[k][i], b.fifo[k][j])
  }

  ghost predicate Earlier(b: PriceBook, x: OrderId, y: OrderId) {
    x in b.orders && y in b.orders && x < y && b.orders[x].priority < b.orders[y].priority
  }

  ghost predicate AllAscending(b: PriceBook) {
    forall k :: k in b.fifo ==> Ascending(b, k)
  }

  /** The best bid is below the best ask. */
  ghost predicate Uncrossed(b: PriceBook) {
    forall p, q :: (Buy, p) in b.fifo && (Sell, q) in b.fifo ==> p < q
  }

  ghost predicate OwnersDiffer(b: PriceBook) {
    forall x, y :: x in b.orders && y in b.orders && x != y ==> b.orders[x].owner != b.orders[y].owner
  }

  ghost predicate BookInv(b: Book) {
    && Sound(b.resting)
    && AllAscending(b.resting)
    && Uncrossed(b.resting)
    && OwnersDiffer(b.resting)
    && (forall id :: id in b.resting.orders ==> InBounds(b, id))
    && (forall o :: o in b.used ==> o.client < ME_MAX_NUM_CLIENTS && 0 < o.clientOrderId < ME_MAX_ORDER_IDS)
    && 1 <= b.nextId <= ME_MAX_ORDER_IDS
    && |b.resting.fifo| <= ME_MAX_PRICE_LEVELS
  }

  lemma InvSound(b: Book)
    requires BookInv(b)
    ensures Sound(b.resting)
  {
  }

  // ------------------------------------------------------------------ price-time priority

  /** `x` stands before `y` for an incoming order of the other side. */
  predicate Ahead(x: Order, y: Order) {
    (if x.side.Buy? then x.price > y.price else x.price < y.price) || (x.price == y.price && x.id < y.id)
  }

  /** The matched order is the unique one ahead of every other order of its side, and it crosses;
      there is none exactly when no order of that side crosses. */
  lemma NextMakerIsFirst(b: PriceBook, t: Taker)
    requires Sound(b) && AllAscending(b) && t.side.Valid()
    ensures match NextMaker(b, t)
            case Some(m) =>
              && (if t.side.Buy? then b.orders[m].price <= t.price else t.price <= b.orders[m].price)
              && forall id :: id in b.orders && b.orders[id].side == t.side.Opposite() && id != m
                              ==> Ahead(b.orders[m], b.orders[id])
            case None =>
              forall id :: id in b.orders && b.orders[id].side == t.side.Opposite()
                           ==> (if t.side.Buy? then t.price < b.orders[id].price else b.orders[id].price < t.price)
  {
    var side := t.side.Opposite();
    var best := BestPrice(b, side);
    forall id | id in b.orders && b.orders[id].side == side
      ensures best.Some? && !Better(side, b.orders[id].price, best.value)
    {
      assert OrderWf(b, id);
      assert (side, b.orders[id].price) in b.fifo;
    }
    if NextMaker(b, t).Some? {
      var k := (side, best.value);
      var m := NextMaker(b, t).value;
      assert QueueWf(b, k) && Ascending(b, k) && m == b.fifo[k][0] && OrderWf(b, m);
      forall id | id in b.orders && b.orders[id].side == side && id != m
        ensures Ahead(b.orders[m], b.orders[id])
      {
        assert OrderWf(b, id);
        if b.orders[id].price == best.value {
          var j :| 0 <= j < |b.fifo[k]| && b.fifo[k][j] == id;
          assert Earlier(b, b.fifo[k][0], b.fifo[k][j]);
        }
      }
    }
  }

  // ------------------------------------------------------------------ preservation

  /** Dropping one element of an ascending queue leaves it ascending. */
  lemma DropAscending(b: PriceBook, b': PriceBook, k: Key, p: nat)
    requires k in b.fifo && k in b'.fifo && Ascending(b, k) && p < |b.fifo[k]| && b'.fifo[k] == RemoveAt(b.fifo[k], p)
    requires forall i :: 0 <= i < |b'.fifo[k]| ==> b'.fifo[k][i] in b'.orders
    requires forall id :: id in b'.orders ==> id in b.orders && b'.orders[id].priority == b.orders[id].priority
    ensures Ascending(b', k)
  {
    RemoveAtIndex(b.fifo[k], p);
    forall i, j | 0 <= i < j < |b'.fifo[k]| ensures Earlier(b', b'.fifo[k][i], b'.fifo[k][j]) {
      assert Earlier(b, b.fifo[k][if i < p then i else i + 1], b.fifo[k][if j < p then j else j + 1]);
    }
  }

  lemma KeepAscending(b: PriceBook, b': PriceBook, k: Key)
    requires k in b.fifo && k in b'.fifo && Ascending(b, k) && b'.fifo[k] == b.fifo[k]
    requires forall i :: 0 <= i < |b'.fifo[k]| ==> b'.fifo[k][i] in b'.orders
    requires forall id :: id in b'.orders ==> id in b.orders && b'.orders[id].priority == b.orders[id].priority
    ensures Ascending(b', k)
  {
    forall i, j | 0 <= i < j < |b'.fifo[k]| ensures Earlier(b', b'.fifo[k][i], b'.fifo[k][j]) {
      assert Earlier(b, b.fifo[k][i], b.fifo[k][j]);
    }
  }

  lemma DeleteAscending(b: PriceBook, id: OrderId)
    requires Wf(b) && AllAscending(b) && id in b.orders
    ensures AllAscending(Delete(b, id))
  {
    var b' := Delete(b, id);
    var k := KeyOf(b.orders[id]);
    assert OrderWf(b, id) && QueueWf(b, k);
    var p :| 0 <= p < |b.fifo[k]| && b.fifo[k][p] == id;
    WithoutAt(b.fifo[k], p);
    DeleteWf(b, id);
    hide Without, RemoveAt, Ascending;
    forall k' | k' in b'.fifo ensures Ascending(b', k') {
      assert Ascending(b, k') && QueueWf(b', k');
      if k' == k { DropAscending(b, b', k, p); } else { KeepAscending(b, b', k'); }
    }
  }

  lemma SetQtyAscending(b: PriceBook, id: OrderId, qty: nat)
    requires AllAscending(b) && id in b.orders
    ensures AllAscending(SetQty(b, id, qty))
  {
    var b' := SetQty(b, id, qty);
    forall k | k in b'.fifo ensures Ascending(b', k) {
      assert Ascending(b, k);
      forall i, j | 0 <= i < j < |b'.fifo[k]| ensures Earlier(b', b'.fifo[k][i], b'.fifo[k][j]) {
        assert Earlier(b, b.fifo[k][i], b.fifo[k][j]);
      }
    }
  }

  lemma AppendAscending(b: PriceBook, o: Order)
    requires Wf(b) && AllAscending(b) && forall id :: id in b.orders ==> id < o.id
    requires KeyOf(o) in b.fifo ==> QueueWf(b, KeyOf(o)) && o.priority == NextPriority(b, KeyOf(o))
    ensures AllAscending(Append(b, o))
  {
    var b' := Append(b, o);
    forall k | k in b'.fifo ensures Ascending(b', k) {
      assert k in b.fifo ==> Ascending(b, k) && QueueWf(b, k);
      forall i, j | 0 <= i < j < |b'.fifo[k]| ensures Earlier(b', b'.fifo[k][i], b'.fifo[k][j]) {
        if k != KeyOf(o) || j < |b.fifo[k]| {
          assert Earlier(b, b.fifo[k][i], b.fifo[k][j]);
        } else {
          assert b'.fifo[k][j] == o.id && b'.fifo[k][i] == b.fifo[k][i];
          var last := |b.fifo[k]| - 1;
          if i < last { assert Earlier(b, b.fifo[k][i], b.fifo[k][last]); }
        }
      }
    }
  }

  /** What a run of executions may change: makers of the other side shrink or leave, nothing else. */
  ghost predicate Thinned(b: PriceBook, b': PriceBook, side: Side) {
    && b'.fifo.Keys <= b.fifo.Keys
    && (forall k :: k in b.fifo && k.0 != side ==> k in b'.fifo && b'.fifo[k] == b.fifo[k])
    && b'.orders.Keys <= b.orders.Keys
    && (forall id :: id in b'.orders ==> b'.orders[id].qty <= b.orders[id].qty
                                         && b'.orders[id] == b.orders[id].(qty := b'.orders[id].qty))
    && (forall id :: id in b.orders && b.orders[id].side != side ==> id in b'.orders && b'.orders[id] == b.orders[id])
  }

  lemma FillThins(b: PriceBook, t: Taker, maker: OrderId, leaves: nat)
    requires Sound(b) && AllAscending(b) && maker in b.orders && b.orders[maker].side == t.side.Opposite()
    ensures Thinned(b, Fill(b, t, maker, leaves).book, t.side.Opposite())
    ensures AllAscending(Fill(b, t, maker, leaves).book)
  {
    var rest := b.orders[maker].qty - Min(leaves, b.orders[maker].qty);
    if rest == 0 { DeleteAscending(b, maker); } else { SetQtyAscending(b, maker, rest); }
    assert OrderWf(b, maker);
  }

  lemma {:induction false} MatchThins(b: PriceBook, t: Taker, leaves: nat)
    requires Sound(b) && AllAscending(b)
    ensures var m := MatchAll(b, t, leaves);
            && Sound(m.book) && AllAscending(m.book) && Thinned(b, m.book, t.side.Opposite())
            && m.leaves <= leaves
            && (m.leaves > 0 ==> NextMaker(m.book, t) == None)
    decreases leaves
  {
    MatchSound(b, t, leaves);
    if leaves > 0 && NextMaker(b, t).Some? {
      var maker := NextMaker(b, t).value;
      FillSound(b, t, maker, leaves);
      FillThins(b, t, maker, leaves);
      var f := Fill(b, t, maker, leaves);
      MatchThins(f.book, t, f.leaves);
    }
  }

  lemma NothingCrosses(b: PriceBook, t: Taker, p: int)
    requires Sound(b) && NextMaker(b, t) == None && (t.side.Opposite(), p) in b.fifo
    ensures !Crosses(t.side, t.price, p)
  {
    var best := BestPrice(b, t.side.Opposite());
    assert best.Some? && IsBestPrice(b, t.side.Opposite(), best.value);
  }

  lemma AddSetSize(s: set<Key>, k: Key)
    ensures |s + {k}| == if k in s then |s| else |s| + 1
  {
    if k in s { assert s + {k} == s; }
  }

  /** Executions keep the invariant, also after the taker's id and owner are taken. */
  lemma ThinnedKeeps(b: Book, b': PriceBook, side: Side, o: Owner)
    requires BookInv(b) && Sound(b') && AllAscending(b') && Thinned(b.resting, b', side)
    requires b.nextId < ME_MAX_ORDER_IDS
    requires o.client < ME_MAX_NUM_CLIENTS && 0 < o.clientOrderId < ME_MAX_ORDER_IDS
    ensures BookInv(Book(b', b.nextId + 1, b.used + {o}, b.history))
  {
    hide Wf, AllAscending;
    SubsetSize(b'.fifo.Keys, b.resting.fifo.Keys);
    forall id | id in b'.orders ensures InBounds(Book(b', b.nextId + 1, b.used + {o}, b.history), id) {
      assert InBounds(b, id);
    }
  }

  lemma AppendBounds(b: Book, o: Order)
    requires forall id :: id in b.resting.orders ==> InBounds(b, id)
    requires 0 < o.id < b.nextId && 1 <= o.priority <= o.id && 0 < o.price && o.price != PRICE_INVALID
    requires o.qty <= INT32_MAX && o.owner in b.used
    requires OwnersDiffer(b.resting) && forall id :: id in b.resting.orders ==> b.resting.orders[id].owner != o.owner
    ensures OwnersDiffer(Append(b.resting, o))
    ensures var b' := b.(resting := Append(b.resting, o));
            forall id :: id in b'.resting.orders ==> InBounds(b', id)
  {
    var b' := b.(resting := Append(b.resting, o));
    forall id | id in b'.resting.orders ensures InBounds(b', id) {
      if id != o.id { assert InBounds(b, id); }
    }
  }

  lemma AppendKeeps(b: Book, o: Order)
    requires BookInv(b) && o.id + 1 == b.nextId && forall id :: id in b.resting.orders ==> id < o.id
    requires o.side.Valid() && 0 < o.price && o.price != PRICE_INVALID && 0 < o.qty <= INT32_MAX && 0 < o.id
    requires KeyOf(o) in b.resting.fifo ==> QueueWf(b.resting, KeyOf(o))
    requires o.priority == NextPriority(b.resting, KeyOf(o)) && o.owner in b.used
    requires forall id :: id in b.resting.orders ==> b.resting.orders[id].owner != o.owner
    requires KeyOf(o) !in b.resting.fifo ==> |b.resting.fifo| < ME_MAX_PRICE_LEVELS
    requires Uncrossed(Append(b.resting, o))
    ensures BookInv(b.(resting := Append(b.resting, o)))
  {
    hide Wf, AllAscending, Uncrossed, OwnersDiffer, InBounds;
    AppendWf(b.resting, o);
    AppendAscending(b.resting, o);
    AddSetSize(b.resting.fifo.Keys, KeyOf(o));
    assert Append(b.resting, o).fifo.Keys == b.resting.fifo.Keys + {KeyOf(o)};
    PriorityBounded(b, KeyOf(o));
    AppendBounds(b, o);
  }

  /** The next priority of a queue is at most one more than the largest id given out. */
  lemma PriorityBounded(b: Book, k: Key)
    requires BookInv(b) && (k in b.resting.fifo ==> QueueWf(b.resting, k))
    ensures k !in b.resting.fifo ==> NextPriority(b.resting, k) == 1
    ensures k in b.resting.fifo ==>
              var last := b.resting.fifo[k][|b.resting.fifo[k]| - 1];
              last in b.resting.orders && 1 < NextPriority(b.resting, k) <= last + 1
  {
    hide Wf, AllAscending, Uncrossed, OwnersDiffer;
    if k in b.resting.fifo { assert InBounds(b, b.resting.fifo[k][|b.resting.fifo[k]| - 1]); }
  }

  /** The new order's place: a fresh id, a fresh owner, and the next priority of its queue. */
  lemma RestKeeps(b: Book, m: Matched, t: Taker)
    requires BookInv(b) && b.resting == m.book && t.id + 1 == b.nextId && 0 < t.id && t.owner in b.used
    requires t.side.Valid() && 0 < t.price && t.price != PRICE_INVALID && m.leaves <= INT32_MAX
    requires forall id :: id in m.book.orders ==> id < t.id && m.book.orders[id].owner != t.owner
    requires m.leaves > 0 ==> NextMaker(m.book, t) == None
    requires (t.side, t.price) !in m.book.fifo ==> |m.book.fifo| < ME_MAX_PRICE_LEVELS
    ensures BookInv(b.(resting := Rest(m, t).book))
  {
    if m.leaves > 0 {
      var k := (t.side, t.price);
      assert k in m.book.fifo ==> QueueWf(m.book, k);
      var o := Order(t.owner, t.id, t.side, t.price, m.leaves, NextPriority(m.book, k));
      UncrossedAfterRest(m.book, t, o);
      hide Wf, AllAscending, Uncrossed;
      AppendKeeps(b, o);
    }
  }

  lemma UncrossedAfterRest(b': PriceBook, t: Taker, o: Order)
    requires Uncrossed(b') && Sound(b') && t.side.Valid()
    requires NextMaker(b', t) == None && KeyOf(o) == (t.side, t.price)
    ensures Uncrossed(Append(b', o))
  {
    forall p, q | (Buy, p) in Append(b', o).fifo && (Sell, q) in Append(b', o).fifo ensures p < q {
      if (Buy, p) in b'.fifo && (Sell, q) in b'.fifo {
      } else if t.side.Buy? {
        NothingCrosses(b', t, q);
      } else {
        NothingCrosses(b', t, p);
      }
    }
  }

  /** `add` keeps the invariant, whatever is asked. */
  lemma AddKeeps(b: Book, me: TickerId, o: Owner, ticker: TickerId, side: Side, price: int, qty: nat)
    requires BookInv(b)
    ensures BookInv(AddOrder(b, me, o, ticker, side, price, qty).book)
  {
    hide Wf, AllAscending, Uncrossed, OwnersDiffer, MatchAll, Rest, Sound;
    if AddReason(b, me, o, ticker, side, price, qty) == NoReason {
      var t := Taker(o, ticker, side, price, b.nextId);
      assert Sound(b.resting) && AllAscending(b.resting);
      MatchThins(b.resting, t, qty);
      var m := MatchAll(b.resting, t, qty);
      ThinnedKeeps(b, m.book, t.side.Opposite(), o);
      var b0 := Book(m.book, b.nextId + 1, b.used + {o}, b.history);
      SubsetSize(m.book.fifo.Keys, b.resting.fifo.Keys);
      forall id | id in m.book.orders ensures id < t.id && m.book.orders[id].owner != o {
        assert InBounds(b, id);
      }
      RestKeeps(b0, m, t);
      HistoryFree(b0.(resting := Rest(m, t).book), AddOrder(b, me, o, ticker, side, price, qty).book.history);
    }
  }

  lemma HistoryFree(b: Book, h: map<Owner, Response>)
    requires BookInv(b)
    ensures BookInv(b.(history := h))
  {
    forall id | id in b.resting.orders ensures InBounds(b.(history := h), id) { assert InBounds(b, id); }
  }

  /** The checks made before matching suffice: after any match there is room in both pools for what is
      left, its id and its owner are not taken, and nothing more crosses. */
  lemma RoomForRest(b: Book, me: TickerId, t: Taker, qty: nat)
    requires BookInv(b) && AddReason(b, me, t.owner, t.ticker, t.side, t.price, qty) == NoReason
    requires t.id == b.nextId
    ensures Sound(b.resting)
    ensures var m := MatchAll(b.resting, t, qty);
            && Sound(m.book) && t.id !in m.book.orders
            && (forall id :: id in m.book.orders ==> m.book.orders[id].owner != t.owner)
            && |m.book.orders| < ME_MAX_ORDER_IDS
            && ((t.side, t.price) in m.book.fifo || |m.book.fifo| < ME_MAX_PRICE_LEVELS)
            && (m.leaves > 0 ==> NextMaker(m.book, t) == None)
  {
    hide MatchAll, Sound, AllAscending, Uncrossed, OwnersDiffer, InBounds;
    MatchThins(b.resting, t, qty);
    var m := MatchAll(b.resting, t, qty);
    SubsetSize(m.book.fifo.Keys, b.resting.fifo.Keys);
    SubsetSize(m.book.orders.Keys, b.resting.orders.Keys);
    forall id | id in m.book.orders ensures id < t.id && m.book.orders[id].owner != t.owner {
      BelowNext(b, id);
    }
  }

  lemma BelowNext(b: Book, id: OrderId)
    requires BookInv(b) && id in b.resting.orders
    ensures id < b.nextId && b.resting.orders[id].owner in b.used
  {
    assert InBounds(b, id);
  }

  lemma CancelKeeps(b: Book, me: TickerId, o: Owner, ticker: TickerId)
    requires BookInv(b)
    ensures BookInv(CancelOf(b, me, o, ticker).book)
  {
    var b' := CancelOf(b, me, o, ticker).book;
    if b' != b {
      var id := OrderOf(b.resting, o).value;
      DeleteWf(b.resting, id);
      DeleteAscending(b.resting, id);
      assert OrderWf(b.resting, id);
      SubsetSize(b'.resting.fifo.Keys, b.resting.fifo.Keys);
      forall x | x in b'.resting.orders ensures InBounds(b', x) { assert InBounds(b, x); }
    }
  }
}
