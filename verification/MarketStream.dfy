/**
 The market event stream of all tickers, the snapshots taken of it, and what replaying either yields.
*/
module MarketStream {
  import opened Types
  import opened Rings
  import opened PriceBooks
  import opened Replay

  const NO_BOOKS: seq<PriceBook> := [EMPTY, EMPTY, EMPTY, EMPTY, EMPTY, EMPTY, EMPTY, EMPTY]

  /** One public book per ticker. */
  type Books = bs: seq<PriceBook> | |bs| == ME_MAX_TICKERS witness NO_BOOKS

  const EMPTY_BOOKS: Books := NO_BOOKS

  function EffectOn(bs: Books, e: Event): Books {
    if e.ticker < ME_MAX_TICKERS then bs[e.ticker := Effect(bs[e.ticker], e)] else bs
  }

  function Replayed(bs: Books, es: seq<Event>): Books
    decreases |es|
  {
    if es == [] then bs else Replayed(EffectOn(bs, es[0]), es[1..])
  }

  /** The exchange state after the first `k` events of the stream. */
  function BooksAt(stream: seq<Event>, k: nat): Books
    requires k <= |stream|
  {
    if k == 0 then EMPTY_BOOKS else EffectOn(BooksAt(stream, k - 1), stream[k - 1])
  }

  /** Each event was emitted on the state its predecessors lead to. */
  ghost predicate GenuineStream(stream: seq<Event>) {
    forall k :: 0 <= k < |stream| ==> GenuineAt(stream, k)
  }

  ghost predicate GenuineAt(stream: seq<Event>, k: nat)
    requires k < |stream|
  {
    stream[k].ticker < ME_MAX_TICKERS
    && Genuine(BooksAt(stream, k)[stream[k].ticker], stream[k].ticker, stream[k])
  }

  lemma {:induction false} ReplayedConcat(bs: Books, a: seq<Event>, c: seq<Event>)
    ensures Replayed(bs, a + c) == Replayed(Replayed(bs, a), c)
    decreases |a|
  {
    if a == [] {
      assert a + c == c;
    } else {
      assert (a + c)[1..] == a[1..] + c;
      ReplayedConcat(EffectOn(bs, a[0]), a[1..], c);
    }
  }

  /** Replaying the next events of the stream leads from one exchange state to a later one. */
  lemma {:induction false} ReplayedStream(stream: seq<Event>, i: nat, j: nat)
    requires i <= j <= |stream|
    ensures Replayed(BooksAt(stream, i), stream[i..j]) == BooksAt(stream, j)
    decreases j - i
  {
    if i < j {
      assert stream[i..j][1..] == stream[i + 1..j];
      ReplayedStream(stream, i + 1, j);
    }
  }

  // ------------------------------------------------------------------ well-formed public books

  /** A book whose ids are array indexes and whose queues are in id order, as every exchange book is. */
  ghost predicate Indexed(b: PriceBook) {
    && Wf(b)
    && (forall id :: id in b.orders ==> 0 < id < ME_MAX_ORDER_IDS && b.orders[id].owner == ANONYMOUS)
    && (forall k :: k in b.fifo ==> IdsAscend(b.fifo[k]))
  }

  ghost predicate IdsAscend(s: seq<OrderId>) {
    forall i, j :: 0 <= i < j < |s| ==> s[i] < s[j]
  }

  lemma AppendIndexed(b: PriceBook, o: Order)
    requires Indexed(b) && o.owner == ANONYMOUS && 0 < o.id < ME_MAX_ORDER_IDS && o.side.Valid()
    requires forall id :: id in b.orders ==> id < o.id
    ensures Indexed(Append(b, o))
  {
    hide Wf, IdsAscend;
    AppendWf(b, o);
    var b' := Append(b, o);
    forall k | k in b'.fifo ensures IdsAscend(b'.fifo[k]) {
      if k in b.fifo { QueueAscends(b, k, o.id); } else { OneAscends(o.id); }
    }
  }

  lemma OneAscends(id: OrderId)
    ensures IdsAscend([id]) && [] + [id] == [id]
  {
  }

  /** A larger id keeps a queue ascending. */
  lemma QueueAscends(b: PriceBook, k: Key, id: OrderId)
    requires Indexed(b) && k in b.fifo && forall x :: x in b.orders ==> x < id
    ensures IdsAscend(b.fifo[k] + [id])
  {
    assert QueueWf(b, k) && IdsAscend(b.fifo[k]);
  }

  lemma GenuineKeepsIndexed(b: PriceBook, me: TickerId, e: Event)
    requires Indexed(b) && Genuine(b, me, e)
    ensures Indexed(Effect(b, e))
  {
    hide Append, Delete, Wf, IdsAscend;
    if e.kind.Add? {
      AppendIndexed(b, EventOrder(e));
    } else if e.kind.Modify? {
      SetQtyWf(b, e.orderId, e.qty);
    } else if e.kind.Cancel? {
      DeleteIndexed(b, e.orderId);
    }
  }

  lemma AscendDistinct(s: seq<OrderId>)
    requires IdsAscend(s)
    ensures Distinct(s)
  {
  }

  lemma RemoveAscends(s: seq<OrderId>, p: nat)
    requires IdsAscend(s) && p < |s|
    ensures IdsAscend(RemoveAt(s, p))
  {
    hide RemoveAt, Distinct;
    RemoveAtIndex(s, p);
    forall i, j | 0 <= i < j < |RemoveAt(s, p)| ensures RemoveAt(s, p)[i] < RemoveAt(s, p)[j] {
      assert s[if i < p then i else i + 1] < s[if j < p then j else j + 1];
    }
  }

  lemma WithoutAscends(s: seq<OrderId>, id: OrderId)
    requires IdsAscend(s) && id in s
    ensures IdsAscend(Without(s, id))
  {
    hide Without, RemoveAt, Distinct, IdsAscend;
    var p: nat :| p < |s| && s[p] == id;
    AscendDistinct(s);
    WithoutAt(s, p);
    RemoveAscends(s, p);
  }

  lemma DeleteIndexed(b: PriceBook, id: OrderId)
    requires Indexed(b) && id in b.orders
    ensures Indexed(Delete(b, id))
  {
    hide Wf, IdsAscend, Without;
    var b' := Delete(b, id);
    DeleteWf(b, id);
    assert OrderWf(b, id) by { OrderIs(b, id); }
    WithoutAscends(b.fifo[KeyOf(b.orders[id])], id);
    forall k | k in b'.fifo ensures IdsAscend(b'.fifo[k]) {
      assert IdsAscend(b.fifo[k]);
    }
  }

  lemma OrderIs(b: PriceBook, id: OrderId)
    requires Wf(b) && id in b.orders
    ensures OrderWf(b, id)
  {
  }

  ghost predicate AllIndexed(bs: Books) {
    forall t :: 0 <= t < ME_MAX_TICKERS ==> Indexed(bs[t])
  }

  lemma EmptyIndexed()
    ensures Indexed(EMPTY)
  {
  }

  lemma StreamAt(stream: seq<Event>, k: nat)
    requires GenuineStream(stream) && k < |stream|
    ensures GenuineAt(stream, k)
  {
  }

  lemma {:induction false} StreamIndexed(stream: seq<Event>, k: nat)
    requires GenuineStream(stream) && k <= |stream|
    ensures AllIndexed(BooksAt(stream, k))
  {
    hide Indexed, Genuine, Effect, GenuineStream;
    if k == 0 {
      EmptyIndexed();
    } else {
      StreamIndexed(stream, k - 1);
      assert GenuineAt(stream, k - 1) by { StreamAt(stream, k - 1); }
      GenuineKeepsIndexed(BooksAt(stream, k - 1)[stream[k - 1].ticker], stream[k - 1].ticker, stream[k - 1]);
    }
  }

  // ------------------------------------------------------------------ snapshots

  function AddEvent(t: TickerId, o: Order): Event {
    Event(EventType.Add, o.id, t, o.side, o.price, o.qty, o.priority)
  }

  /** The live orders of one ticker from array index `i` on, in index order. */
  function LiveFrom(t: TickerId, orders: map<OrderId, Order>, i: nat): seq<Event>
    decreases ME_MAX_ORDER_IDS - i
  {
    if i >= ME_MAX_ORDER_IDS then []
    else (if i in orders then [AddEvent(t, orders[i])] else []) + LiveFrom(t, orders, i + 1)
  }

  lemma LiveNext(t: TickerId, orders: map<OrderId, Order>, i: nat)
    ensures LiveFrom(t, orders, i) == if i >= ME_MAX_ORDER_IDS then []
            else (if i in orders then [AddEvent(t, orders[i])] else []) + LiveFrom(t, orders, i + 1)
  {
  }

  function ClearEvent(t: TickerId): Event {
    Event(Clear, ORDER_ID_INVALID, t, Invalid, PRICE_INVALID, QTY_INVALID, PRIORITY_INVALID)
  }

  /** The body of a snapshot from ticker `t` on: each ticker's CLEAR, then its live orders. */
  function SnapshotFrom(orders: seq<map<OrderId, Order>>, t: nat): seq<Event>
    requires |orders| == ME_MAX_TICKERS
    decreases ME_MAX_TICKERS - t
  {
    if t >= ME_MAX_TICKERS then []
    else [ClearEvent(t)] + LiveFrom(t, orders[t], 0) + SnapshotFrom(orders, t + 1)
  }

  lemma SnapshotNext(orders: seq<map<OrderId, Order>>, t: nat)
    requires |orders| == ME_MAX_TICKERS
    ensures SnapshotFrom(orders, t) == if t >= ME_MAX_TICKERS then []
            else [ClearEvent(t)] + LiveFrom(t, orders[t], 0) + SnapshotFrom(orders, t + 1)
  {
    hide LiveFrom;
  }

  function OrdersOf(bs: Books): (r: seq<map<OrderId, Order>>)
    ensures |r| == ME_MAX_TICKERS
  {
    seq(ME_MAX_TICKERS, i requires 0 <= i < ME_MAX_TICKERS => bs[i].orders)
  }

  function Below(s: seq<OrderId>, n: nat): seq<OrderId> {
    if s == [] || s[0] >= n then [] else [s[0]] + Below(s[1..], n)
  }

  /** The part of a book with ids below `n`. */
  ghost function Part(b: PriceBook, n: nat): PriceBook {
    PriceBook(map id | id in b.orders && id < n :: b.orders[id],
              map k | k in b.fifo && Below(b.fifo[k], n) != [] :: Below(b.fifo[k], n))
  }

  lemma {:induction false} BelowStep(s: seq<OrderId>, n: nat)
    requires IdsAscend(s)
    ensures Below(s, n + 1) == if n in s then Below(s, n) + [n] else Below(s, n)
  {
    if s != [] && s[0] < n {
      assert forall i, j :: 0 <= i < j < |s[1..]| ==> s[1..][i] == s[i + 1] && s[1..][j] == s[j + 1];
      BelowStep(s[1..], n);
      assert n in s <==> n in s[1..];
      assert [s[0]] + (Below(s[1..], n) + [n]) == ([s[0]] + Below(s[1..], n)) + [n];
    } else if s != [] && s[0] == n {
      assert |s| > 1 ==> s[1] > n;
    } else if s != [] {
      forall i | 0 <= i < |s| ensures s[i] != n { assert i > 0 ==> s[0] < s[i]; }
    }
  }

  lemma {:induction false} BelowAll(s: seq<OrderId>, n: nat)
    requires forall i :: 0 <= i < |s| ==> s[i] < n
    ensures Below(s, n) == s
  {
    if s != [] { BelowAll(s[1..], n); }
  }

  lemma BelowNone(s: seq<OrderId>)
    ensures Below(s, 0) == []
  {
  }

  lemma QueueStepUp(b: PriceBook, n: nat, k: Key)
    requires Indexed(b) && k in b.fifo
    ensures Below(b.fifo[k], n + 1) == if n in b.fifo[k] then Below(b.fifo[k], n) + [n] else Below(b.fifo[k], n)
    ensures n in b.fifo[k] <==> n in b.orders && k == KeyOf(b.orders[n])
  {
    assert IdsAscend(b.fifo[k]) && QueueWf(b, k);
    BelowStep(b.fifo[k], n);
    if n in b.orders { assert OrderWf(b, n); }
  }

  /** Adding the order with id `n` to the part below `n` gives the part below `n + 1`. */
  lemma PartStep(b: PriceBook, n: nat)
    requires Indexed(b)
    ensures Part(b, n + 1) == if n in b.orders then Append(Part(b, n), b.orders[n]) else Part(b, n)
  {
    hide Below, Wf, IdsAscend;
    forall k | k in b.fifo
      ensures Below(b.fifo[k], n + 1) == if n in b.fifo[k] then Below(b.fifo[k], n) + [n] else Below(b.fifo[k], n)
      ensures n in b.fifo[k] <==> n in b.orders && k == KeyOf(b.orders[n])
    {
      QueueStepUp(b, n, k);
    }
    if n in b.orders { KnownOrder(b, n); }
  }

  lemma KnownOrder(b: PriceBook, n: OrderId)
    requires Wf(b) && n in b.orders
    ensures b.orders[n].id == n && KeyOf(b.orders[n]) in b.fifo
  {
    assert OrderWf(b, n);
  }

  /** Replaying a ticker's live orders in id order rebuilds its book: every queue exactly as it stood. */
  lemma {:induction false} LiveRebuilds(b: PriceBook, t: TickerId, i: nat)
    requires Indexed(b) && i <= ME_MAX_ORDER_IDS
    ensures After(Part(b, i), LiveFrom(t, b.orders, i)) == b
    decreases ME_MAX_ORDER_IDS - i
  {
    hide Indexed, Part, LiveFrom, Effect, Append;
    LiveNext(t, b.orders, i);
    if i == ME_MAX_ORDER_IDS {
      PartWhole(b);
    } else {
      var rest := LiveFrom(t, b.orders, i + 1);
      PartStep(b, i);
      LiveRebuilds(b, t, i + 1);
      if i in b.orders {
        LiveEffect(b, t, i);
        AfterFirst(Part(b, i), AddEvent(t, b.orders[i]), rest);
      } else {
        assert [] + rest == rest;
      }
    }
  }

  lemma AfterFirst(b: PriceBook, e: Event, es: seq<Event>)
    ensures After(b, [e] + es) == After(Effect(b, e), es)
  {
    hide Effect;
    assert ([e] + es)[1..] == es;
  }

  lemma LiveEffect(b: PriceBook, t: TickerId, n: nat)
    requires Indexed(b) && n in b.orders
    ensures Effect(Part(b, n), AddEvent(t, b.orders[n])) == Append(Part(b, n), b.orders[n])
  {
    hide Append, Part;
    KnownOrder(b, n);
  }

  lemma PartWhole(b: PriceBook)
    requires Indexed(b)
    ensures Part(b, ME_MAX_ORDER_IDS) == b
  {
    forall k | k in b.fifo ensures Below(b.fifo[k], ME_MAX_ORDER_IDS) == b.fifo[k] && b.fifo[k] != [] {
      assert QueueWf(b, k);
      BelowAll(b.fifo[k], ME_MAX_ORDER_IDS);
    }
    var p := Part(b, ME_MAX_ORDER_IDS);
    assert p.orders == b.orders && p.fifo == b.fifo;
  }

  lemma PartNothing(b: PriceBook)
    ensures Part(b, 0) == EMPTY
  {
    forall k | k in b.fifo ensures Below(b.fifo[k], 0) == [] { BelowNone(b.fifo[k]); }
    var p := Part(b, 0);
    assert p.orders == map[] && p.fifo == map[];
  }

  lemma {:induction false} OneTicker(bs: Books, t: TickerId, es: seq<Event>)
    requires t < ME_MAX_TICKERS && forall i :: 0 <= i < |es| ==> es[i].ticker == t
    ensures Replayed(bs, es) == bs[t := After(bs[t], es)]
    decreases |es|
  {
    if es != [] {
      forall i | 0 <= i < |es[1..]| ensures es[1..][i].ticker == t { assert es[1..][i] == es[i + 1]; }
      OneTicker(EffectOn(bs, es[0]), t, es[1..]);
    }
  }

  lemma {:induction false} LiveTicker(t: TickerId, orders: map<OrderId, Order>, i: nat)
    ensures forall j :: 0 <= j < |LiveFrom(t, orders, i)| ==>
              && LiveFrom(t, orders, i)[j].ticker == t && LiveFrom(t, orders, i)[j].kind.Add?
    decreases ME_MAX_ORDER_IDS - i
  {
    if i < ME_MAX_ORDER_IDS { LiveTicker(t, orders, i + 1); }
  }

  lemma TickerRebuilds(bs: Books, b: PriceBook, t: TickerId)
    requires t < ME_MAX_TICKERS && Indexed(b)
    ensures Replayed(bs, [ClearEvent(t)] + LiveFrom(t, b.orders, 0)) == bs[t := b]
  {
    LiveTicker(t, b.orders, 0);
    var es := [ClearEvent(t)] + LiveFrom(t, b.orders, 0);
    OneTicker(bs, t, es);
    PartNothing(b);
    LiveRebuilds(b, t, 0);
    assert es[1..] == LiveFrom(t, b.orders, 0);
  }

  /** A whole snapshot leads from any state to the state it was taken of. */
  lemma {:induction false} SnapshotRebuilds(bs: Books, target: Books, t: nat)
    requires AllIndexed(target) && t <= ME_MAX_TICKERS
    requires forall i :: 0 <= i < t ==> bs[i] == target[i]
    ensures Replayed(bs, SnapshotFrom(OrdersOf(target), t)) == target
    decreases ME_MAX_TICKERS - t
  {
    if t == ME_MAX_TICKERS {
      assert bs == target;
    } else {
      var head := [ClearEvent(t)] + LiveFrom(t, OrdersOf(target)[t], 0);
      ReplayedConcat(bs, head, SnapshotFrom(OrdersOf(target), t + 1));
      TickerRebuilds(bs, target[t], t);
      SnapshotRebuilds(bs[t := target[t]], target, t + 1);
    }
  }
}
