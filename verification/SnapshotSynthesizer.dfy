/** `SnapshotSynthesizer`: the live orders of all tickers in one pool, and the snapshots taken of them. */
module SnapshotSynthesizers {
  import opened Types
  import opened Rings
  import opened MemPools
  import opened PriceBooks
  import opened Replay
  import opened MarketStream
  import opened BookHashes
  import opened RecoverySpec
  import opened RecoveryProps
  import opened Protocol
  import opened SynthesizerSpec
  import opened LFQueues
  import opened Cursors

  // ------------------------------------------------------------------ pointers into one pool

  /** Where each order id of a ticker points; absent is null. */
  type Table = map<OrderId, Slot>

  function With<V>(m: map<OrderId, V>, id: OrderId, v: V): map<OrderId, V> { m[id := v] }

  function Lacking<V>(m: map<OrderId, V>, id: OrderId): map<OrderId, V> { m - {id} }

  /** Every pointer leads to a live slot that holds the order of that id. */
  ghost predicate Points(m: Table, store: map<Slot, Order>) {
    forall id :: id in m ==> m[id] in store && store[m[id]].id == id
  }

  /** No slot is shared between two tables. */
  ghost predicate Disjoint(a: Table, b: Table) {
    forall i, j :: i in a && j in b ==> a[i] != b[j]
  }

  ghost predicate TablesOk(ts: seq<Table>, store: map<Slot, Order>) {
    && |ts| == ME_MAX_TICKERS
    && (forall t :: 0 <= t < |ts| ==> Points(ts[t], store))
    && (forall t, t' :: 0 <= t < t' < |ts| ==> Disjoint(ts[t], ts[t']))
  }

  ghost function Held(m: Table, store: map<Slot, Order>): map<OrderId, Order>
    requires Points(m, store)
  {
    map id | id in m :: store[m[id]]
  }

  /** The orders behind the pointers. */
  ghost function OrdersIn(ts: seq<Table>, store: map<Slot, Order>): OrdersByTicker
    requires TablesOk(ts, store)
  {
    seq(ME_MAX_TICKERS, t requires 0 <= t < ME_MAX_TICKERS => Held(ts[t], store))
  }

  /** A table none of whose pointers is touched keeps its orders. */
  lemma OtherTable(m: Table, store: map<Slot, Order>, store': map<Slot, Order>)
    requires Points(m, store) && forall id :: id in m ==> m[id] in store' && store'[m[id]] == store[m[id]]
    ensures Points(m, store') && Held(m, store') == Held(m, store)
  {
  }

  /** One table changes, and with it the slots that are its own: the others see no difference. */
  lemma OneTable(ts: seq<Table>, store: map<Slot, Order>, t: TickerId, m: Table, store': map<Slot, Order>,
                 orders: map<OrderId, Order>)
    requires TablesOk(ts, store) && t < ME_MAX_TICKERS
    requires Points(m, store') && Held(m, store') == orders
    requires forall id :: id in m ==> m[id] !in store || (id in ts[t] && m[id] == ts[t][id])
    requires forall x :: x in store && (forall id :: id in ts[t] ==> ts[t][id] != x) ==> x in store' && store'[x] == store[x]
    ensures TablesOk(ts[t := m], store')
    ensures OrdersIn(ts[t := m], store') == OrdersIn(ts, store)[t := orders]
  {
    hide Held;
    var ts' := ts[t := m];
    forall i | 0 <= i < |ts| && i != t
      ensures Points(ts[i], store') && Held(ts[i], store') == Held(ts[i], store)
      ensures Disjoint(m, ts[i]) && Disjoint(ts[i], m)
    {
      assert Disjoint(ts[i], ts[t]) || Disjoint(ts[t], ts[i]);
      OtherTable(ts[i], store, store');
    }
  }

  lemma AddPoints(ts: seq<Table>, store: map<Slot, Order>, t: TickerId, slot: Slot, o: Order)
    requires TablesOk(ts, store) && t < ME_MAX_TICKERS && slot !in store && o.id !in ts[t]
    ensures var ts', store' := ts[t := With(ts[t], o.id, slot)], store[slot := o];
            && TablesOk(ts', store')
            && OrdersIn(ts', store') == OrdersIn(ts, store)[t := With(OrdersIn(ts, store)[t], o.id, o)]
  {
    var m := With(ts[t], o.id, slot);
    assert Points(ts[t], store);
    assert Held(m, store[slot := o]) == With(Held(ts[t], store), o.id, o);
    OneTable(ts, store, t, m, store[slot := o], With(Held(ts[t], store), o.id, o));
  }

  /** Two ids of a ticker point to different slots. */
  lemma OwnSlot(m: Table, store: map<Slot, Order>, i: OrderId, j: OrderId)
    requires Points(m, store) && i in m && j in m && m[i] == m[j]
    ensures i == j
  {
  }

  lemma PutPoints(ts: seq<Table>, store: map<Slot, Order>, t: TickerId, o: Order)
    requires TablesOk(ts, store) && t < ME_MAX_TICKERS && o.id in ts[t]
    ensures var store' := store[ts[t][o.id] := o];
            && TablesOk(ts, store')
            && OrdersIn(ts, store') == OrdersIn(ts, store)[t := With(OrdersIn(ts, store)[t], o.id, o)]
  {
    var m: Table, store' := ts[t], store[ts[t][o.id] := o];
    assert Points(m, store);
    forall id | id in m && m[id] == m[o.id] ensures id == o.id { OwnSlot(m, store, id, o.id); }
    assert Held(m, store') == With(Held(m, store), o.id, o);
    OneTable(ts, store, t, m, store', With(Held(m, store), o.id, o));
    assert ts[t := m] == ts;
  }

  lemma DropPoints(ts: seq<Table>, store: map<Slot, Order>, t: TickerId, id: OrderId)
    requires TablesOk(ts, store) && t < ME_MAX_TICKERS && id in ts[t]
    ensures var ts', store' := ts[t := Lacking(ts[t], id)], store - {ts[t][id]};
            && TablesOk(ts', store')
            && OrdersIn(ts', store') == OrdersIn(ts, store)[t := Lacking(OrdersIn(ts, store)[t], id)]
  {
    var m, store' := Lacking(ts[t], id), store - {ts[t][id]};
    assert Points(ts[t], store);
    forall i | i in ts[t] && ts[t][i] == ts[t][id] ensures i == id { OwnSlot(ts[t], store, i, id); }
    assert Held(m, store') == Lacking(Held(ts[t], store), id);
    OneTable(ts, store, t, m, store', Lacking(Held(ts[t], store), id));
  }

  /** The pool holds what the pointers lead to, and nothing else. */
  ghost predicate Backed(ts: seq<Table>, store: map<Slot, Order>) {
    TablesOk(ts, store) && |store| == TotalLive(OrdersIn(ts, store))
  }

  /** What the tables say of the orders behind them. */
  lemma TableSays(ts: seq<Table>, store: map<Slot, Order>, t: TickerId)
    requires TablesOk(ts, store) && t < ME_MAX_TICKERS
    ensures |ts| == ME_MAX_TICKERS
    ensures forall id :: id in ts[t] <==> id in OrdersIn(ts, store)[t]
    ensures forall id :: id in ts[t] ==>
              ts[t][id] in store && store[ts[t][id]] == OrdersIn(ts, store)[t][id] && store[ts[t][id]].id == id
  {
    assert Points(ts[t], store);
  }

  lemma AddBacked(ts: seq<Table>, store: map<Slot, Order>, e: Event, slot: Slot)
    requires Backed(ts, store) && e.ticker < ME_MAX_TICKERS && e.kind.Add? && slot !in store && e.orderId !in ts[e.ticker]
    ensures var ts', store' := ts[e.ticker := With(ts[e.ticker], e.orderId, slot)], store[slot := EventOrder(e)];
            Backed(ts', store') && OrdersIn(ts', store') == Applied(OrdersIn(ts, store), e)
  {
    hide TablesOk, OrdersIn, TotalLive;
    TableSays(ts, store, e.ticker);
    AddPoints(ts, store, e.ticker, slot, EventOrder(e));
    LiveCountSet(OrdersIn(ts, store), e.ticker, With(OrdersIn(ts, store)[e.ticker], e.orderId, EventOrder(e)), ME_MAX_TICKERS);
    TotalIs(OrdersIn(ts, store));
    TotalIs(Applied(OrdersIn(ts, store), e));
  }

  lemma TotalIs(os: OrdersByTicker)
    ensures TotalLive(os) == LiveCount(os, ME_MAX_TICKERS)
  {
  }

  lemma ModifyBacked(ts: seq<Table>, store: map<Slot, Order>, e: Event)
    requires Backed(ts, store) && e.ticker < ME_MAX_TICKERS && e.kind.Modify? && e.orderId in ts[e.ticker]
    ensures ts[e.ticker][e.orderId] in store
    ensures var slot := ts[e.ticker][e.orderId];
            var store' := store[slot := store[slot].(qty := e.qty, price := e.price)];
            Backed(ts, store') && OrdersIn(ts, store') == Applied(OrdersIn(ts, store), e)
  {
    hide TablesOk, OrdersIn, TotalLive;
    TableSays(ts, store, e.ticker);
    var slot := ts[e.ticker][e.orderId];
    var o := store[slot].(qty := e.qty, price := e.price);
    var m: map<OrderId, Order> := OrdersIn(ts, store)[e.ticker];
    PutPoints(ts, store, e.ticker, o);
    assert With(m, e.orderId, o).Keys == m.Keys && |With(m, e.orderId, o).Keys| == |With(m, e.orderId, o)|;
    assert store[slot := o].Keys == store.Keys && |store[slot := o].Keys| == |store[slot := o]|;
    LiveCountSet(OrdersIn(ts, store), e.ticker, With(m, e.orderId, o), ME_MAX_TICKERS);
    TotalIs(OrdersIn(ts, store));
    TotalIs(Applied(OrdersIn(ts, store), e));
  }

  lemma CancelBacked(ts: seq<Table>, store: map<Slot, Order>, e: Event)
    requires Backed(ts, store) && e.ticker < ME_MAX_TICKERS && e.kind.Cancel? && e.orderId in ts[e.ticker]
    ensures ts[e.ticker][e.orderId] in store
    ensures var ts', store' := ts[e.ticker := Lacking(ts[e.ticker], e.orderId)], store - {ts[e.ticker][e.orderId]};
            Backed(ts', store') && OrdersIn(ts', store') == Applied(OrdersIn(ts, store), e)
  {
    hide TablesOk, OrdersIn, TotalLive;
    TableSays(ts, store, e.ticker);
    var slot := ts[e.ticker][e.orderId];
    var m: map<OrderId, Order> := OrdersIn(ts, store)[e.ticker];
    DropPoints(ts, store, e.ticker, e.orderId);
    assert Lacking(m, e.orderId).Keys == m.Keys - {e.orderId} && |Lacking(m, e.orderId).Keys| == |Lacking(m, e.orderId)|;
    assert (store - {slot}).Keys == store.Keys - {slot} && |(store - {slot}).Keys| == |store - {slot}|;
    LiveCountSet(OrdersIn(ts, store), e.ticker, Lacking(m, e.orderId), ME_MAX_TICKERS);
    TotalIs(OrdersIn(ts, store));
    TotalIs(Applied(OrdersIn(ts, store), e));
  }

  /** Other events change nothing. */
  lemma NothingApplied(os: OrdersByTicker, e: Event)
    requires e.ticker < ME_MAX_TICKERS && !e.kind.Add? && !e.kind.Modify? && !e.kind.Cancel?
    ensures Applied(os, e) == os
  {
  }

  const NO_POINTERS: seq<Table> := [map[], map[], map[], map[], map[], map[], map[], map[]]

  lemma NothingBacked()
    ensures Backed(NO_POINTERS, map[]) && OrdersIn(NO_POINTERS, map[]) == NO_ORDERS
  {
    assert OrdersIn(NO_POINTERS, map[]) == NO_ORDERS;
    NoneLive(ME_MAX_TICKERS);
  }

  class SnapshotSynthesizer {
    /** One pool for the orders of all tickers. */
    const pool: MemPool<Order>
    const updates: LFQueue<Update>
    var tickerOrders: seq<Table>
    var lastIncSeqNum: nat
    var snapshotCycle: nat

    /** The frames sent on the snapshot channel. */
    var published: seq<Update>

    ghost predicate Valid()
      reads this`tickerOrders, pool
    {
      pool.Valid() && pool.capacity == ME_MAX_ORDER_IDS && Backed(tickerOrders, pool.store)
    }

    ghost function Orders(): OrdersByTicker
      requires Valid()
      reads this`tickerOrders, pool
    {
      OrdersIn(tickerOrders, pool.store)
    }

    /** The synthesizer's part in a state of the protocol: its orders are what the stream has made of them so
        far, and the increments the publisher has forwarded since then wait in the queue. */
    ghost predicate Mirrors(stream: seq<Event>, s: Sys)
      requires Valid() && updates.Valid()
      reads this, pool, updates, updates.store
    {
      && s.snapshotted <= s.numbered <= |stream| && lastIncSeqNum == s.snapshotted && snapshotCycle == s.lastCycle
      && SynthAfter(stream, s.snapshotted) == Some(Orders())
      && updates.Contents() == Numbered(s.snapshotted + 1, stream[s.snapshotted..s.numbered], 0, 0, 0)
    }

    constructor (updates: LFQueue<Update>, firstCycle: nat)
      ensures Valid() && Orders() == NO_ORDERS && lastIncSeqNum == 0 && snapshotCycle == firstCycle && published == []
      ensures this.updates == updates && fresh(pool)
    {
      hide Backed, OrdersIn, TablesOk;
      this.updates := updates;
      pool := new MemPool(ME_MAX_ORDER_IDS);
      tickerOrders, lastIncSeqNum, snapshotCycle, published := NO_POINTERS, 0, firstCycle, [];
      new;
      NothingBacked();
    }

    method AddOrder(e: Event) returns (ok: bool)
      requires Valid() && e.ticker < ME_MAX_TICKERS && e.kind.Add? && 0 < e.orderId < ME_MAX_ORDER_IDS
      modifies this`tickerOrders, pool
      ensures ok == Passes(old(Orders()), e)
      ensures ok ==> Valid() && Orders() == Applied(old(Orders()), e)
    {
      hide TablesOk, OrdersIn, TotalLive, MemPool.Valid, Applied;
      ghost var was, store := tickerOrders, pool.store;
      TableSays(was, store, e.ticker);
      var table := tickerOrders[e.ticker];
      if e.orderId in table { return false; }
      ghost var room := pool.Available();
      var slot := pool.Allocate(EventOrder(e));
      if slot == NULL { return false; }
      tickerOrders := tickerOrders[e.ticker := With(table, e.orderId, slot)];
      AddBacked(was, store, e, slot);
      ok := true;
    }

    method ModifyOrder(e: Event) returns (ok: bool)
      requires Valid() && e.ticker < ME_MAX_TICKERS && e.kind.Modify? && 0 < e.orderId < ME_MAX_ORDER_IDS
      modifies pool
      ensures ok == Passes(old(Orders()), e)
      ensures ok ==> Valid() && Orders() == Applied(old(Orders()), e)
    {
      hide TablesOk, OrdersIn, TotalLive, MemPool.Valid, Applied;
      ghost var was, store := tickerOrders, pool.store;
      TableSays(was, store, e.ticker);
      var table := tickerOrders[e.ticker];
      if e.orderId !in table { return false; }
      var order := pool.Get(table[e.orderId]);
      if order.side != e.side { return false; }
      ModifyBacked(was, store, e);
      pool.Put(table[e.orderId], order.(qty := e.qty, price := e.price));
      ok := true;
    }

    method CancelOrder(e: Event) returns (ok: bool)
      requires Valid() && e.ticker < ME_MAX_TICKERS && e.kind.Cancel? && 0 < e.orderId < ME_MAX_ORDER_IDS
      modifies this`tickerOrders, pool
      ensures ok == Passes(old(Orders()), e)
      ensures ok ==> Valid() && Orders() == Applied(old(Orders()), e)
    {
      hide TablesOk, OrdersIn, TotalLive, MemPool.Valid, Applied;
      ghost var was, store := tickerOrders, pool.store;
      TableSays(was, store, e.ticker);
      var table := tickerOrders[e.ticker];
      if e.orderId !in table { return false; }
      var order := pool.Get(table[e.orderId]);
      if order.side != e.side { return false; }
      CancelBacked(was, store, e);
      pool.Deallocate(table[e.orderId]);
      tickerOrders := tickerOrders[e.ticker := Lacking(table, e.orderId)];
      ok := true;
    }

    /** One increment. The source stops, by an assertion, exactly when it does not pass: an unknown ticker or
        order, an order that already exists, no free slot, or not the next number. */
    method AddToSnapshot(u: Update) returns (running: bool)
      requires Valid()
      modifies this`tickerOrders, this`lastIncSeqNum, pool
      ensures running <==> Passes(old(Orders()), u.event) && u.seqNum == old(lastIncSeqNum) + 1
      ensures running ==> Valid() && Orders() == Applied(old(Orders()), u.event) && lastIncSeqNum == u.seqNum
    {
      hide Backed, OrdersIn, TotalLive, MemPool.Valid, Applied;
      var e := u.event;
      if e.ticker >= ME_MAX_TICKERS { return false; }
      if (e.kind.Add? || e.kind.Modify? || e.kind.Cancel?) && !(0 < e.orderId < ME_MAX_ORDER_IDS) { return false; }
      match e.kind {
        case Add => running := AddOrder(e);
        case Modify => running := ModifyOrder(e);
        case Cancel => running := CancelOrder(e);
        case _ =>
          NothingApplied(Orders(), e);
          running := true;
      }
      if !running || u.seqNum != lastIncSeqNum + 1 { return false; }
      lastIncSeqNum := u.seqNum;
    }

    /** One turn of the loop over the publisher's queue: the protocol's step, unless it stops. */
    method ApplyNext(ghost stream: seq<Event>, ghost s: Sys) returns (running: bool)
      requires Valid() && updates.Valid() && updates as object != pool && updates as object != this
      requires Mirrors(stream, s) && updates.Contents() != []
      modifies this`tickerOrders, this`lastIncSeqNum, pool, updates
      ensures Enabled(stream, s, ApplyToSnapshot)
      ensures running <==> SynthAfter(stream, s.snapshotted + 1).Some?
      ensures running ==> Valid() && updates.Valid() && Mirrors(stream, Synthesized(s))
    {
      hide SnapshotSynthesizer.Valid, SnapshotSynthesizer.Orders, LFQueue.SlotHolds, Cursor, Passes, Applied, SynthAfter,
           Numbered;
      FrontOf(stream, s.snapshotted, s.numbered);
      SynthStep(stream, s.snapshotted + 1);
      var u := updates.Peek();
      running := AddToSnapshot(u.value);
      if running { updates.Pop(); }
    }

    /** That loop. On the exchange's events it runs to the end exactly when the orders of all tickers fit the
        pool after every one of them. */
    method ApplyUpdates(ghost stream: seq<Event>, ghost s: Sys) returns (running: bool)
      requires Valid() && updates.Valid() && updates as object != pool && updates as object != this
      requires GenuineStream(stream) && Mirrors(stream, s)
      modifies this`tickerOrders, this`lastIncSeqNum, pool, updates
      ensures running <==> PoolSuffices(stream, s.numbered)
      ensures running ==> Valid() && updates.Valid() && Mirrors(stream, s.(snapshotted := s.numbered))
    {
      hide SnapshotSynthesizer.Valid, SnapshotSynthesizer.Orders, LFQueue.SlotHolds, Cursor, SynthAfter, PoolSuffices,
           GenuineStream, Numbered;
      ghost var done := s.snapshotted;
      PassesExactlyWhen(stream, s.numbered);
      var u := updates.Peek();
      while u.Some?
        invariant Valid() && updates.Valid() && s.snapshotted <= done <= s.numbered
        invariant Mirrors(stream, s.(snapshotted := done)) && u.Some? == (updates.Contents() != [])
        decreases s.numbered - done
      {
        running := ApplyNext(stream, s.(snapshotted := done));
        if !running {
          StaysStopped(stream, done + 1, s.numbered);
          return;
        }
        done := done + 1;
        u := updates.Peek();
      }
      FrontOf(stream, done, s.numbered);
      running := true;
    }

    method Publish(e: Event, sequence: nat, hash: nat) returns (next: nat)
      modifies this`published
      ensures next == sequence + 1
      ensures published == old(published) + Numbered(sequence, [e], snapshotCycle, lastIncSeqNum, hash)
    {
      published := published + [Update(sequence, e, snapshotCycle, lastIncSeqNum, hash)];
      next := sequence + 1;
    }

    /** The order behind a pointer, as the snapshot shows it. */
    method Show(t: TickerId, id: OrderId) returns (e: Event)
      requires Valid() && t < ME_MAX_TICKERS && id in tickerOrders[t]
      ensures id in Orders()[t] && e == AddEvent(t, Orders()[t][id])
    {
      hide TablesOk, OrdersIn, TotalLive, MemPool.Valid;
      TableSays(tickerOrders, pool.store, t);
      var order := pool.Get(tickerOrders[t][id]);
      e := AddEvent(t, order);
    }

    /** Not null exactly for a live order. */
    function Pointed(t: TickerId, id: OrderId): (r: bool)
      requires Valid() && t < ME_MAX_TICKERS
      reads this`tickerOrders, pool
      ensures r == (id in Orders()[t])
    {
      TableSays(tickerOrders, pool.store, t);
      id in tickerOrders[t]
    }

    method CollectTicker(t: TickerId) returns (live: seq<Event>)
      requires Valid() && t < ME_MAX_TICKERS
      ensures live == LiveFrom(t, Orders()[t], 0)
    {
      hide LiveFrom, SnapshotSynthesizer.Valid, SnapshotSynthesizer.Orders;
      live := [];
      ghost var orders := Orders()[t];
      var i := 0;
      while i < ME_MAX_ORDER_IDS
        invariant i <= ME_MAX_ORDER_IDS
        invariant live + LiveFrom(t, orders, i) == LiveFrom(t, orders, 0)
      {
        LiveNext(t, orders, i);
        if Pointed(t, i) {
          var e := Show(t, i);
          live := live + [e];
        }
        i := i + 1;
      }
      LiveNext(t, orders, i);
    }

    /** All live orders, by ticker and order id. */
    method CollectLive() returns (live: seq<Event>)
      requires Valid()
      ensures live == Flatten(Orders(), 0)
    {
      hide LiveFrom, Flatten, SnapshotSynthesizer.Valid, SnapshotSynthesizer.Orders;
      ghost var os := Orders();
      live := [];
      var t := 0;
      assert [] + Flatten(os, 0) == Flatten(os, 0);
      while t < ME_MAX_TICKERS
        invariant t <= ME_MAX_TICKERS && live + Flatten(os, t) == Flatten(os, 0)
      {
        var part := CollectTicker(t);
        FlattenStep(os, t);
        assert live + (part + Flatten(os, t + 1)) == (live + part) + Flatten(os, t + 1);
        live := live + part;
        t := t + 1;
      }
      FlattenStep(os, t);
      assert live + [] == live;
    }

    /** One ticker: CLEAR, then its live orders in id order. */
    method PublishTicker(t: TickerId, sequence: nat, hash: nat) returns (next: nat)
      requires Valid() && t < ME_MAX_TICKERS
      modifies this`published
      ensures var es := [ClearEvent(t)] + LiveFrom(t, Orders()[t], 0);
              && next == sequence + |es|
              && published == old(published) + Numbered(sequence, es, snapshotCycle, lastIncSeqNum, hash)
    {
      hide LiveFrom, Numbered, SnapshotSynthesizer.Valid, SnapshotSynthesizer.Orders;
      next := Publish(ClearEvent(t), sequence, hash);
      ghost var done := [ClearEvent(t)];
      ghost var orders := Orders()[t];
      var i := 0;
      while i < ME_MAX_ORDER_IDS
        invariant i <= ME_MAX_ORDER_IDS && next == sequence + |done|
        invariant done + LiveFrom(t, orders, i) == [ClearEvent(t)] + LiveFrom(t, orders, 0)
        invariant published == old(published) + Numbered(sequence, done, snapshotCycle, lastIncSeqNum, hash)
      {
        LiveNext(t, orders, i);
        if Pointed(t, i) {
          var e := Show(t, i);
          NumberedConcat(sequence, done, [e], snapshotCycle, lastIncSeqNum, hash);
          next := Publish(e, next, hash);
          assert done + ([e] + LiveFrom(t, orders, i + 1)) == (done + [e]) + LiveFrom(t, orders, i + 1);
          done := done + [e];
        }
        i := i + 1;
      }
      LiveNext(t, orders, i);
      assert done + [] == done;
    }

    /** Every ticker in turn. */
    method PublishTickers(sequence: nat, hash: nat) returns (next: nat)
      requires Valid()
      modifies this`published
      ensures next == sequence + |SnapshotFrom(Orders(), 0)|
      ensures published == old(published)
                           + Numbered(sequence, SnapshotFrom(Orders(), 0), snapshotCycle, lastIncSeqNum, hash)
    {
      hide LiveFrom, SnapshotFrom, Numbered, SnapshotSynthesizer.Valid, SnapshotSynthesizer.Orders;
      next := sequence;
      ghost var done: seq<Event> := [];
      ghost var orders := Orders();
      NumberedNone(sequence, snapshotCycle, lastIncSeqNum, hash);
      var t := 0;
      while t < ME_MAX_TICKERS
        invariant t <= ME_MAX_TICKERS && next == sequence + |done|
        invariant done + SnapshotFrom(orders, t) == SnapshotFrom(orders, 0)
        invariant published == old(published) + Numbered(sequence, done, snapshotCycle, lastIncSeqNum, hash)
      {
        ghost var es := [ClearEvent(t)] + LiveFrom(t, orders[t], 0);
        SnapshotNext(orders, t);
        assert done + (es + SnapshotFrom(orders, t + 1)) == (done + es) + SnapshotFrom(orders, t + 1);
        NumberedConcat(sequence, done, es, snapshotCycle, lastIncSeqNum, hash);
        next := PublishTicker(t, next, hash);
        done := done + es;
        t := t + 1;
      }
      SnapshotNext(orders, t);
      assert done + [] == done;
    }

    /** One whole cycle: start, every ticker, end, all carrying the same watermark and hash. */
    method PublishSnapshot(ghost stream: seq<Event>, ghost s: Sys)
      requires Valid() && updates.Valid()
      modifies this`published, this`snapshotCycle
      ensures snapshotCycle == old(snapshotCycle) + 1
      ensures published == old(published) + SnapshotFrames(snapshotCycle, lastIncSeqNum, Orders())
      ensures GenuineStream(stream) && old(Mirrors(stream, s)) ==>
                && Mirrors(stream, CyclePublished(s))
                && published == old(published) + CycleFrames(World(stream, CyclePublished(s).cycles), snapshotCycle)
    {
      hide LiveFrom, BookHash, Flatten, SnapshotFrom, Numbered, SnapshotFrames, SnapshotSynthesizer.Valid,
           SnapshotSynthesizer.Orders;
      var live := CollectLive();
      var hash := BookHash(live);
      snapshotCycle := snapshotCycle + 1;
      ghost var start, body := [Marker(SnapshotStart, lastIncSeqNum)], SnapshotFrom(Orders(), 0);
      ghost var end := [Marker(SnapshotEnd, lastIncSeqNum)];
      NumberedConcat(0, start, body, snapshotCycle, lastIncSeqNum, hash);
      NumberedConcat(0, start + body, end, snapshotCycle, lastIncSeqNum, hash);
      var next := Publish(Marker(SnapshotStart, lastIncSeqNum), 0, hash);
      next := PublishTickers(next, hash);
      next := Publish(Marker(SnapshotEnd, lastIncSeqNum), next, hash);
      NumberedIsFrames(snapshotCycle, lastIncSeqNum, Orders());
      if GenuineStream(stream) && old(Mirrors(stream, s)) {
        CycleIsGenuine(stream, CyclePublished(s).cycles, snapshotCycle, lastIncSeqNum, Orders());
      }
    }
  }

  /** The increments waiting for the synthesizer: the oldest, and the rest. */
  lemma FrontOf(stream: seq<Event>, i: nat, j: nat)
    requires i <= j <= |stream|
    ensures var waiting := Numbered(i + 1, stream[i..j], 0, 0, 0);
            && (waiting == [] <==> i == j)
            && (i < j ==> waiting[0] == Update(i + 1, stream[i], 0, 0, 0)
                          && waiting[1..] == Numbered(i + 2, stream[i + 1..j], 0, 0, 0))
  {
  }

  lemma {:induction false} StaysStopped(stream: seq<Event>, i: nat, j: nat)
    requires i <= j <= |stream| && SynthAfter(stream, i).None?
    ensures SynthAfter(stream, j).None?
    decreases j - i
  {
    hide SynthAfter, Passes, Applied;
    if i < j {
      SynthStep(stream, i + 1);
      StaysStopped(stream, i + 1, j);
    }
  }

  /** The frames of a cycle taken after `w` events are those that recovery knows under its number. */
  lemma CycleIsGenuine(stream: seq<Event>, cycles: map<nat, nat>, c: nat, w: nat, orders: OrdersByTicker)
    requires GenuineStream(stream) && w <= |stream| && c in cycles && cycles[c] == w
    requires SynthAfter(stream, w) == Some(orders)
    ensures SnapshotFrames(c, w, orders) == CycleFrames(World(stream, cycles), c)
    ensures forall i :: 0 <= i < |SnapshotFrames(c, w, orders)| ==>
              GenuineSnapshot(World(stream, cycles), SnapshotFrames(c, w, orders)[i])
  {
    hide BookHash, Flatten, SnapshotEvents, BooksAt, OrdersOf, SynthAfter, PoolSuffices, GenuineStream;
    PassesExactlyWhen(stream, w);
  }

  lemma FlattenStep(os: OrdersByTicker, t: nat)
    ensures Flatten(os, t) == if t >= ME_MAX_TICKERS then [] else LiveFrom(t, os[t], 0) + Flatten(os, t + 1)
  {
    hide LiveFrom;
  }
}
