/**
 `LFQueue` between one producer and one consumer. Every access to a cursor or a slot is its own step, the
 two threads interleave freely, and a cursor of the other thread may be read late.
*/
module SpscQueue {
  import opened Types
  import opened Cursors

  /** The producer: idle; holding a batch for which it saw room, the first `done` of it written. */
  datatype Producer<T> = Idle | Writing(batch: seq<T>, done: nat)

  /** The consumer: outside; holding the borrowed head. */
  datatype Consumer<T> = Away | Holding(value: T)

  /**
   The slots and the two cursors are the program's; the counters behind the cursors, what each thread last
   saw of the other's, and the two histories are only for stating what holds.
  */
  datatype Queue<T> = Queue(
    store: seq<T>, head: nat, tail: nat, producer: Producer<T>, consumer: Consumer<T>,
    published: seq<T>, taken: seq<T>, seenHead: nat, seenTail: nat)

  function Capacity<T>(q: Queue<T>): nat { |q.store| }

  function Init<T>(slots: seq<T>): Queue<T> { Queue(slots, 0, 0, Idle, Away, [], [], 0, 0) }

  datatype Step<T> =
    /** `try_push_batch` loads the head, as it is or as it was, and checks the room (`try_push`: one value). */
    | Admit(batch: seq<T>, head: nat)
    | WriteSlot
    | PublishTail
    /** `peek` loads the tail, as it is or as it was, and borrows the head slot. */
    | Peek(tail: nat)
    | Pop

  /** What a late read of the other thread's cursor may return. */
  predicate Enabled<T>(q: Queue<T>, a: Step<T>) {
    Capacity(q) > 0 &&
    match a
    case Admit(batch, h) => q.producer.Idle? && batch != [] && q.seenHead <= h <= |q.taken|
    case WriteSlot => q.producer.Writing? && q.producer.done < |q.producer.batch|
    case PublishTail => q.producer.Writing? && q.producer.done == |q.producer.batch|
    case Peek(t) => q.consumer.Away? && q.seenTail <= t <= |q.published|
    case Pop => q.consumer.Holding?
  }

  /** The slot cursor of the next write. */
  function WriteCursor(tail: nat, done: nat, n: nat): nat
    requires n > 0
  {
    if done == 0 then tail else Next(WriteCursor(tail, done - 1, n), n)
  }

  function Do<T>(q: Queue<T>, a: Step<T>): Queue<T>
    requires Enabled(q, a)
  {
    var n := Capacity(q);
    match a
    case Admit(batch, h) =>
      if |batch| > n - Distance(q.tail, Cursor(h, n), n) then q.(seenHead := h)
      else q.(seenHead := h, producer := Writing(batch, 0))
    case WriteSlot =>
      q.(store := q.store[WriteCursor(q.tail, q.producer.done, n) % n := q.producer.batch[q.producer.done]],
         producer := q.producer.(done := q.producer.done + 1))
    case PublishTail =>
      q.(tail := WriteCursor(q.tail, q.producer.done, n), producer := Idle, published := q.published + q.producer.batch)
    case Peek(t) =>
      if q.head == Cursor(t, n) then q.(seenTail := t)
      else q.(seenTail := t, consumer := Holding(q.store[q.head % n]))
    case Pop =>
      q.(head := Next(q.head, n), consumer := Away, taken := q.taken + [q.consumer.value])
  }

  ghost predicate SlotHolds<T>(q: Queue<T>, i: nat)
    requires Capacity(q) > 0 && i < |q.published|
  {
    q.store[i % Capacity(q)] == q.published[i]
  }

  ghost predicate SlotWritten<T>(q: Queue<T>, j: nat)
    requires Capacity(q) > 0 && q.producer.Writing? && j < |q.producer.batch|
  {
    q.store[(|q.published| + j) % Capacity(q)] == q.producer.batch[j]
  }

  ghost predicate Inv<T>(q: Queue<T>) {
    && Capacity(q) > 0
    && q.seenHead <= |q.taken| <= q.seenTail <= |q.published| <= q.seenHead + Capacity(q)
    && q.taken == q.published[..|q.taken|]
    && q.head == Cursor(|q.taken|, Capacity(q)) && q.tail == Cursor(|q.published|, Capacity(q))
    && (forall i :: |q.taken| <= i < |q.published| ==> SlotHolds(q, i))
    && (q.producer.Writing? ==>
          && q.producer.done <= |q.producer.batch|
          && |q.published| + |q.producer.batch| <= q.seenHead + Capacity(q)
          && forall j :: 0 <= j < q.producer.done ==> SlotWritten(q, j))
    && (q.consumer.Holding? ==> |q.taken| < q.seenTail && q.consumer.value == q.published[|q.taken|])
  }

  lemma InitInv<T>(slots: seq<T>)
    requires slots != []
    ensures Inv(Init(slots))
  {
  }

  lemma {:induction false} WriteCursorIs(k: nat, done: nat, n: nat)
    requires n > 0
    ensures WriteCursor(Cursor(k, n), done, n) == Cursor(k + done, n)
  {
    hide Cursor, Next;
    if done > 0 {
      WriteCursorIs(k, done - 1, n);
      NextIs(k + done - 1, n);
    }
  }

  lemma AdmitKeeps<T>(q: Queue<T>, batch: seq<T>, h: nat)
    requires Inv(q) && Enabled(q, Admit(batch, h))
    ensures Inv(Do(q, Admit(batch, h)))
    ensures Do(q, Admit(batch, h)).producer.Writing? <==> |batch| <= Capacity(q) - (|q.published| - h)
  {
    hide Cursor, Distance, SlotHolds;
    DistanceIs(|q.published|, h, Capacity(q));
    var q' := Do(q, Admit(batch, h));
    forall i | |q.taken| <= i < |q.published| ensures SlotHolds(q', i) { SameSlot(q, q', i); }
  }

  lemma SameSlot<T>(q: Queue<T>, q': Queue<T>, i: nat)
    requires Capacity(q) > 0 && i < |q.published| && q'.store == q.store && |q.published| <= |q'.published|
    requires q'.published[..|q.published|] == q.published && SlotHolds(q, i)
    ensures SlotHolds(q', i)
  {
    assert q'.published[i] == q.published[i];
  }

  /** The slot written holds nothing unread, and nothing of the batch so far. */
  lemma FreeSlot<T>(q: Queue<T>)
    requires Inv(q) && Enabled(q, WriteSlot)
    ensures var n := Capacity(q); var w := WriteCursor(q.tail, q.producer.done, n) % n;
            && w == (|q.published| + q.producer.done) % n
            && forall i :: |q.taken| <= i < |q.published| + q.producer.done ==> i % n != w
  {
    hide SlotHolds, SlotWritten;
    var n := Capacity(q);
    WriteCursorIs(|q.published|, q.producer.done, n);
    SlotIs(|q.published| + q.producer.done, n);
    hide Cursor, WriteCursor;
    forall i | |q.taken| <= i < |q.published| + q.producer.done
      ensures i % n != (|q.published| + q.producer.done) % n
    {
      SlotsDiffer(i, |q.published| + q.producer.done, n);
    }
  }

  lemma WriteKeeps<T>(q: Queue<T>)
    requires Inv(q) && Enabled(q, WriteSlot)
    ensures Inv(Do(q, WriteSlot))
  {
    FreeSlot(q);
    hide Cursor, WriteCursor;
    var q' := Do(q, WriteSlot);
    forall i | |q.taken| <= i < |q.published| ensures SlotHolds(q', i) { assert SlotHolds(q, i); }
    forall j | 0 <= j < q'.producer.done ensures SlotWritten(q', j) {
      if j < q.producer.done { assert SlotWritten(q, j); }
    }
  }

  lemma PublishKeeps<T>(q: Queue<T>)
    requires Inv(q) && Enabled(q, PublishTail)
    ensures Inv(Do(q, PublishTail))
  {
    WriteCursorIs(|q.published|, q.producer.done, Capacity(q));
    hide Cursor, WriteCursor;
    var q' := Do(q, PublishTail);
    forall i | |q'.taken| <= i < |q'.published| ensures SlotHolds(q', i) {
      if i < |q.published| { assert SlotHolds(q, i); } else { assert SlotWritten(q, i - |q.published|); }
    }
  }

  lemma HeadSlot<T>(q: Queue<T>)
    requires Inv(q) && |q.taken| < |q.published|
    ensures q.store[q.head % Capacity(q)] == q.published[|q.taken|]
  {
    hide Cursor;
    SlotIs(|q.taken|, Capacity(q));
    assert SlotHolds(q, |q.taken|);
  }

  lemma PeekKeeps<T>(q: Queue<T>, t: nat)
    requires Inv(q) && Enabled(q, Peek(t))
    ensures Inv(Do(q, Peek(t)))
    ensures Do(q, Peek(t)).consumer.Holding? <==> |q.taken| < t
  {
    hide Cursor, SlotHolds, SlotWritten, Distance;
    DistanceIs(t, |q.taken|, Capacity(q));
    if |q.taken| < t { HeadSlot(q); }
    PeekView(q, t);
    var q' := Do(q, Peek(t));
    hide Do;
    forall i | |q.taken| <= i < |q.published| ensures SlotHolds(q', i) { SameSlot(q, q', i); }
    if q.producer.Writing? {
      forall j | 0 <= j < q.producer.done ensures SlotWritten(q', j) { SameWritten(q, q', j); }
    }
  }

  lemma SameWritten<T>(q: Queue<T>, q': Queue<T>, j: nat)
    requires Capacity(q) > 0 && q.producer.Writing? && j < |q.producer.batch| && SlotWritten(q, j)
    requires q'.store == q.store && q'.published == q.published && q'.producer == q.producer
    ensures SlotWritten(q', j)
  {
  }

  lemma PeekView<T>(q: Queue<T>, t: nat)
    requires Enabled(q, Peek(t))
    ensures Do(q, Peek(t)) == q.(seenTail := t, consumer := Do(q, Peek(t)).consumer)
    ensures Do(q, Peek(t)).consumer
         == if q.head == Cursor(t, Capacity(q)) then q.consumer else Holding(q.store[q.head % Capacity(q)])
  {
    hide Cursor;
  }

  lemma PopKeeps<T>(q: Queue<T>)
    requires Inv(q) && Enabled(q, Pop)
    ensures Inv(Do(q, Pop))
  {
    NextIs(|q.taken|, Capacity(q));
    hide Cursor, Next, SlotHolds, SlotWritten;
    var q' := Do(q, Pop);
    assert q'.taken == q.published[..|q'.taken|];
    forall i | |q'.taken| <= i < |q'.published| ensures SlotHolds(q', i) { SameSlot(q, q', i); }
    if q.producer.Writing? {
      forall j | 0 <= j < q.producer.done ensures SlotWritten(q', j) { SameWritten(q, q', j); }
    }
  }

  lemma StepKeeps<T>(q: Queue<T>, a: Step<T>)
    requires Inv(q) && Enabled(q, a)
    ensures Inv(Do(q, a))
  {
    hide Inv, Do;
    match a
    case Admit(batch, h) => AdmitKeeps(q, batch, h);
    case WriteSlot => WriteKeeps(q);
    case PublishTail => PublishKeeps(q);
    case Peek(t) => PeekKeeps(q, t);
    case Pop => PopKeeps(q);
  }

  // ------------------------------------------------------------------ refinement of a bounded FIFO

  /** What the queue stands for: the values published and not yet taken. */
  function Contents<T>(q: Queue<T>): seq<T>
    requires |q.taken| <= |q.published|
  {
    q.published[|q.taken|..]
  }

  /** What a step means for a bounded FIFO: a whole batch at once, one value from the front, or nothing. */
  ghost predicate Abstract<T>(q: Queue<T>, a: Step<T>, q': Queue<T>)
    requires |q.taken| <= |q.published| && |q'.taken| <= |q'.published|
  {
    match a
    case PublishTail => q.producer.Writing? && Contents(q') == Contents(q) + q.producer.batch && q'.taken == q.taken
    case Pop => Contents(q) != [] && Contents(q') == Contents(q)[1..] && q'.taken == q.taken + [Contents(q)[0]]
    case _ => Contents(q') == Contents(q) && q'.taken == q.taken
  }

  lemma StepRefines<T>(q: Queue<T>, a: Step<T>)
    requires Inv(q) && Enabled(q, a)
    ensures Inv(Do(q, a)) && |Contents(q)| <= Capacity(q) && Abstract(q, a, Do(q, a))
  {
    hide SlotHolds, SlotWritten, Cursor, Next, Distance, WriteCursor;
    StepKeeps(q, a);
  }

  ghost predicate IsRun<T(!new)>(slots: seq<T>, run: seq<Queue<T>>) {
    && slots != [] && run != [] && run[0] == Init(slots)
    && forall i :: 0 <= i < |run| - 1 ==> Follows(run[i], run[i + 1])
  }

  ghost predicate Follows<T(!new)>(q: Queue<T>, q': Queue<T>) { exists a :: Enabled(q, a) && q' == Do(q, a) }

  lemma {:induction false} RunInv<T(!new)>(slots: seq<T>, run: seq<Queue<T>>, i: nat)
    requires IsRun(slots, run) && i < |run|
    ensures Inv(run[i]) && Capacity(run[i]) == |slots|
  {
    hide Inv, Abstract, Enabled;
    if i == 0 {
      InitInv(slots);
    } else {
      RunInv(slots, run, i - 1);
      assert Follows(run[i - 1], run[i - 1 + 1]);
      var a :| Enabled(run[i - 1], a) && run[i] == Do(run[i - 1], a);
      StepKeeps(run[i - 1], a);
    }
  }

  lemma Reads<T>(q: Queue<T>)
    requires Inv(q)
    ensures q.taken + Contents(q) == q.published && |Contents(q)| <= Capacity(q)
    ensures q.consumer.Holding? ==> Contents(q) != [] && q.consumer.value == Contents(q)[0]
  {
    hide SlotHolds, SlotWritten, Cursor;
  }

  /** In every interleaving, with late reads of either cursor: nothing unread is overwritten, nothing is lost,
      repeated or reordered, the queue never holds more than its capacity, and what is held or being held by
      the consumer is the oldest value. */
  lemma {:induction false} QueueIsFifo<T(!new)>(slots: seq<T>, run: seq<Queue<T>>, i: nat)
    requires IsRun(slots, run) && i < |run|
    ensures Inv(run[i]) && Capacity(run[i]) == |slots|
    ensures run[i].taken + Contents(run[i]) == run[i].published && |Contents(run[i])| <= |slots|
    ensures run[i].consumer.Holding? ==> Contents(run[i]) != [] && run[i].consumer.value == Contents(run[i])[0]
  {
    hide Inv, IsRun, Contents;
    RunInv(slots, run, i);
    Reads(run[i]);
  }
}
