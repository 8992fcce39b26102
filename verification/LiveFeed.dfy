/**
 The live receiver: what it does with one frame, exactly which steps make a ready market unready, and what a run
 of ordinary reception keeps. Frames arrive in order, some of them again; the engine and the exchange go on.
*/
module LiveFeed {
  import opened Types
  import opened PriceBooks
  import opened Replay
  import opened MarketStream
  import opened RecoverySpec
  import opened RecoveryProps
  import opened Protocol
  import opened ProtocolFine

  // ------------------------------------------------------------------ one frame

  /** Live under the current generation. */
  predicate Live(s: Sys) { !s.consumer.rec.recovering && s.generation == s.consumer.observed }

  /** The event entered the queue as the next of the stream, and nothing else happened. */
  ghost predicate Queued(stream: seq<Event>, s: Sys, s': Sys) {
    && 0 < s.consumer.rec.expected <= |stream|
    && s'.queue == s.queue + [stream[s.consumer.rec.expected - 1]]
    && s'.consumer == s.consumer.(rec := s.consumer.rec.(expected := s.consumer.rec.expected + 1))
    && s' == s.(queue := s'.queue, consumer := s'.consumer)
  }

  /** A new generation, for which the consumer recovers from nothing it held but the frame itself; the queue and
      the engine go on. */
  ghost predicate Reopened(s: Sys, s': Sys, u: Update, limit: nat) {
    && s'.generation == s'.consumer.observed == s.generation + 1
    && s'.consumer.rec.recovering && s'.consumer.rec.expected == s.consumer.rec.expected
    && s'.consumer.rec.snapshot == map[] && s'.consumer.candidate == None
    && s'.consumer.rec.incremental == (if limit > 0 then map[u.seqNum := u] else map[])
    && s' == s.(generation := s'.generation, consumer := s'.consumer)
  }

  /** A genuine increment at a live consumer: an older number changes nothing, the next one is queued if there is
      room, and a gap or a full queue opens a new generation. A snapshot frame changes nothing. */
  lemma LiveFrame(stream: seq<Event>, limit: nat, s: Sys, snapshot: bool, u: Update, full: bool)
    requires Inv(stream, s) && Live(s) && Enabled(stream, s, Receive(snapshot, u, full))
    ensures var s' := Do(stream, limit, s, Receive(snapshot, u, full));
            if snapshot || u.seqNum < s.consumer.rec.expected then s' == s
            else if u.seqNum == s.consumer.rec.expected && !full then Queued(stream, s, s')
            else Reopened(s, s', u, limit)
  {
    hide GenuineSnapshot, Build, BooksInv, GenerationInv, PublisherInv, CycleFrames;
    if !snapshot && (u.seqNum > s.consumer.rec.expected || (u.seqNum == s.consumer.rec.expected && full)) {
      BuildLeaves(Ingest(Restart(s.consumer.rec), false, u, limit).0);
      assert map[u.seqNum := u].Keys == {u.seqNum};
      assert |map[u.seqNum := u]| == |{u.seqNum}| == 1;
    }
  }

  // ------------------------------------------------------------------ what a ready market survives

  /** An engine about to bump the generation has an event in front that does not apply. */
  ghost predicate BumpsOnlyRejects(s: Sys) {
    s.pc.Bumping? ==> s.queue != [] && !IsMarker(s.queue[0]) && !Accepts(s, s.queue[0])
  }

  lemma StepBumps(stream: seq<Event>, limit: nat, s: Sys, a: Step)
    requires Inv(stream, s) && BumpsOnlyRejects(s) && Enabled(stream, s, a)
    ensures BumpsOnlyRejects(Do(stream, limit, s, a))
  {
    hide PublisherInv, ConsumerInv, BooksInv, GenuineFrame, ClientAccepts, EffectOn, Process, KeysOk;
    match a
    case Receive(snapshot, u, full) => ReceiveFront(s, snapshot, u, full, limit);
    case _ =>
  }

  /** A frame only ever adds to the end of the queue. */
  lemma ReceiveFront(s: Sys, snapshot: bool, u: Update, full: bool, limit: nat)
    requires KeysOk(s.consumer.rec)
    ensures var s' := Process(s, snapshot, u, full, limit);
            s'.pc == s.pc && s'.books == s.books && s.queue <= s'.queue && s'.applied == s.applied
  {
    hide Ingest, Build, KeysOk;
  }

  lemma {:induction false} RunBumps(stream: seq<Event>, limit: nat, run: seq<Sys>, i: nat)
    requires GenuineStream(stream) && IsRun(stream, limit, run) && i < |run|
    ensures BumpsOnlyRejects(run[i])
  {
    hide Inv, Enabled, Do, BumpsOnlyRejects;
    if i == 0 {
      var c: nat :| run[0] == Init(c);
      InitBumps(c);
    } else {
      RunBumps(stream, limit, run, i - 1);
      RunInv(stream, limit, run, i - 1);
      assert Follows(stream, limit, run[i - 1], run[i]);
      var a :| Enabled(stream, run[i - 1], a) && run[i] == Do(stream, limit, run[i - 1], a);
      StepBumps(stream, limit, run[i - 1], a);
    }
  }

  lemma InitBumps(c: nat)
    ensures BumpsOnlyRejects(Init(c))
  {
  }

  /** Everything but a bad datagram, a gap, and the next increment before a full queue. */
  predicate Calm(s: Sys, a: Step) {
    && !a.Fault?
    && (a.Receive? && !a.snapshot ==>
          a.frame.seqNum < s.consumer.rec.expected || (a.frame.seqNum == s.consumer.rec.expected && !a.full))
  }

  /** A ready market is live, its books are an exchange state, and the queue holds the events that come next. */
  lemma ReadyIs(stream: seq<Event>, s: Sys) returns (k: nat)
    requires Inv(stream, s) && BumpsOnlyRejects(s) && Ready(s)
    ensures Live(s) && CurrentAt(stream, s, k) && s.pc.Polling? && s.consumer.candidate.None?
    ensures forall i :: 0 <= i < |s.queue| ==> !IsMarker(s.queue[i])
    ensures s.queue != [] ==> Accepts(s, s.queue[0])
  {
    hide RecInv, Build, PendingAt, EffectOn, Genuine, ClientAccepts;
    k :| CurrentAt(stream, s, k);
    forall i | 0 <= i < |s.queue| ensures !IsMarker(s.queue[i]) { StreamPlain(stream, k + i); }
    if s.queue != [] {
      assert GenuineAt(stream, k);
      GenuineAccepted(s.books[stream[k].ticker], stream[k].ticker, stream[k]);
    }
  }

  lemma GenuineAccepted(b: PriceBook, t: TickerId, e: Event)
    requires Genuine(b, t, e)
    ensures ClientAccepts(b, t, e)
  {
  }

  /** Of all steps of all threads exactly those three make a ready market unready. */
  lemma ReadyStaysExactlyWhen(stream: seq<Event>, limit: nat, s: Sys, a: Step)
    requires Inv(stream, s) && BumpsOnlyRejects(s) && Ready(s) && Enabled(stream, s, a)
    ensures Ready(Do(stream, limit, s, a)) <==> Calm(s, a)
    ensures Calm(s, a) ==> Do(stream, limit, s, a).generation == s.generation
  {
    var k := ReadyIs(stream, s);
    hide Inv, Process, CurrentAt, EffectOn, Accepts, KeysOk, GenuineFrame;
    match a
    case Receive(snapshot, u, full) => LiveFrame(stream, limit, s, snapshot, u, full);
    case _ =>
  }

  // ------------------------------------------------------------------ a run of ordinary reception

  /** What a step added to the queue. */
  ghost function Entered(stream: seq<Event>, limit: nat, s: Sys, a: Step): seq<Event>
    requires Enabled(stream, s, a)
  {
    var s' := Do(stream, limit, s, a);
    if a.Receive? && s.queue <= s'.queue then s'.queue[|s.queue|..] else []
  }

  predicate Increment(a: Step) { a.Receive? && !a.snapshot }

  /** The number the consumer waits for after a step. */
  function NextNumber(s: Sys, a: Step): nat {
    if a.Receive? && !a.snapshot && a.frame.seqNum == s.consumer.rec.expected && !a.full
    then s.consumer.rec.expected + 1 else s.consumer.rec.expected
  }

  /** Steps other than reception leave the consumer's number alone. */
  lemma OthersWait(stream: seq<Event>, limit: nat, s: Sys, a: Step)
    requires Enabled(stream, s, a) && !a.Receive? && !a.Fault? && Live(s) && s.consumer.candidate.None?
    ensures Do(stream, limit, s, a).consumer.rec.expected == s.consumer.rec.expected
  {
    hide EffectOn, Accepts;
  }

  lemma QueuedEntered(stream: seq<Event>, s: Sys, s': Sys)
    requires Queued(stream, s, s')
    ensures s.queue <= s'.queue
    ensures s'.queue[|s.queue|..] == stream[s.consumer.rec.expected - 1..s.consumer.rec.expected]
  {
  }

  lemma CalmStep(stream: seq<Event>, limit: nat, s: Sys, a: Step)
    requires Inv(stream, s) && BumpsOnlyRejects(s) && Ready(s) && Enabled(stream, s, a) && Calm(s, a)
    ensures var s' := Do(stream, limit, s, a);
            && s'.consumer.rec.expected == NextNumber(s, a)
            && 0 < s.consumer.rec.expected <= s'.consumer.rec.expected <= |stream| + 1
            && Entered(stream, limit, s, a) == stream[s.consumer.rec.expected - 1..s'.consumer.rec.expected - 1]
  {
    hide Inv, Enabled, Do, CurrentAt, Queued, BumpsOnlyRejects, Ready, Live, Reopened;
    var k := ReadyIs(stream, s);
    ExpectedIs(stream, s);
    var s' := Do(stream, limit, s, a);
    if a.Receive? {
      LiveFrame(stream, limit, s, a.snapshot, a.frame, a.full);
      if Increment(a) && a.frame.seqNum == s.consumer.rec.expected {
        QueuedEntered(stream, s, s');
        QueuedIs(stream, s, s');
      } else {
        NothingEntered(s, stream, s.consumer.rec.expected);
      }
    } else {
      OthersWait(stream, limit, s, a);
    }
  }

  lemma NothingEntered(s: Sys, stream: seq<Event>, e: nat)
    requires 0 < e <= |stream| + 1
    ensures s.queue <= s.queue && s.queue[|s.queue|..] == [] == stream[e - 1..e - 1]
  {
  }

  lemma QueuedIs(stream: seq<Event>, s: Sys, s': Sys)
    requires Queued(stream, s, s')
    ensures s'.consumer.rec.expected == s.consumer.rec.expected + 1 && s.consumer.rec.expected <= |stream|
  {
  }

  /** Steps in a row, each from the state the one before led to. */
  ghost predicate Trail(stream: seq<Event>, limit: nat, path: seq<Sys>, steps: seq<Step>) {
    && |path| == |steps| + 1
    && forall i :: 0 <= i < |steps| ==> Enabled(stream, path[i], steps[i]) && path[i + 1] == Do(stream, limit, path[i], steps[i])
  }

  /** All that entered the queue on the way, in order. */
  ghost function AllEntered(stream: seq<Event>, limit: nat, path: seq<Sys>, steps: seq<Step>, n: nat): seq<Event>
    requires Trail(stream, limit, path, steps) && n <= |steps|
  {
    if n == 0 then [] else AllEntered(stream, limit, path, steps, n - 1) + Entered(stream, limit, path[n - 1], steps[n - 1])
  }

  ghost predicate CalmSteps(path: seq<Sys>, steps: seq<Step>, n: nat)
    requires |path| == |steps| + 1 && n <= |steps|
  {
    forall i :: 0 <= i < n ==> Calm(path[i], steps[i])
  }

  lemma TrailAt(stream: seq<Event>, limit: nat, path: seq<Sys>, steps: seq<Step>, n: nat)
    requires Trail(stream, limit, path, steps) && 0 < n <= |steps|
    ensures Enabled(stream, path[n - 1], steps[n - 1]) && path[n] == Do(stream, limit, path[n - 1], steps[n - 1])
    ensures CalmSteps(path, steps, n) ==> CalmSteps(path, steps, n - 1) && Calm(path[n - 1], steps[n - 1])
    ensures AllEntered(stream, limit, path, steps, n)
         == AllEntered(stream, limit, path, steps, n - 1) + Entered(stream, limit, path[n - 1], steps[n - 1])
  {
    hide Enabled, Do, Calm, Entered;
    assert path[n - 1 + 1] == Do(stream, limit, path[n - 1], steps[n - 1]);
  }

  lemma Stretch(stream: seq<Event>, i: nat, j: nat, k: nat)
    requires i <= j <= k <= |stream|
    ensures stream[i..j] + stream[j..k] == stream[i..k]
  {
  }

  /** The run law. From a ready market, through any steps of the exchange and of the engine and any reception in
      order, with repeats of older numbers, any snapshots, and room in the queue: the market stays ready under the
      same generation, and what has entered the queue is the stream from the number expected at the start to the
      one expected at the end, each event once. */
  lemma {:induction false} ReceptionKeepsReady(stream: seq<Event>, limit: nat, path: seq<Sys>, steps: seq<Step>, n: nat)
    requires Trail(stream, limit, path, steps) && n <= |steps|
    requires Inv(stream, path[0]) && BumpsOnlyRejects(path[0]) && Ready(path[0]) && CalmSteps(path, steps, n)
    ensures Inv(stream, path[n]) && BumpsOnlyRejects(path[n])
    ensures Ready(path[n]) && path[n].generation == path[0].generation
    ensures 0 < path[0].consumer.rec.expected <= path[n].consumer.rec.expected <= |stream| + 1
    ensures AllEntered(stream, limit, path, steps, n)
         == stream[path[0].consumer.rec.expected - 1..path[n].consumer.rec.expected - 1]
    decreases n
  {
    hide Inv, BumpsOnlyRejects, Enabled, Do, Calm, CalmSteps, Entered, AllEntered, Ready, NextNumber, Trail;
    TrailSized(stream, limit, path, steps);
    if n > 0 {
      TrailAt(stream, limit, path, steps, n);
      ReceptionKeepsReady(stream, limit, path, steps, n - 1);
      var s, a := path[n - 1], steps[n - 1];
      ReadyStaysExactlyWhen(stream, limit, s, a);
      CalmStep(stream, limit, s, a);
      StepKeeps(stream, limit, s, a);
      StepBumps(stream, limit, s, a);
      Stretch(stream, path[0].consumer.rec.expected - 1, s.consumer.rec.expected - 1, path[n].consumer.rec.expected - 1);
    } else {
      ExpectedIs(stream, path[0]);
      NoneEntered(stream, limit, path, steps);
    }
  }

  lemma TrailSized(stream: seq<Event>, limit: nat, path: seq<Sys>, steps: seq<Step>)
    requires Trail(stream, limit, path, steps)
    ensures |path| == |steps| + 1
  {
    hide Enabled, Do;
  }

  lemma NoneEntered(stream: seq<Event>, limit: nat, path: seq<Sys>, steps: seq<Step>)
    requires Trail(stream, limit, path, steps)
    ensures AllEntered(stream, limit, path, steps, 0) == []
  {
    hide Enabled, Do;
  }

  /** Every number received on such a run is below the one then expected: its event has entered the queue, on this
      run or before it. */
  lemma {:induction false} ReceivedHasEntered(stream: seq<Event>, limit: nat, path: seq<Sys>, steps: seq<Step>, n: nat, i: nat)
    requires Trail(stream, limit, path, steps) && i < n <= |steps| && Increment(steps[i])
    requires Inv(stream, path[0]) && BumpsOnlyRejects(path[0]) && Ready(path[0]) && CalmSteps(path, steps, n)
    ensures steps[i].frame.seqNum < path[n].consumer.rec.expected
    decreases n
  {
    hide Inv, BumpsOnlyRejects, Enabled, Do, Calm, CalmSteps, Entered, AllEntered, Ready, NextNumber, Trail, Increment;
    TrailSized(stream, limit, path, steps);
    TrailAt(stream, limit, path, steps, n);
    ReceptionKeepsReady(stream, limit, path, steps, n - 1);
    CalmStep(stream, limit, path[n - 1], steps[n - 1]);
    if i == n - 1 {
      CalmNumber(path[i], steps[i]);
    } else {
      ReceivedHasEntered(stream, limit, path, steps, n - 1, i);
    }
  }

  lemma CalmNumber(s: Sys, a: Step)
    requires Calm(s, a) && Increment(a)
    ensures a.frame.seqNum < NextNumber(s, a)
  {
  }

  lemma ExpectedIs(stream: seq<Event>, s: Sys)
    requires Inv(stream, s)
    ensures 0 < s.consumer.rec.expected <= |stream| + 1
  {
    hide PublisherInv, GenerationInv, BooksInv, Build, GenuineSnapshot, GenuineIncrement;
  }
}
