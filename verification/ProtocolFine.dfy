/**
 The protocol one access at a time. Some steps of `Protocol` stand for two accesses to shared state: an event is
 multicast and then forwarded, a cycle is sent frame by frame, a push fails before the generation is bumped, a
 changed generation is read twice, and the engine pops the front of its queue only after it has dealt with it.
 Here other threads may come between. Every such run is one of the protocol's, seen through `Seen`.
*/
module ProtocolFine {
  import opened Types
  import opened PriceBooks
  import opened Replay
  import opened MarketStream
  import opened RecoverySpec
  import opened RecoveryProps
  import opened Protocol

  /** Where the receiving thread stands: between frames, after a push that failed, or after it has read a
      generation other than its own. */
  datatype Receiver = Idle | Failed(frame: Update) | Noticed

  /** The system with what is half done: the front of the queue dealt with but not popped, events multicast but not
      yet forwarded, and how many frames of the last cycle have been sent while it is being sent. */
  datatype Fine = Fine(sys: Sys, popping: bool, receiver: Receiver, forwarded: nat, sent: Option<nat>)

  function FineInit(firstCycle: nat): Fine { Fine(Init(firstCycle), false, Idle, 0, None) }

  datatype FineStep =
    | Multicast | Forward                                    // publisher
    | Synthesize | Begin | SendFrame                         // synthesizer
    | Lose | Notice | Adopt                                  // consumer: bad datagram; the engine's bump
    | Take(snapshot: bool, frame: Update)                    // consumer: a frame, pushed if it is the next
    | PushFails(frame: Update) | GoStale                     // consumer: a frame, the queue full
    | AdmitBatch                                             // consumer
    | Apply | Reject | Bump | Load | Store | Pop             // engine

  /** The next frame in sequence, when live. */
  predicate Next(s: Sys, u: Update) { !s.consumer.rec.recovering && u.seqNum == s.consumer.rec.expected }

  /** A frame that has been sent. */
  ghost predicate OnTheWire(stream: seq<Event>, f: Fine, snapshot: bool, u: Update) {
    && GenuineFrame(World(stream, f.sys.cycles), snapshot, u)
    && (!snapshot ==> u.seqNum <= f.sys.numbered)
    && (snapshot && f.sent.Some? && u.cycle == f.sys.lastCycle ==> u.seqNum < f.sent.value)
  }

  ghost predicate FineEnabled(stream: seq<Event>, f: Fine, a: FineStep) {
    var s := f.sys;
    var front := s.queue != [] && !f.popping;
    match a
    case Multicast => f.forwarded == s.numbered < |stream|
    case Forward => f.forwarded < s.numbered
    case Synthesize => f.sent.None? && s.snapshotted < f.forwarded && s.snapshotted < s.numbered
    case Begin => f.sent.None?
    case SendFrame => f.sent.Some?
    case Lose => f.receiver.Idle?
    case Notice => f.receiver.Idle? && s.generation != s.consumer.observed
    case Adopt => f.receiver.Noticed?
    case Take(snapshot, u) =>
      && f.receiver.Idle? && KeysOk(s.consumer.rec) && OnTheWire(stream, f, snapshot, u)
      && (!snapshot && Next(s, u) ==> |s.queue| < ME_MAX_MARKET_UPDATES)
    case PushFails(u) =>
      && f.receiver.Idle? && OnTheWire(stream, f, false, u) && Next(s, u) && |s.queue| >= ME_MAX_MARKET_UPDATES
    case GoStale => f.receiver.Failed? && KeysOk(s.consumer.rec)
    case AdmitBatch =>
      && f.receiver.Idle? && s.consumer.candidate.Some? && s.consumer.candidate.value != []
      && |s.queue| + |s.consumer.candidate.value| <= ME_MAX_MARKET_UPDATES
    case Apply => front && s.pc.Polling? && !IsMarker(s.queue[0]) && Accepts(s, s.queue[0])
    case Reject => front && s.pc.Polling? && !IsMarker(s.queue[0]) && !Accepts(s, s.queue[0])
    case Bump => front && s.pc.Bumping?
    case Load => front && s.pc.Polling? && IsMarker(s.queue[0])
    case Store => front && s.pc.Storing?
    case Pop => f.popping && s.queue != []
  }

  ghost function FineDo(stream: seq<Event>, limit: nat, f: Fine, a: FineStep): Fine
    requires FineEnabled(stream, f, a)
  {
    var s := f.sys;
    match a
    case Multicast => f.(sys := Sent(s))
    case Forward => f.(forwarded := f.forwarded + 1)
    case Synthesize => f.(sys := Synthesized(s))
    case Begin => f.(sys := CyclePublished(s), sent := Some(0))
    case SendFrame =>
      var n := f.sent.value + 1;
      f.(sent := if n < |CycleFrames(World(stream, s.cycles), s.lastCycle)| then Some(n) else None)
    case Lose => f.(sys := Stale(s))
    case Notice => f.(receiver := Noticed)
    case Adopt => f.(sys := s.(consumer := Consumer(Restart(s.consumer.rec), s.generation, None)), receiver := Idle)
    case Take(snapshot, u) => f.(sys := Process(s, snapshot, u, false, limit))
    case PushFails(u) => f.(receiver := Failed(u))
    case GoStale => f.(sys := Process(s, false, f.receiver.frame, true, limit), receiver := Idle)
    case AdmitBatch => f.(sys := PublishRecovery(s))
    case Apply => f.(sys := s.(books := EffectOn(s.books, s.queue[0])), popping := true)
    case Reject => f.(sys := s.(pc := Bumping))
    case Bump => f.(sys := s.(generation := s.generation + 1, pc := Polling), popping := true)
    case Load =>
      if s.queue[0].priority == s.generation then f.(sys := s.(pc := Storing(s.queue[0].priority)))
      else f.(popping := true)
    case Store => f.(sys := s.(applied := s.pc.applied, pc := Polling), popping := true)
    case Pop => f.(sys := s.(queue := s.queue[1..]), popping := false)
  }

  /** The state of the protocol it stands for: what has been dealt with is out of the queue. */
  function Seen(f: Fine): Sys {
    if f.popping && f.sys.queue != [] then f.sys.(queue := f.sys.queue[1..]) else f.sys
  }

  ghost predicate FineInv(stream: seq<Event>, f: Fine) {
    && Inv(stream, Seen(f))
    && (f.popping ==> f.sys.queue != [] && f.sys.pc.Polling?)
    && (f.receiver.Failed? ==>
          var u := f.receiver.frame;
          GenuineIncrement(World(stream, f.sys.cycles), u) && u.seqNum <= f.sys.numbered && Next(f.sys, u))
    && (f.receiver.Noticed? ==> f.sys.consumer.observed < f.sys.generation)
  }

  /** The step of the protocol that a single access is, if it is not one that no other thread can tell. */
  ghost function StepOf(stream: seq<Event>, f: Fine, a: FineStep): Option<Step>
    requires FineEnabled(stream, f, a)
  {
    match a
    case Multicast => Some(NumberEvent)
    case Synthesize => Some(ApplyToSnapshot)
    case Begin => Some(PublishSnapshot)
    case Lose => Some(Fault)
    case Adopt => Some(Resync)
    case Take(snapshot, u) => Some(Receive(snapshot, u, |Seen(f).queue| >= ME_MAX_MARKET_UPDATES))
    case GoStale => Some(Receive(false, f.receiver.frame, true))
    case AdmitBatch => Some(Admit)
    case Apply => Some(ApplyEvent)
    case Reject => Some(RejectEvent)
    case Bump => Some(BumpGeneration)
    case Load => Some(LoadGeneration)
    case Store => Some(StoreApplied)
    case _ => None
  }

  /** Whether the queue is full matters only to the next frame in sequence. */
  lemma FullMatters(s: Sys, snapshot: bool, u: Update, limit: nat)
    requires KeysOk(s.consumer.rec) && (snapshot || !Next(s, u))
    ensures Process(s, snapshot, u, true, limit) == Process(s, snapshot, u, false, limit)
  {
    hide Ingest, Build, KeysOk;
  }

  /** Whatever a frame adds to the queue, it adds behind the front. */
  lemma ProcessBehind(s: Sys, snapshot: bool, u: Update, full: bool, limit: nat)
    requires KeysOk(s.consumer.rec) && s.queue != []
    ensures var t := s.(queue := s.queue[1..]); var s' := Process(s, snapshot, u, full, limit);
            s'.queue != [] && s'.pc == s.pc && Process(t, snapshot, u, full, limit) == s'.(queue := s'.queue[1..])
  {
    hide Ingest, Build, KeysOk;
    assert (s.queue + [u.event])[1..] == s.queue[1..] + [u.event];
  }

  lemma AdmitBehind(s: Sys)
    requires s.queue != [] && s.consumer.candidate.Some? && s.consumer.candidate.value != []
    ensures PublishRecovery(s.(queue := s.queue[1..])) == PublishRecovery(s).(queue := PublishRecovery(s).queue[1..])
  {
    var b := s.consumer.candidate.value;
    assert (s.queue + b)[1..] == s.queue[1..] + b;
  }

  /** One access is one step of the protocol, or none. */
  lemma AccessIsStep(stream: seq<Event>, limit: nat, f: Fine, a: FineStep)
    requires FineInv(stream, f) && FineEnabled(stream, f, a)
    ensures var f' := FineDo(stream, limit, f, a);
            match StepOf(stream, f, a)
            case None => Seen(f') == Seen(f)
            case Some(b) => Enabled(stream, Seen(f), b) && Seen(f') == Do(stream, limit, Seen(f), b)
  {
    hide PublisherInv, ConsumerInv, BooksInv, GenuineSnapshot, Process, KeysOk, CycleFrames, EffectOn, Accepts;
    match a
    case Take(snapshot, u) => TakeIsStep(stream, limit, f, snapshot, u);
    case GoStale => StaleIsStep(stream, limit, f);
    case AdmitBatch => if f.popping { AdmitBehind(f.sys); }
    case _ => RestIsStep(stream, limit, f, a);
  }

  lemma TakeIsStep(stream: seq<Event>, limit: nat, f: Fine, snapshot: bool, u: Update)
    requires FineInv(stream, f) && FineEnabled(stream, f, Take(snapshot, u))
    ensures var b := Receive(snapshot, u, |Seen(f).queue| >= ME_MAX_MARKET_UPDATES);
            && Enabled(stream, Seen(f), b)
            && Seen(FineDo(stream, limit, f, Take(snapshot, u))) == Do(stream, limit, Seen(f), b)
  {
    hide Inv, GenuineSnapshot, GenuineIncrement, Process, KeysOk;
    if f.popping { ProcessBehind(f.sys, snapshot, u, false, limit); }
    if snapshot || !Next(f.sys, u) { FullMatters(Seen(f), snapshot, u, limit); }
  }

  lemma StaleIsStep(stream: seq<Event>, limit: nat, f: Fine)
    requires FineInv(stream, f) && FineEnabled(stream, f, GoStale)
    ensures var b := Receive(false, f.receiver.frame, true);
            && Enabled(stream, Seen(f), b) && Seen(FineDo(stream, limit, f, GoStale)) == Do(stream, limit, Seen(f), b)
  {
    hide Inv, Process, KeysOk;
    if f.popping { ProcessBehind(f.sys, false, f.receiver.frame, true, limit); }
  }

  lemma RestIsStep(stream: seq<Event>, limit: nat, f: Fine, a: FineStep)
    requires FineInv(stream, f) && FineEnabled(stream, f, a) && !a.Take? && !a.GoStale? && !a.AdmitBatch?
    ensures var f' := FineDo(stream, limit, f, a);
            match StepOf(stream, f, a)
            case None => Seen(f') == Seen(f)
            case Some(b) => Enabled(stream, Seen(f), b) && Seen(f') == Do(stream, limit, Seen(f), b)
  {
    hide Inv, GenuineFrame, Process, KeysOk, CycleFrames, EffectOn, Restart;
  }

  /** Every access keeps the invariant, half-done things included. */
  lemma AccessKeeps(stream: seq<Event>, limit: nat, f: Fine, a: FineStep)
    requires FineInv(stream, f) && FineEnabled(stream, f, a)
    ensures FineInv(stream, FineDo(stream, limit, f, a))
  {
    AccessIsStep(stream, limit, f, a);
    var b := StepOf(stream, f, a);
    if b.Some? { StepKeeps(stream, limit, Seen(f), b.value); }
    HalfDone(stream, limit, f, a);
  }

  lemma HalfDone(stream: seq<Event>, limit: nat, f: Fine, a: FineStep)
    requires FineInv(stream, f) && FineEnabled(stream, f, a)
    ensures var f' := FineDo(stream, limit, f, a);
            && (f'.popping ==> f'.sys.queue != [] && f'.sys.pc.Polling?)
            && (f'.receiver.Failed? ==>
                  var u := f'.receiver.frame;
                  GenuineIncrement(World(stream, f'.sys.cycles), u) && u.seqNum <= f'.sys.numbered && Next(f'.sys, u))
            && (f'.receiver.Noticed? ==> f'.sys.consumer.observed < f'.sys.generation)
  {
    hide PublisherInv, ConsumerInv, BooksInv, CycleFrames, EffectOn, Process, GenuineSnapshot, KeysOk, Accepts;
    if f.popping {
      match a
      case Take(snapshot, u) => ProcessBehind(f.sys, snapshot, u, false, limit);
      case GoStale => ProcessBehind(f.sys, false, f.receiver.frame, true, limit);
      case _ =>
    }
  }

  /** A run of single accesses. */
  ghost predicate IsFineRun(stream: seq<Event>, limit: nat, run: seq<Fine>) {
    && run != []
    && (exists c: nat :: run[0] == FineInit(c))
    && forall i :: 0 <= i < |run| - 1 ==> FineFollows(stream, limit, run[i], run[i + 1])
  }

  ghost predicate FineFollows(stream: seq<Event>, limit: nat, f: Fine, f': Fine) {
    exists a :: FineEnabled(stream, f, a) && f' == FineDo(stream, limit, f, a)
  }

  lemma FineBegins(stream: seq<Event>, c: nat)
    requires GenuineStream(stream)
    ensures FineInv(stream, FineInit(c))
  {
    hide Inv;
    InitInv(stream, c);
  }

  lemma {:induction false} FineRunInv(stream: seq<Event>, limit: nat, run: seq<Fine>, i: nat)
    requires GenuineStream(stream) && IsFineRun(stream, limit, run) && i < |run|
    ensures FineInv(stream, run[i])
  {
    hide FineInv, FineEnabled, FineDo;
    if i == 0 {
      var c: nat :| run[0] == FineInit(c);
      FineBegins(stream, c);
    } else {
      FineRunInv(stream, limit, run, i - 1);
      assert FineFollows(stream, limit, run[i - 1], run[i]);
      var a :| FineEnabled(stream, run[i - 1], a) && run[i] == FineDo(stream, limit, run[i - 1], a);
      AccessKeeps(stream, limit, run[i - 1], a);
    }
  }

  /** Every run of single accesses is a run of the protocol, with some states standing still. */
  lemma {:induction false} RunIsRun(stream: seq<Event>, limit: nat, run: seq<Fine>, i: nat) returns (coarse: seq<Sys>)
    requires GenuineStream(stream) && IsFineRun(stream, limit, run) && i < |run|
    ensures IsRun(stream, limit, coarse) && coarse[|coarse| - 1] == Seen(run[i])
  {
    hide FineInv, FineEnabled, FineDo, Enabled, Do, StepOf;
    if i == 0 {
      var c: nat :| run[0] == FineInit(c);
      coarse := [Init(c)];
    } else {
      coarse := RunIsRun(stream, limit, run, i - 1);
      FineRunInv(stream, limit, run, i - 1);
      assert FineFollows(stream, limit, run[i - 1], run[i]);
      var a :| FineEnabled(stream, run[i - 1], a) && run[i] == FineDo(stream, limit, run[i - 1], a);
      AccessIsStep(stream, limit, run[i - 1], a);
      if StepOf(stream, run[i - 1], a).Some? {
        RunMore(stream, limit, coarse, StepOf(stream, run[i - 1], a).value);
        coarse := coarse + [Seen(run[i])];
      }
    }
  }

  lemma RunMore(stream: seq<Event>, limit: nat, run: seq<Sys>, b: Step)
    requires IsRun(stream, limit, run) && Enabled(stream, run[|run| - 1], b)
    ensures IsRun(stream, limit, run + [Do(stream, limit, run[|run| - 1], b)])
  {
    hide Enabled, Do;
    var more := run + [Do(stream, limit, run[|run| - 1], b)];
    assert Follows(stream, limit, run[|run| - 1], more[|run|]);
    forall i | 0 <= i < |more| - 1 ensures Follows(stream, limit, more[i], more[i + 1]) {
      if i < |run| - 1 { assert Follows(stream, limit, run[i], run[i + 1]); }
    }
  }

  lemma AccessGrows(stream: seq<Event>, limit: nat, f: Fine, a: FineStep)
    requires FineInv(stream, f) && FineEnabled(stream, f, a)
    ensures Seen(f).applied <= Seen(FineDo(stream, limit, f, a)).applied
  {
    hide Inv, FineEnabled, FineDo, Enabled, Do, StepOf, Seen;
    AccessIsStep(stream, limit, f, a);
    if StepOf(stream, f, a).Some? { CountersGrow(stream, limit, Seen(f), StepOf(stream, f, a).value); }
  }

  lemma {:induction false} AppliedGrows(stream: seq<Event>, limit: nat, run: seq<Fine>, i: nat, j: nat)
    requires GenuineStream(stream) && IsFineRun(stream, limit, run) && i <= j < |run|
    ensures run[i].sys.applied <= run[j].sys.applied
    decreases j - i
  {
    hide FineInv, FineEnabled, FineDo;
    if i < j {
      AppliedGrows(stream, limit, run, i, j - 1);
      FineRunInv(stream, limit, run, j - 1);
      assert FineFollows(stream, limit, run[j - 1], run[j - 1 + 1]);
      var a :| FineEnabled(stream, run[j - 1], a) && run[j] == FineDo(stream, limit, run[j - 1], a);
      AccessGrows(stream, limit, run[j - 1], a);
    }
  }

  /** The main result at this grain: `marketReady` reads one counter and later the other, any accesses of any thread
      between; if they are equal, the books are an exact exchange state at the second read. */
  lemma ReadyMeansExactFinely(stream: seq<Event>, limit: nat, run: seq<Fine>, i: nat, j: nat)
    requires GenuineStream(stream) && IsFineRun(stream, limit, run) && i <= j < |run|
    requires run[i].sys.applied == run[j].sys.generation
    ensures Exact(stream, run[j].sys)
  {
    hide IsFineRun, PublisherInv, ConsumerInv, BooksInv, BooksAt;
    AppliedGrows(stream, limit, run, i, j);
    FineRunInv(stream, limit, run, j);
    ReadyMeansExact(stream, Seen(run[j]));
  }
}
