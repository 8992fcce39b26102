/**
 Datagrams: what one of them does to the consumer, good or bad, is a path of the protocol's steps, and what the
 exchange sends is received as it was sent.
*/
module Datagrams {
  import opened Types
  import opened PriceBooks
  import opened Replay
  import opened RecoverySpec
  import opened RecoveryProps
  import opened MarketStream
  import opened Protocol
  import opened ProtocolProgress
  import opened MarketWire
  import Wire

  /** What the network may do: repeat, lose, cut and garble, as long as no garbled frame passes for another. */
  ghost predicate NoForgery(v: World, numbered: nat, snapshot: bool, b: seq<Wire.byte>)
    requires MARKET_SIZE == Wire.SizeOf(Wire.MARKET)
    decreases |b|
  {
    |b| >= MARKET_SIZE ==>
      FrameHonest(v, numbered, snapshot, b[..MARKET_SIZE]) && NoForgery(v, numbered, snapshot, b[MARKET_SIZE..])
  }

  ghost predicate FrameHonest(v: World, numbered: nat, snapshot: bool, b: seq<Wire.byte>)
    requires |b| == MARKET_SIZE == Wire.SizeOf(Wire.MARKET)
  {
    var d := ToUpdate(b);
    d.Some? && PassesChannel(snapshot, d.value) ==>
      GenuineFrame(v, snapshot, d.value) && (!snapshot ==> d.value.seqNum <= numbered)
  }

  /** The consumer's steps leave the exchange alone. */
  predicate SameExchange(s: Sys, s': Sys) {
    s'.cycles == s.cycles && s'.numbered == s.numbered
  }

  lemma ProcessIsSteps(stream: seq<Event>, s: Sys, snapshot: bool, u: Update, limit: nat)
    requires Inv(stream, s)
    requires GenuineFrame(World(stream, s.cycles), snapshot, u) && (!snapshot ==> u.seqNum <= s.numbered)
    ensures KeysOk(s.consumer.rec)
    ensures var s' := ProcessWhole(s, snapshot, u, ME_MAX_MARKET_UPDATES, limit);
            Reaches(stream, limit, s, s') && Inv(stream, s') && SameExchange(s, s')
  {
    hide Inv, KeysOk, GenuineFrame, IngestAndBuild, LiveCandidate, Reaches;
    InvKeysOk(stream, s);
    var full := |s.queue| >= ME_MAX_MARKET_UPDATES;
    var t := Process(s, snapshot, u, full, limit);
    var a := Receive(snapshot, u, full);
    ProcessExchange(s, snapshot, u, full, limit);
    ReachesBy(stream, limit, s, a);
    ReceiveKeeps(stream, limit, s, snapshot, u, full);
    if t.consumer.rec.recovering && Offered(t, ME_MAX_MARKET_UPDATES) != t {
      AdmitKeeps(stream, t);
      ReachesBy(stream, limit, t, Admit);
      ReachesOn(stream, limit, s, t, PublishRecovery(t));
    }
  }

  lemma InvKeysOk(stream: seq<Event>, s: Sys)
    requires Inv(stream, s)
    ensures KeysOk(s.consumer.rec)
  {
    hide KeysOk, GenuineSnapshot, GenuineIncrement, Build;
  }

  lemma ProcessExchange(s: Sys, snapshot: bool, u: Update, full: bool, limit: nat)
    requires KeysOk(s.consumer.rec)
    ensures SameExchange(s, Process(s, snapshot, u, full, limit))
  {
    hide Ingest, Build;
  }

  lemma StaleStep(stream: seq<Event>, limit: nat, s: Sys)
    requires Inv(stream, s)
    ensures Reaches(stream, limit, s, Stale(s)) && Inv(stream, Stale(s)) && SameExchange(s, Stale(s))
  {
    hide Inv, Reaches;
    FreshOk(stream, s);
    ReachesBy(stream, limit, s, Fault);
  }

  lemma {:induction false} FramesAreSteps(stream: seq<Event>, limit: nat, s: Sys, snapshot: bool, b: seq<Wire.byte>)
    requires MARKET_SIZE == Wire.SizeOf(Wire.MARKET)
    requires Inv(stream, s) && NoForgery(World(stream, s.cycles), s.numbered, snapshot, b)
    ensures KeysOk(s.consumer.rec)
    ensures var s' := Frames(s, snapshot, b, ME_MAX_MARKET_UPDATES, limit);
            Reaches(stream, limit, s, s') && Inv(stream, s') && SameExchange(s, s')
    decreases |b|
  {
    hide Inv, KeysOk, Reaches, GenuineFrame, ProcessWhole, ToUpdate, PassesChannel, Stale, Wire.SizeOf;
    InvKeysOk(stream, s);
    if |b| < MARKET_SIZE {
      ReachesSelf(stream, limit, s);
    } else {
      var d := ToUpdate(b[..MARKET_SIZE]);
      if d.None? || !PassesChannel(snapshot, d.value) {
        StaleStep(stream, limit, s);
      } else {
        var t := ProcessWhole(s, snapshot, d.value, ME_MAX_MARKET_UPDATES, limit);
        ProcessIsSteps(stream, s, snapshot, d.value, limit);
        FramesAreSteps(stream, limit, t, snapshot, b[MARKET_SIZE..]);
        ReachesOn(stream, limit, s, t, Frames(t, snapshot, b[MARKET_SIZE..], ME_MAX_MARKET_UPDATES, limit));
      }
    }
  }

  /** Whatever a datagram holds, cut short, garbled or mixed, its effect is a path of the protocol's steps, unless a
      garbled frame passes for a genuine one: so all that holds in every run holds of datagrams. */
  lemma DatagramIsSteps(stream: seq<Event>, limit: nat, s: Sys, snapshot: bool, fault: bool, b: seq<Wire.byte>)
    requires MARKET_SIZE == Wire.SizeOf(Wire.MARKET)
    requires Inv(stream, s) && NoForgery(World(stream, s.cycles), s.numbered, snapshot, b)
    ensures KeysOk(s.consumer.rec)
    ensures var s' := Datagram(s, snapshot, fault, b, ME_MAX_MARKET_UPDATES, limit);
            Reaches(stream, limit, s, s') && Inv(stream, s') && SameExchange(s, s')
  {
    hide Inv, KeysOk, Reaches, Frames, Stale, Wire.SizeOf, NoForgery;
    InvKeysOk(stream, s);
    ReachesSelf(stream, limit, s);
    StaleStep(stream, limit, s);
    FramesAreSteps(stream, limit, s, snapshot, b);
  }

  // ------------------------------------------------------------------ what is sent is received

  function AllEncodedUpdates(us: seq<Update>): seq<Wire.byte> {
    if us == [] then [] else EncodedUpdate(us[0]) + AllEncodedUpdates(us[1..])
  }

  /** Every frame fits its fields and its channel, and is of a kind for the network. */
  predicate Sendable(snapshot: bool, us: seq<Update>) {
    forall i :: 0 <= i < |us| ==> UpdateFits(us[i]) && OnTheWire(us[i].event.kind) && PassesChannel(snapshot, us[i])
  }

  /** One after the other, as `process` takes them. */
  ghost function ProcessAll(s: Sys, snapshot: bool, us: seq<Update>, capacity: nat, limit: nat): Sys
    requires KeysOk(s.consumer.rec)
    decreases |us|
  {
    if us == [] then s
    else
      ProcessKeysOk(s, snapshot, us[0], capacity, limit);
      ProcessAll(ProcessWhole(s, snapshot, us[0], capacity, limit), snapshot, us[1..], capacity, limit)
  }

  lemma {:induction false} FramesOfEncoded(s: Sys, snapshot: bool, us: seq<Update>, capacity: nat, limit: nat)
    requires KeysOk(s.consumer.rec) && MARKET_SIZE == Wire.SizeOf(Wire.MARKET) && Sendable(snapshot, us)
    ensures Frames(s, snapshot, AllEncodedUpdates(us), capacity, limit) == ProcessAll(s, snapshot, us, capacity, limit)
    ensures |AllEncodedUpdates(us)| == MARKET_SIZE * |us|
    decreases |us|
  {
    hide KeysOk, ProcessWhole, ToUpdate, UpdateFits, OnTheWire, PassesChannel, EncodedUpdate, Wire.SizeOf, Stale;
    if us != [] {
      UpdateSurvives(us[0]);
      ProcessKeysOk(s, snapshot, us[0], capacity, limit);
      var b := AllEncodedUpdates(us);
      assert b[..MARKET_SIZE] == EncodedUpdate(us[0]) && b[MARKET_SIZE..] == AllEncodedUpdates(us[1..]);
      FramesOfEncoded(ProcessWhole(s, snapshot, us[0], capacity, limit), snapshot, us[1..], capacity, limit);
    }
  }

  /** A datagram of any frames the exchange may send is taken frame by frame as it was sent, none refused; only a
      live consumer pays no attention to snapshots. */
  lemma SentIsReceived(s: Sys, snapshot: bool, us: seq<Update>, capacity: nat, limit: nat)
    requires KeysOk(s.consumer.rec) && MARKET_SIZE == Wire.SizeOf(Wire.MARKET) && Sendable(snapshot, us)
    ensures Datagram(s, snapshot, false, AllEncodedUpdates(us), capacity, limit)
         == if snapshot && !s.consumer.rec.recovering then s else ProcessAll(s, snapshot, us, capacity, limit)
  {
    hide KeysOk, ProcessAll, Frames, Sendable, Wire.SizeOf, Stale;
    FramesOfEncoded(s, snapshot, us, capacity, limit);
  }

  /** Whatever one frame a live consumer is sent on the incremental channel, however it came about: the market's
      generation survives exactly a public event of a known ticker that carries nothing of a snapshot and is either
      old or the next one, with room for it. Anything else reopens recovery under a new generation. */
  lemma OneFrameExactlyWhen(s: Sys, u: Update, capacity: nat, limit: nat)
    requires KeysOk(s.consumer.rec) && !s.consumer.rec.recovering && MARKET_SIZE == Wire.SizeOf(Wire.MARKET) && UpdateFits(u)
    ensures var s' := Datagram(s, false, false, EncodedUpdate(u), capacity, limit);
            var kept := && (u.event.kind.Clear? || u.event.kind.Add? || u.event.kind.Modify? || u.event.kind.Cancel? || u.event.kind.Trade?)
                        && u.event.ticker < ME_MAX_TICKERS && u.cycle == u.watermark == u.hash == 0
                        && (u.seqNum < s.consumer.rec.expected || (u.seqNum == s.consumer.rec.expected && |s.queue| < capacity));
            && (s'.generation == s.generation <==> kept)
            && (!kept ==> s'.generation == s'.consumer.observed == s.generation + 1 && s'.consumer.rec.recovering)
  {
    hide Wire.SizeOf, ToUpdate, EncodedUpdate, UpdateFits, KeysOk, Ingest, Build, OnTheWire, PassesChannel;
    UpdateSurvives(u);
    assert EncodedUpdate(u)[..MARKET_SIZE] == EncodedUpdate(u) && EncodedUpdate(u)[MARKET_SIZE..] == [];
    KindOnChannel(u);
    OneFrame(s, false, EncodedUpdate(u), capacity, limit);
    if OnTheWire(u.event.kind) && PassesChannel(false, u) {
      IngestRecovers(Restart(s.consumer.rec), u, limit);
      IngestKeysOk(Restart(s.consumer.rec), false, u, limit);
      BuildLeaves(Ingest(Restart(s.consumer.rec), false, u, limit).0);
    }
  }

  lemma KindOnChannel(u: Update)
    ensures OnTheWire(u.event.kind) && PassesChannel(false, u) <==>
      && (u.event.kind.Clear? || u.event.kind.Add? || u.event.kind.Modify? || u.event.kind.Cancel? || u.event.kind.Trade?)
      && u.event.ticker < ME_MAX_TICKERS && u.cycle == u.watermark == u.hash == 0
  {
  }

  lemma IngestRecovers(r: Rec, u: Update, limit: nat)
    requires r.recovering && r.snapshot == map[]
    ensures Ingest(r, false, u, limit).0.recovering && Ingest(r, false, u, limit).0.snapshot == map[]
  {
  }

  lemma OneFrame(s: Sys, snapshot: bool, b: seq<Wire.byte>, capacity: nat, limit: nat)
    requires KeysOk(s.consumer.rec) && |b| == MARKET_SIZE == Wire.SizeOf(Wire.MARKET) && (snapshot ==> s.consumer.rec.recovering)
    requires b[..MARKET_SIZE] == b && b[MARKET_SIZE..] == []
    ensures Datagram(s, snapshot, false, b, capacity, limit)
         == if ToUpdate(b).None? || !PassesChannel(snapshot, ToUpdate(b).value) then Stale(s)
            else ProcessWhole(s, snapshot, ToUpdate(b).value, capacity, limit)
  {
    hide Wire.SizeOf, ToUpdate, KeysOk, ProcessWhole, PassesChannel, Stale;
    if ToUpdate(b).Some? {
      ProcessKeysOk(s, snapshot, ToUpdate(b).value, capacity, limit);
      NoFrames(ProcessWhole(s, snapshot, ToUpdate(b).value, capacity, limit), snapshot, capacity, limit);
    }
  }

  lemma NoFrames(s: Sys, snapshot: bool, capacity: nat, limit: nat)
    requires KeysOk(s.consumer.rec) && MARKET_SIZE == Wire.SizeOf(Wire.MARKET)
    ensures Frames(s, snapshot, [], capacity, limit) == s
  {
    hide Wire.SizeOf;
  }

  /** The increments of the stream can be sent. */
  lemma IncrementsSendable(stream: seq<Event>, n: nat)
    requires GenuineStream(stream) && 0 < n <= |stream| && UpdateFits(Update(n, stream[n - 1], 0, 0, 0))
    ensures Sendable(false, [Update(n, stream[n - 1], 0, 0, 0)])
  {
    hide Genuine, UpdateFits;
    assert GenuineAt(stream, n - 1);
    GenuineKind(BooksAt(stream, n - 1)[stream[n - 1].ticker], stream[n - 1].ticker, stream[n - 1]);
  }

  lemma GenuineKind(b: PriceBook, t: TickerId, e: Event)
    requires Genuine(b, t, e)
    ensures e.kind.Add? || e.kind.Modify? || e.kind.Cancel? || e.kind.Trade?
  {
  }
}
