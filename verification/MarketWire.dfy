/** Market data on the wire: a frame as the publisher encodes it and the consumer reads it, and a datagram of them. */
module MarketWire {
  import opened Types
  import opened RecoverySpec
  import opened Protocol
  import OrderServers
  import RequestWire
  import Wire

  function CodeOfEvent(k: EventType): int {
    match k
    case NoEvent => 0
    case Clear => 1
    case Add => 2
    case Modify => 3
    case Cancel => 4
    case Trade => 5
    case SnapshotStart => 6
    case SnapshotEnd => 7
    case RecoveryCommit => 8
  }

  function EventOfCode(x: int): EventType {
    if x == 1 then Clear else if x == 2 then EventType.Add else if x == 3 then Modify else if x == 4 then Cancel
    else if x == 5 then Trade else if x == 6 then SnapshotStart else if x == 7 then SnapshotEnd
    else if x == 8 then RecoveryCommit else NoEvent
  }

  /** The fields of a market frame behind its header. */
  function MarketFields(u: Update): seq<int> {
    var e := u.event;
    [u.seqNum, u.cycle, u.watermark, u.hash, CodeOfEvent(e.kind), e.orderId, e.ticker, e.side.Value(), e.price, e.qty, e.priority]
  }

  function EncodedUpdate(u: Update): (r: seq<Wire.byte>) { Wire.Frame(Wire.MARKET, 3, MarketFields(u)) }

  /** A frame from the network: nothing if its header or kind is wrong; a commit marker is for the queue only. */
  function ToUpdate(b: seq<Wire.byte>): Option<Update>
    requires |b| == Wire.SizeOf(Wire.MARKET)
  {
    match Wire.Parse(Wire.MARKET, 3, b)
    case None => None
    case Some(vs) =>
      var n := (i: int) requires 0 <= i < |vs| => if vs[i] < 0 then 0 else vs[i];
      if vs[4] < 1 || vs[4] > 7 then None
      else Some(Update(n(0), Event(EventOfCode(vs[4]), n(5), n(6), OrderServers.SideOfCode(vs[7]), vs[8], n(9), n(10)),
                       n(1), n(2), n(3)))
  }

  /** Every field is within its width. */
  predicate UpdateFits(u: Update) {
    var e := u.event;
    && u.seqNum < TWO_64 && u.cycle < TWO_64 && u.watermark < TWO_64 && u.hash < TWO_64
    && e.orderId < TWO_64 && e.ticker < 0x1_0000_0000 && e.qty < 0x1_0000_0000 && e.priority < TWO_64
    && -0x8000_0000_0000_0000 <= e.price < 0x8000_0000_0000_0000
  }

  lemma MarketFieldsFit(u: Update)
    requires UpdateFits(u)
    ensures Wire.AllFit(Wire.MARKET[4..], MarketFields(u))
  {
    hide Wire.Span;
    RequestWire.Spans();
    var fs, vs := Wire.MARKET[4..], MarketFields(u);
    assert fs == [Wire.U64, Wire.U64, Wire.U64, Wire.U64, Wire.U8, Wire.U64, Wire.U32, Wire.I8, Wire.I64, Wire.U32, Wire.U64];
    forall i | 0 <= i < |fs| ensures fs[i].width > 0 && Wire.Fits(fs[i], vs[i]) {}
  }

  predicate OnTheWire(k: EventType) { !k.NoEvent? && !k.RecoveryCommit? }

  /** The consumer reads exactly the frame that was encoded, unless its kind is not one for the network. */
  lemma UpdateSurvives(u: Update)
    requires UpdateFits(u)
    ensures |EncodedUpdate(u)| == Wire.SizeOf(Wire.MARKET)
    ensures ToUpdate(EncodedUpdate(u)) == if OnTheWire(u.event.kind) then Some(u) else None
  {
    hide Wire.Span, Wire.SizeOf, Wire.Encode, Wire.Parse, Wire.Frame, Wire.AllFit;
    MarketFieldsFit(u);
    EncodedSize(u);
    Wire.ParseExactly(Wire.MARKET, 3, EncodedUpdate(u), MarketFields(u));
  }

  lemma EncodedSize(u: Update)
    ensures |EncodedUpdate(u)| == Wire.SizeOf(Wire.MARKET)
  {
    hide Wire.SizeOf, Wire.Encode;
  }

  // ------------------------------------------------------------------ one datagram

  const MARKET_SIZE: nat := 70

  /** What the incremental channel may carry: public events of a known ticker, nothing of a snapshot. */
  predicate PassesChannel(snapshot: bool, u: Update) {
    snapshot || (!u.event.kind.SnapshotStart? && !u.event.kind.SnapshotEnd? && u.event.ticker < ME_MAX_TICKERS
                 && u.cycle == 0 && u.watermark == 0 && u.hash == 0)
  }

  /** `process` as a whole: a batch that is complete goes to the queue at once if it fits. */
  ghost function ProcessWhole(s: Sys, snapshot: bool, u: Update, capacity: nat, limit: nat): Sys
    requires KeysOk(s.consumer.rec)
  {
    var s' := Process(s, snapshot, u, |s.queue| >= capacity, limit);
    if s'.consumer.rec.recovering then Offered(s', capacity) else s'
  }

  /** A waiting batch enters the queue if it fits whole. */
  ghost function Offered(s: Sys, capacity: nat): Sys {
    var c := s.consumer.candidate;
    if c.Some? && c.value != [] && |s.queue| + |c.value| <= capacity then PublishRecovery(s) else s
  }

  /** The frame loop of `receive`; the first unusable frame ends it. */
  ghost function Frames(s: Sys, snapshot: bool, b: seq<Wire.byte>, capacity: nat, limit: nat): Sys
    requires KeysOk(s.consumer.rec) && MARKET_SIZE == Wire.SizeOf(Wire.MARKET)
    decreases |b|
  {
    if |b| < MARKET_SIZE then s
    else
      var d := ToUpdate(b[..MARKET_SIZE]);
      if d.None? || !PassesChannel(snapshot, d.value) then Stale(s)
      else
        ProcessKeysOk(s, snapshot, d.value, capacity, limit);
        Frames(ProcessWhole(s, snapshot, d.value, capacity, limit), snapshot, b[MARKET_SIZE..], capacity, limit)
  }

  /** `receive`: a datagram of whole frames, or a fault. */
  ghost function Datagram(s: Sys, snapshot: bool, fault: bool, b: seq<Wire.byte>, capacity: nat, limit: nat): Sys
    requires KeysOk(s.consumer.rec) && MARKET_SIZE == Wire.SizeOf(Wire.MARKET)
  {
    if snapshot && !s.consumer.rec.recovering then s
    else if fault || |b| % MARKET_SIZE != 0 then Stale(s)
    else Frames(s, snapshot, b, capacity, limit)
  }

  lemma IngestKeysOk(r: Rec, snapshot: bool, u: Update, limit: nat)
    requires KeysOk(r)
    ensures KeysOk(Ingest(r, snapshot, u, limit).0)
  {
  }

  lemma IngestAndBuildKeysOk(s: Sys, snapshot: bool, u: Update, limit: nat)
    requires KeysOk(s.consumer.rec)
    ensures KeysOk(IngestAndBuild(s, snapshot, u, limit).consumer.rec)
  {
    hide Ingest, Build;
    IngestKeysOk(s.consumer.rec, snapshot, u, limit);
    BuildLeaves(Ingest(s.consumer.rec, snapshot, u, limit).0);
  }

  lemma ProcessKeysOk(s: Sys, snapshot: bool, u: Update, capacity: nat, limit: nat)
    requires KeysOk(s.consumer.rec)
    ensures KeysOk(ProcessWhole(s, snapshot, u, capacity, limit).consumer.rec)
  {
    hide IngestAndBuild;
    IngestAndBuildKeysOk(s, snapshot, u, limit);
    IngestAndBuildKeysOk(Stale(s), snapshot, u, limit);
  }
}
