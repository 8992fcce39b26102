/**
 Requests on the wire: what a client encodes is what the order server reads, and a whole encoded session, cut into
 any chunks, is forwarded request by request.
*/
module RequestWire {
  import opened Types
  import opened EngineSpec
  import opened SessionSpec
  import opened SessionLive
  import opened OrderServers
  import Wire

  function CodeOfKind(k: RequestType): int {
    match k
    case NoRequest => 0
    case New => 1
    case CancelOrder => 2
    case Query => 3
  }

  /** The fields of a request frame behind its header. */
  function FieldsOf(f: Frame): seq<int> {
    var q := f.request;
    [f.seqNum, f.epoch, CodeOfKind(q.kind), q.client, q.ticker, q.orderId, q.side.Value(), q.price, q.qty]
  }

  /** Every field is within its width. */
  predicate InRange(f: Frame) {
    var q := f.request;
    && f.seqNum < TWO_64 && f.epoch < TWO_64 && q.client < 0x1_0000_0000 && q.ticker < 0x1_0000_0000
    && q.orderId < TWO_64 && q.qty < 0x1_0000_0000 && -0x8000_0000_0000_0000 <= q.price < 0x8000_0000_0000_0000
  }

  function Encoded(f: Frame): seq<Wire.byte> { Wire.Frame(Wire.REQUEST, 1, FieldsOf(f)) }

  lemma Spans()
    ensures Wire.Span(1) == 256 && Wire.Span(4) == 0x1_0000_0000 && Wire.Span(8) == TWO_64
  {
    assert Wire.Span(2) == 0x1_0000 && Wire.Span(3) == 0x100_0000;
    assert Wire.Span(5) == 0x100_0000_0000 && Wire.Span(6) == 0x1_0000_0000_0000 && Wire.Span(7) == 0x100_0000_0000_0000;
  }

  lemma FieldsFit(f: Frame)
    requires InRange(f)
    ensures Wire.AllFit(Wire.REQUEST[4..], FieldsOf(f))
  {
    hide Wire.Span;
    Spans();
    var fs, vs := Wire.REQUEST[4..], FieldsOf(f);
    assert fs == [Wire.U64, Wire.U64, Wire.U8, Wire.U32, Wire.U32, Wire.U64, Wire.I8, Wire.I64, Wire.U32];
    forall i | 0 <= i < |fs| ensures fs[i].width > 0 && Wire.Fits(fs[i], vs[i]) {}
  }

  /** The order server reads exactly the frame that was encoded; no two frames are encoded alike. */
  lemma RequestSurvives(f: Frame)
    requires InRange(f)
    ensures |Encoded(f)| == Wire.SizeOf(Wire.REQUEST) && ToFrame(Encoded(f)) == Some(f)
  {
    hide Wire.Span, Wire.SizeOf, Wire.Encode, Wire.Parse, Wire.Frame, Wire.AllFit;
    FieldsFit(f);
    FrameSize(f);
    Wire.ParseExactly(Wire.REQUEST, 1, Encoded(f), FieldsOf(f));
  }

  lemma FrameSize(f: Frame)
    ensures |Encoded(f)| == Wire.SizeOf(Wire.REQUEST)
  {
    hide Wire.SizeOf, Wire.Encode;
  }

  // ------------------------------------------------------------------ a session of bytes

  function AllEncoded(fs: seq<Frame>): seq<Wire.byte> {
    if fs == [] then [] else Encoded(fs[0]) + AllEncoded(fs[1..])
  }

  function Requests(fs: seq<Frame>): seq<Request> {
    if fs == [] then [] else [fs[0].request] + Requests(fs[1..])
  }

  predicate AllInRange(fs: seq<Frame>) { forall i :: 0 <= i < |fs| ==> InRange(fs[i]) }

  /** The log shows what became of a frame. */
  lemma FateShown(v: Server, x: Input)
    requires x.frame.Some? && Take(v, x).log == v.log + [Entry(x.frame.value, true, false)]
    ensures FateOf(v, x).Forwarded?
  {
    hide HandleFrame, Judge;
    var e := Take(v, x).log[|v.log|];
    assert e.forwarded;
  }

  /** The first of some encoded frames, as the server finds it in its buffer. */
  lemma FirstInput(sock: Socket, fs: seq<Frame>, healthy: set<Socket>, space: nat, room: nat)
    requires fs != [] && InRange(fs[0]) && Wire.SizeOf(Wire.REQUEST) == REQUEST_SIZE
    ensures var b := AllEncoded(fs);
            && |b| >= REQUEST_SIZE && InputOf(sock, b, healthy, space, room) == Input(sock, Some(fs[0]), healthy, space > 0, room > 0)
            && b[REQUEST_SIZE..] == AllEncoded(fs[1..])
  {
    hide ToFrame, Encoded, Wire.SizeOf;
    RequestSurvives(fs[0]);
    assert (Encoded(fs[0]) + AllEncoded(fs[1..]))[..REQUEST_SIZE] == Encoded(fs[0]);
  }

  lemma SessionRest(fs: seq<Frame>, c: ClientId, epoch: nat, n: nat)
    requires InSession(fs, c, epoch, n) && fs != []
    ensures InSession(fs[1..], c, epoch, n + 1) && WellFormed(fs[0].request) && fs[0].request.client == c
    ensures fs[0].epoch == epoch && fs[0].seqNum == n
  {
    hide WellFormed;
  }

  lemma {:induction false} BytesServed(v: Server, sock: Socket, fs: seq<Frame>, healthy: set<Socket>, c: ClientId, epoch: nat,
                                       n: nat, space: nat, room: nat)
    requires REQUEST_SIZE == Wire.SizeOf(Wire.REQUEST) && Paired(v.sessions) && InSession(fs, c, epoch, n) && AllInRange(fs)
    requires AtWork(v.sessions, sock, c, epoch, n) || Starting(v.sessions, sock, c, epoch, n)
    requires |fs| <= space
    ensures var r := RecvAll(v, sock, AllEncoded(fs), healthy, space, room);
            r.forwarded == Requests(fs) && r.rest == [] && r.server.log == v.log + Forwards(fs)
    decreases |fs|
  {
    hide Take, RecvAll, AtWork, Starting, Paired, InSession, InRange, InputOf, FateOf, Encoded, Wire.SizeOf;
    if fs == [] {
      RecvShort(v, sock, [], healthy, space, room);
      assert v.log + [] == v.log;
    } else {
      var f, b := fs[0], AllEncoded(fs);
      SessionRest(fs, c, epoch, n);
      FirstInput(sock, fs, healthy, space, room);
      var x := Input(sock, Some(f), healthy, space > 0, room > 0);
      OneForwarded(v, sock, f, healthy, n, room > 0);
      FateShown(v, x);
      RecvStep(v, sock, b, healthy, space, room);
      BytesServed(Take(v, x), sock, fs[1..], healthy, c, epoch, n + 1, space - 1, room);
      assert v.log + [Entry(f, true, false)] + Forwards(fs[1..]) == v.log + Forwards(fs);
    }
  }

  /** A client that encodes well-formed requests, numbered from one in a new epoch, on a fresh connection: however its
      bytes are cut on the way, and whatever others did before, the order server forwards exactly its requests, in
      order, while the sequencer has room, and keeps no byte back. */
  lemma StreamIsServed(xs: seq<Input>, sock: Socket, fs: seq<Frame>, healthy: set<Socket>, c: ClientId, epoch: nat,
                       chunks: seq<seq<Wire.byte>>, space: nat, room: nat)
    requires REQUEST_SIZE == Wire.SizeOf(Wire.REQUEST) && InSession(fs, c, epoch, 1) && epoch != 0 && AllInRange(fs)
    requires c !in TakeAll(xs).sessions.socketOf && sock !in TakeAll(xs).sessions.clientOf
    requires Joined(chunks) == AllEncoded(fs) && |fs| <= space
    ensures var r := RecvChunks(TakeAll(xs), sock, [], chunks, healthy, space, room);
            r.forwarded == Requests(fs) && r.rest == [] && r.server.log == TakeAll(xs).log + Forwards(fs)
  {
    hide TakeAll, RecvAll, RecvChunks, Joined, AllEncoded, Paired, InSession, InRange, Wire.SizeOf;
    HistoryPaired(xs);
    AnyChunks(TakeAll(xs), sock, [], chunks, healthy, space, room);
    assert [] + Joined(chunks) == AllEncoded(fs);
    BytesServed(TakeAll(xs), sock, fs, healthy, c, epoch, 1, space, room);
  }
}
