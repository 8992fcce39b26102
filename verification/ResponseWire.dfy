/**
 Responses on the wire: what the order server encodes is what the client's gateway reads, however the bytes are cut,
 and a fresh session's responses all reach the trade engine, in order.
*/
module ResponseWire {
  import opened Types
  import opened OrderGateways
  import OrderServers
  import RequestWire
  import Wire

  function CodeOfResponse(k: ResponseType): int {
    match k
    case NoResponse => 0
    case Accepted => 1
    case Canceled => 2
    case Filled => 3
    case CancelRejected => 4
    case Rejected => 5
    case State => 6
  }

  function CodeOfReason(r: RejectReason): int {
    match r
    case NoReason => 0
    case InvalidId => 1
    case InvalidType => 2
    case InvalidSide => 3
    case InvalidPrice => 4
    case InvalidQty => 5
    case DuplicateId => 6
    case Capacity => 7
    case Identity => 8
    case Sequence => 9
    case Session => 10
    case Version => 11
  }

  /** The fields of a response frame behind its header. */
  function FieldsOf(f: Frame): seq<int> {
    var r := f.response;
    [f.seqNum, f.epoch, CodeOfResponse(r.kind), r.client, r.ticker, r.clientOrderId, r.marketOrderId, r.side.Value(), r.price,
     r.execQty, r.leavesQty, CodeOfReason(r.reason), r.responseId, r.position]
  }

  predicate Signed64(x: int) { -0x8000_0000_0000_0000 <= x < 0x8000_0000_0000_0000 }

  /** Every field is within its width. */
  predicate InRange(f: Frame) {
    var r := f.response;
    && f.seqNum < TWO_64 && f.epoch < TWO_64 && r.client < 0x1_0000_0000 && r.ticker < 0x1_0000_0000
    && r.clientOrderId < TWO_64 && r.marketOrderId < TWO_64 && r.execQty < 0x1_0000_0000 && r.leavesQty < 0x1_0000_0000
    && r.responseId < TWO_64 && Signed64(r.price) && Signed64(r.position)
  }

  function Encoded(f: Frame): seq<Wire.byte> { Wire.Frame(Wire.RESPONSE, 2, FieldsOf(f)) }

  lemma FieldsFit(f: Frame)
    requires InRange(f)
    ensures Wire.AllFit(Wire.RESPONSE[4..], FieldsOf(f))
  {
    hide Wire.Span;
    RequestWire.Spans();
    var fs, vs := Wire.RESPONSE[4..], FieldsOf(f);
    assert fs == [Wire.U64, Wire.U64, Wire.U8, Wire.U32, Wire.U32, Wire.U64, Wire.U64, Wire.I8, Wire.I64, Wire.U32, Wire.U32,
                  Wire.U8, Wire.U64, Wire.I64];
    forall i | 0 <= i < |fs| ensures fs[i].width > 0 && Wire.Fits(fs[i], vs[i]) {}
  }

  lemma EncodedSize(f: Frame)
    ensures |Encoded(f)| == Wire.SizeOf(Wire.RESPONSE)
  {
    hide Wire.SizeOf, Wire.Encode;
  }

  lemma CodesSurvive(f: Frame)
    ensures ResponseOfCode(CodeOfResponse(f.response.kind)) == f.response.kind
    ensures ReasonOfCode(CodeOfReason(f.response.reason)) == f.response.reason
    ensures OrderServers.SideOfCode(f.response.side.Value()) == f.response.side
  {
  }

  /** The gateway reads exactly the frame that was encoded. */
  lemma ResponseSurvives(f: Frame)
    requires InRange(f)
    ensures |Encoded(f)| == Wire.SizeOf(Wire.RESPONSE) && ToResponse(Encoded(f)) == Some(f)
  {
    hide Wire.Span, Wire.SizeOf, Wire.Encode, Wire.Parse, Wire.Frame, Wire.AllFit, ResponseOfCode, ReasonOfCode, OrderServers.SideOfCode,
         CodeOfResponse, CodeOfReason;
    FieldsFit(f);
    EncodedSize(f);
    CodesSurvive(f);
    Wire.ParseExactly(Wire.RESPONSE, 2, Encoded(f), FieldsOf(f));
  }

  // ------------------------------------------------------------------ chunks

  /** A frame kept, or one that broke the session, has the same fate again and changes nothing more. */
  lemma StillThere(t: Trace, e: OrderGateways.Event)
    requires e.Incoming? && (FateOf(t, e).Kept? || FateOf(t, e).Broken?)
    ensures FateOf(Step(t, e), e) == FateOf(t, e) && Step(Step(t, e), e) == Step(t, e)
  {
    hide Sensible, SessionReason;
  }

  /** How the bytes are cut does not matter. */
  lemma {:induction false} ChunksDoNotMatter(t: Trace, a: seq<Wire.byte>, b: seq<Wire.byte>, room: nat)
    requires RESPONSE_SIZE == Wire.SizeOf(Wire.RESPONSE)
    ensures var r := ReadAll(t, a, room); ReadAll(t, a + b, room) == ReadAll(r.trace, r.rest + b, r.room)
    decreases |a|
  {
    hide ReadAll, Step, FateOf, ToResponse, Wire.SizeOf;
    if |a| >= RESPONSE_SIZE {
      assert (a + b)[..RESPONSE_SIZE] == a[..RESPONSE_SIZE] && (a + b)[RESPONSE_SIZE..] == a[RESPONSE_SIZE..] + b;
      var e := IncomingOf(a, room);
      ReadStep(t, a, room);
      ReadStep(t, a + b, room);
      if FateOf(t, e).Passed? {
        ChunksDoNotMatter(Step(t, e), a[RESPONSE_SIZE..], b, if room > 0 then room - 1 else 0);
      } else if FateOf(t, e).Repeated? {
        ChunksDoNotMatter(Step(t, e), a[RESPONSE_SIZE..], b, room);
      } else {
        StillThere(t, e);
        ReadStep(Step(t, e), a + b, room);
      }
    } else {
      ReadShort(t, a, room);
    }
  }

  /** One callback after another, each with its chunk behind what the one before it left. */
  function ReadChunks(t: Trace, kept: seq<Wire.byte>, chunks: seq<seq<Wire.byte>>, room: nat): Reading
    requires RESPONSE_SIZE == Wire.SizeOf(Wire.RESPONSE)
    decreases |chunks|
  {
    if chunks == [] then ReadAll(t, kept, room)
    else
      var r := ReadAll(t, kept + chunks[0], room);
      ReadChunks(r.trace, r.rest, chunks[1..], r.room)
  }

  /** However a stretch of the stream is cut: the same gateway, the same responses passed, the same bytes left. */
  lemma {:induction false} AnyChunks(t: Trace, kept: seq<Wire.byte>, chunks: seq<seq<Wire.byte>>, room: nat)
    requires RESPONSE_SIZE == Wire.SizeOf(Wire.RESPONSE)
    ensures ReadChunks(t, kept, chunks, room) == ReadAll(t, kept + OrderServers.Joined(chunks), room)
    decreases |chunks|
  {
    hide ReadAll, Wire.SizeOf;
    if chunks == [] {
      assert kept + [] == kept;
    } else {
      var r := ReadAll(t, kept + chunks[0], room);
      AnyChunks(r.trace, r.rest, chunks[1..], r.room);
      ChunksDoNotMatter(t, kept + chunks[0], OrderServers.Joined(chunks[1..]), room);
      assert kept + OrderServers.Joined(chunks) == kept + chunks[0] + OrderServers.Joined(chunks[1..]);
    }
  }

  // ------------------------------------------------------------------ a session of bytes

  function AllEncoded(fs: seq<Frame>): seq<Wire.byte> {
    if fs == [] then [] else Encoded(fs[0]) + AllEncoded(fs[1..])
  }

  /** The responses in the frames of their session, numbered from `n` on. */
  function Framed(n: nat, epoch: nat, rs: seq<Response>): (fs: seq<Frame>)
    ensures |fs| == |rs|
  {
    seq(|rs|, i requires 0 <= i < |rs| => Frame(n + i, epoch, rs[i]))
  }

  /** Responses of one client that mean something and that the wire can carry. */
  predicate Answering(client: ClientId, rs: seq<Response>) {
    forall i :: 0 <= i < |rs| ==> AnsweringOne(client, rs[i])
  }

  predicate AnsweringOne(client: ClientId, r: Response) {
    r.client == client && Sensible(r) && InRange(Frame(0, 0, r))
  }

  /** None of them closes the session. */
  predicate Welcome(rs: seq<Response>) { forall i :: 0 <= i < |rs| ==> !SessionReason(rs[i].reason) }

  lemma NextPassed(t: Trace, r: Response)
    requires AnsweringOne(t.gateway.client, r)
    ensures var e := Incoming(Some(Frame(t.gateway.expected, t.gateway.epoch, r)), true); var t' := Step(t, e);
            && FateOf(t, e).Passed? && t'.passed == t.passed + [r] && t'.gateway.expected == t.gateway.expected + 1
            && t'.gateway.client == t.gateway.client && t'.gateway.epoch == t.gateway.epoch
            && t'.gateway.healthy == (t.gateway.healthy && !SessionReason(r.reason))
  {
    hide Sensible, SessionReason, InRange;
  }

  lemma FrameFits(client: ClientId, r: Response, n: nat, epoch: nat)
    requires AnsweringOne(client, r) && n < TWO_64 && epoch < TWO_64
    ensures InRange(Frame(n, epoch, r))
  {
    hide Sensible;
  }

  lemma WelcomeRest(client: ClientId, rs: seq<Response>)
    requires rs != [] && Answering(client, rs)
    ensures AnsweringOne(client, rs[0]) && Answering(client, rs[1..])
    ensures Welcome(rs) <==> !SessionReason(rs[0].reason) && Welcome(rs[1..])
  {
    hide AnsweringOne, SessionReason;
    if !SessionReason(rs[0].reason) && Welcome(rs[1..]) {
      forall i | 0 <= i < |rs| ensures !SessionReason(rs[i].reason) { if i > 0 { assert rs[i] == rs[1..][i - 1]; } }
    }
    if Welcome(rs) {
      forall i | 0 <= i < |rs[1..]| ensures !SessionReason(rs[1..][i].reason) { assert rs[1..][i] == rs[i + 1]; }
    }
  }

  lemma {:induction false} BytesPassed(t: Trace, rs: seq<Response>, room: nat)
    requires RESPONSE_SIZE == Wire.SizeOf(Wire.RESPONSE) && Answering(t.gateway.client, rs)
    requires t.gateway.epoch < TWO_64 && t.gateway.expected + |rs| <= TWO_64 && |rs| <= room
    ensures var r := ReadAll(t, AllEncoded(Framed(t.gateway.expected, t.gateway.epoch, rs)), room);
            && r.trace.passed == t.passed + rs && r.rest == [] && r.trace.gateway.healthy == (t.gateway.healthy && Welcome(rs))
            && r.trace.gateway.expected == t.gateway.expected + |rs|
    decreases |rs|
  {
    hide ReadAll, Step, FateOf, Encoded, ToResponse, Answering, AnsweringOne, Welcome, InRange, Wire.SizeOf;
    var g := t.gateway;
    var fs := Framed(g.expected, g.epoch, rs);
    if rs == [] {
      ReadShort(t, [], room);
      assert t.passed + [] == t.passed;
      NothingWelcome();
    } else {
      WelcomeRest(g.client, rs);
      var f := Frame(g.expected, g.epoch, rs[0]);
      assert fs[0] == f && fs[1..] == Framed(g.expected + 1, g.epoch, rs[1..]);
      FrameFits(g.client, rs[0], g.expected, g.epoch);
      ResponseSurvives(f);
      var b := AllEncoded(fs);
      assert b[..RESPONSE_SIZE] == Encoded(f) && b[RESPONSE_SIZE..] == AllEncoded(fs[1..]);
      NextPassed(t, rs[0]);
      ReadStep(t, b, room);
      BytesPassed(Step(t, Incoming(Some(f), true)), rs[1..], room - 1);
      assert t.passed + [rs[0]] + rs[1..] == t.passed + rs;
    }
  }

  lemma NothingWelcome()
    ensures Welcome([])
  {
  }

  /** A fresh session's responses, numbered from one and encoded, their bytes cut anywhere: exactly they reach the trade
      engine, in order, no byte is left, and the session stays trusted unless one of them closes it. */
  lemma ResponsesArrive(client: ClientId, epoch: nat, rs: seq<Response>, chunks: seq<seq<Wire.byte>>, room: nat)
    requires RESPONSE_SIZE == Wire.SizeOf(Wire.RESPONSE) && Answering(client, rs) && epoch < TWO_64 && |rs| < TWO_64 && |rs| <= room
    requires OrderServers.Joined(chunks) == AllEncoded(Framed(1, epoch, rs))
    ensures var r := ReadChunks(Trace(Begin(client, epoch), []), [], chunks, room);
            r.trace.passed == rs && r.rest == [] && (r.trace.gateway.healthy <==> Welcome(rs))
  {
    hide ReadAll, ReadChunks, AllEncoded, Answering, Welcome, Wire.SizeOf, OrderServers.Joined;
    var t := Trace(Begin(client, epoch), []);
    AnyChunks(t, [], chunks, room);
    assert [] + OrderServers.Joined(chunks) == AllEncoded(Framed(1, epoch, rs));
    BytesPassed(t, rs, room);
    assert [] + rs == rs;
  }
}
