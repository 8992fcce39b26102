/** `OrderGateway`: which response frames reach the trade engine, and how many requests are still unanswered. */
module OrderGateways {
  import opened Types
  import opened EngineProps
  import opened LFQueues
  import opened Cursors
  import SessionSpec
  import OrderServers
  import Wire

  /** `OMClientResponse`. */
  datatype Frame = Frame(seqNum: nat, epoch: nat, response: Response)

  /** Expected number, next outgoing number, requests unanswered, and whether the session is still trusted. */
  datatype Gateway = Gateway(client: ClientId, epoch: nat, expected: nat, outgoing: nat, pending: nat, healthy: bool)

  /** What becomes of a frame: passed on, skipped as a repeat, kept for later, or taken as a broken session. */
  datatype Fate = Passed | Repeated | Kept | Broken

  function Begin(client: ClientId, epoch: nat): Gateway { Gateway(client, epoch, 1, 1, 0, true) }

  predicate Sensible(r: Response) {
    && !r.kind.NoResponse?
    && (r.kind.Filled? ==>
          && r.ticker < ME_MAX_TICKERS && r.side.Valid() && r.execQty != 0 && r.responseId != 0
          && r.execQty <= INT32_MAX && r.price > 0 && r.price != PRICE_INVALID)
  }

  predicate SessionReason(r: RejectReason) {
    r.Identity? || r.Sequence? || r == RejectReason.Session || r.Version?
  }

  /** One complete frame; `room`: the queue to the trade engine takes it. */
  function Receive(g: Gateway, d: Option<Frame>, room: bool): (Gateway, Fate) {
    if d.None? || d.value.epoch != g.epoch || d.value.response.client != g.client then (g.(healthy := false), Broken)
    else if d.value.seqNum < g.expected then (g, Repeated)
    else if d.value.seqNum != g.expected || !Sensible(d.value.response) then (g.(healthy := false), Broken)
    else if !room then (g, Kept)
    else
      var r := d.value.response;
      (g.(healthy := g.healthy && !SessionReason(r.reason),
          pending := if !r.kind.Filled? && g.pending > 0 then g.pending - 1 else g.pending,
          expected := g.expected + 1), Passed)
  }

  /** Requests in their frames, numbered from `n` on. */
  function Framed(n: nat, epoch: nat, qs: seq<Types.Request>): (fs: seq<SessionSpec.Frame>)
    ensures |fs| == |qs|
  {
    seq(|qs|, i requires 0 <= i < |qs| => SessionSpec.Frame(n + i, epoch, qs[i]))
  }

  function SentMany(g: Gateway, k: nat): Gateway {
    if k == 0 then g else Sent(SentMany(g, k - 1))
  }

  lemma SentNone(g: Gateway, qs: seq<Types.Request>, epoch: nat)
    ensures Framed(g.outgoing, epoch, qs[..0]) == [] && SentMany(g, 0) == g
  {
  }

  lemma SentManyIs(g: Gateway, k: nat)
    ensures SentMany(g, k) == g.(outgoing := g.outgoing + k, pending := g.pending + k)
  {
  }

  lemma FramedMore(g: Gateway, qs: seq<Types.Request>, k: nat, epoch: nat)
    requires k < |qs|
    ensures SentMany(g, k).outgoing == g.outgoing + k && SentMany(g, k + 1) == Sent(SentMany(g, k))
    ensures Framed(g.outgoing, epoch, qs[..k + 1])
         == Framed(g.outgoing, epoch, qs[..k]) + [SessionSpec.Frame(SentMany(g, k).outgoing, epoch, qs[k])]
  {
    SentManyIs(g, k);
  }

  function Sent(g: Gateway): Gateway { g.(outgoing := g.outgoing + 1, pending := g.pending + 1) }

  /** A request goes out, or a frame comes in. */
  datatype Event = Request | Incoming(frame: Option<Frame>, room: bool)

  /** The gateway and everything it has passed on. */
  datatype Trace = Trace(gateway: Gateway, passed: seq<Response>)

  function Step(t: Trace, e: Event): Trace {
    match e
    case Request => t.(gateway := Sent(t.gateway))
    case Incoming(d, room) =>
      var (g, fate) := Receive(t.gateway, d, room);
      Trace(g, if fate.Passed? && d.Some? then t.passed + [d.value.response] else t.passed)
  }

  function Steps(client: ClientId, epoch: nat, es: seq<Event>): Trace {
    if es == [] then Trace(Begin(client, epoch), []) else Step(Steps(client, epoch, es[..|es| - 1]), es[|es| - 1])
  }

  /** A frame of the server: the response `out[n]` under number n + 1. */
  predicate FrameOf(out: seq<Response>, epoch: nat, d: Option<Frame>) {
    d.Some? && d.value.epoch == epoch && 0 < d.value.seqNum <= |out| && d.value.response == out[d.value.seqNum - 1]
  }

  ghost predicate HonestAt(client: ClientId, epoch: nat, out: seq<Response>, es: seq<Event>, i: nat)
    requires i < |es|
  {
    es[i].Incoming? ==>
      && FrameOf(out, epoch, es[i].frame)
      && Answers(out[..es[i].frame.value.seqNum]) < Steps(client, epoch, es[..i]).gateway.outgoing
  }

  /** Frames are the server's, and the server answers only what it has been asked. */
  ghost predicate Honest(client: ClientId, epoch: nat, out: seq<Response>, es: seq<Event>) {
    forall i :: 0 <= i < |es| ==> HonestAt(client, epoch, out, es, i)
  }

  lemma {:induction false} AnswersMore(rs: seq<Response>, r: Response)
    ensures Answers(rs + [r]) == Answers(rs) + (if r.kind.Filled? then 0 else 1)
    decreases |rs|
  {
    if rs == [] {
      assert rs + [r] == [r] && [r][1..] == [];
    } else {
      assert (rs + [r])[1..] == rs[1..] + [r];
      AnswersMore(rs[1..], r);
    }
  }

  lemma HonestFront(client: ClientId, epoch: nat, out: seq<Response>, es: seq<Event>)
    requires es != [] && Honest(client, epoch, out, es)
    ensures Honest(client, epoch, out, es[..|es| - 1])
  {
    var front := es[..|es| - 1];
    forall i | 0 <= i < |front| ensures HonestAt(client, epoch, out, front, i) {
      assert HonestAt(client, epoch, out, es, i);
      assert front[i] == es[i] && front[..i] == es[..i];
    }
  }

  lemma StepPasses(t: Trace, e: Event, out: seq<Response>)
    requires 1 <= t.gateway.expected <= |out| + 1 && t.passed == out[..t.gateway.expected - 1]
    requires t.gateway.pending == t.gateway.outgoing - 1 - Answers(t.passed)
    requires e.Incoming? ==>
               && FrameOf(out, t.gateway.epoch, e.frame)
               && Answers(out[..e.frame.value.seqNum]) < t.gateway.outgoing
    ensures var t' := Step(t, e);
            && 1 <= t'.gateway.expected <= |out| + 1 && t'.passed == out[..t'.gateway.expected - 1]
            && t'.gateway.pending == t'.gateway.outgoing - 1 - Answers(t'.passed)
            && t'.gateway.epoch == t.gateway.epoch
  {
    hide Answers, Sensible;
    if e.Incoming? && Receive(t.gateway, e.frame, e.room).1.Passed? {
      AnswersMore(t.passed, e.frame.value.response);
      assert out[..t.gateway.expected] == t.passed + [e.frame.value.response];
    }
  }

  /** However often frames repeat or go missing: what reaches the trade engine is the server's responses from
      the first, none skipped and none twice; and the count of unanswered requests is exact. */
  lemma {:induction false} PassedInOrder(client: ClientId, epoch: nat, out: seq<Response>, es: seq<Event>)
    requires Honest(client, epoch, out, es)
    ensures var t := Steps(client, epoch, es);
            && t.passed <= out && |t.passed| == t.gateway.expected - 1
            && t.gateway.pending == t.gateway.outgoing - 1 - Answers(t.passed) && t.gateway.epoch == epoch
  {
    if es != [] {
      HonestFront(client, epoch, out, es);
      PassedInOrder(client, epoch, out, es[..|es| - 1]);
      assert HonestAt(client, epoch, out, es, |es| - 1);
      hide Answers, FrameOf, Step;
      StepPasses(Steps(client, epoch, es[..|es| - 1]), es[|es| - 1], out);
    }
  }

  /** After any history of a server's frames, one more of them. The next response is passed when there is room, and
      kept otherwise; a repeat changes nothing; a gap passes nothing and breaks the session. */
  lemma NextIsPassed(client: ClientId, epoch: nat, out: seq<Response>, es: seq<Event>, n: nat, room: bool)
    requires Honest(client, epoch, out, es) && n < |out| && out[n].client == client && Sensible(out[n])
    ensures var t := Steps(client, epoch, es);
            var t' := Step(t, Incoming(Some(Frame(n + 1, epoch, out[n])), room));
            if n < |t.passed| || (n == |t.passed| && !room) then t' == t
            else if n == |t.passed| then
              && t'.passed == t.passed + [out[n]] && t'.gateway.expected == n + 2
              && t'.gateway.healthy == (t.gateway.healthy && !SessionReason(out[n].reason))
            else t'.passed == t.passed && !t'.gateway.healthy && t'.gateway == t.gateway.(healthy := false)
  {
    hide Sensible, SessionReason, Steps, Honest;
    PassedInOrder(client, epoch, out, es);
    OwnClient(client, epoch, es);
  }

  /** The number expected is the next after all that was passed, whatever came in. */
  lemma {:induction false} ExpectsNext(client: ClientId, epoch: nat, es: seq<Event>)
    ensures Steps(client, epoch, es).gateway.expected == |Steps(client, epoch, es).passed| + 1
  {
    if es != [] { ExpectsNext(client, epoch, es[..|es| - 1]); }
  }

  /** After any history and for any frame, also one garbled or of another session: a response is passed exactly when
      its frame can be read, is of this session and client and next in number, has a known kind, reports a possible
      execution if any, and there is room; and the session is no longer trusted after a frame of another session, a
      gap, a response that makes no sense, and a rejection for the session itself. */
  lemma PassedExactlyWhen(client: ClientId, epoch: nat, es: seq<Event>, d: Option<Frame>, room: bool)
    ensures var t, t' := Steps(client, epoch, es), Step(Steps(client, epoch, es), Incoming(d, room));
            var own := d.Some? && d.value.epoch == epoch && d.value.response.client == client;
            var next := own && d.value.seqNum == |t.passed| + 1;
            var possible := next && !d.value.response.kind.NoResponse?
                            && (d.value.response.kind.Filled? ==>
                                  && d.value.response.ticker < ME_MAX_TICKERS && (d.value.response.side.Buy? || d.value.response.side.Sell?)
                                  && 0 < d.value.response.execQty < 0x8000_0000 && d.value.response.responseId > 0
                                  && d.value.response.price > 0 && d.value.response.price != PRICE_INVALID);
            var refused := possible && room && (d.value.response.reason.Identity? || d.value.response.reason.Sequence?
                                                || d.value.response.reason.Session? || d.value.response.reason.Version?);
            && (if possible && room then t'.passed == t.passed + [d.value.response] else t'.passed == t.passed)
            && (t'.gateway.healthy <==>
                  t.gateway.healthy && own && (d.value.seqNum <= |t.passed| || possible) && !refused)
  {
    hide Steps;
    OwnClient(client, epoch, es);
    ExpectsNext(client, epoch, es);
  }

  lemma {:induction false} OwnClient(client: ClientId, epoch: nat, es: seq<Event>)
    ensures Steps(client, epoch, es).gateway.client == client && Steps(client, epoch, es).gateway.epoch == epoch
  {
    if es != [] { OwnClient(client, epoch, es[..|es| - 1]); }
  }

  /** No gap: every frame is one already passed or the next, for which there is room. */
  ghost predicate Steady(client: ClientId, epoch: nat, out: seq<Response>, es: seq<Event>, i: nat)
    requires i < |es|
  {
    es[i].Incoming? ==>
      && FrameOf(out, epoch, es[i].frame)
      && es[i].frame.value.response.client == client && Sensible(es[i].frame.value.response)
      && !SessionReason(es[i].frame.value.response.reason)
      && var n := es[i].frame.value.seqNum; var t := Steps(client, epoch, es[..i]);
         n < t.gateway.expected || (n == t.gateway.expected && es[i].room)
  }

  ghost predicate AllSteady(client: ClientId, epoch: nat, out: seq<Response>, es: seq<Event>) {
    forall i :: 0 <= i < |es| ==> Steady(client, epoch, out, es, i)
  }

  lemma SteadyFront(client: ClientId, epoch: nat, out: seq<Response>, es: seq<Event>)
    requires es != [] && Honest(client, epoch, out, es) && AllSteady(client, epoch, out, es)
    ensures AllSteady(client, epoch, out, es[..|es| - 1])
  {
    hide Steps, FrameOf, Sensible, SessionReason, Honest;
    var front := es[..|es| - 1];
    forall i | 0 <= i < |front| ensures Steady(client, epoch, out, front, i) {
      assert Steady(client, epoch, out, es, i);
      assert front[i] == es[i] && front[..i] == es[..i];
    }
  }

  /** Over any reception without gaps, with repeats: the session stays healthy, and everything received has been
      passed, in the server's order, each response once. */
  lemma {:induction false} ReceivedIsPassed(client: ClientId, epoch: nat, out: seq<Response>, es: seq<Event>, j: nat)
    requires Honest(client, epoch, out, es) && AllSteady(client, epoch, out, es)
    ensures var t := Steps(client, epoch, es);
            && t.gateway.healthy && t.passed <= out && |t.passed| == t.gateway.expected - 1
            && (j < |es| && es[j].Incoming? && es[j].frame.Some? ==> es[j].frame.value.seqNum <= |t.passed|)
    decreases |es|
  {
    hide Sensible, SessionReason, Answers, Steady, AllSteady, Honest, HonestAt;
    PassedInOrder(client, epoch, out, es);
    if es != [] {
      var front, e := es[..|es| - 1], es[|es| - 1];
      HonestFront(client, epoch, out, es);
      SteadyFront(client, epoch, out, es);
      ReceivedIsPassed(client, epoch, out, front, j);
      PassedInOrder(client, epoch, out, front);
      if e.Incoming? { LastSteady(client, epoch, out, es); }
      OwnClient(client, epoch, front);
      assert j < |front| ==> front[j] == es[j];
    }
  }

  lemma LastSteady(client: ClientId, epoch: nat, out: seq<Response>, es: seq<Event>)
    requires es != [] && AllSteady(client, epoch, out, es) && es[|es| - 1].Incoming?
    ensures var e, t := es[|es| - 1], Steps(client, epoch, es[..|es| - 1]);
            && FrameOf(out, epoch, e.frame)
            && e.frame.value.response.client == client && Sensible(e.frame.value.response)
            && !SessionReason(e.frame.value.response.reason)
            && (e.frame.value.seqNum < t.gateway.expected || (e.frame.value.seqNum == t.gateway.expected && e.room))
  {
    hide Steps, FrameOf, Sensible, SessionReason;
    assert Steady(client, epoch, out, es, |es| - 1);
  }

  // ------------------------------------------------------------------ frames cut from bytes

  function ResponseOfCode(x: int): ResponseType {
    if x == 1 then Accepted else if x == 2 then Canceled else if x == 3 then Filled else if x == 4 then CancelRejected
    else if x == 5 then Rejected else if x == 6 then State else NoResponse
  }

  function ReasonOfCode(x: int): RejectReason {
    if x == 1 then InvalidId else if x == 2 then InvalidType else if x == 3 then InvalidSide else if x == 4 then InvalidPrice
    else if x == 5 then InvalidQty else if x == 6 then DuplicateId else if x == 7 then Capacity else if x == 8 then Identity
    else if x == 9 then Sequence else if x == 10 then RejectReason.Session else if x == 11 then Version else NoReason
  }

  /** A response frame, none if its header is not one. */
  function ToResponse(b: seq<Wire.byte>): Option<Frame>
    requires |b| == Wire.SizeOf(Wire.RESPONSE)
  {
    match Wire.Parse(Wire.RESPONSE, 2, b)
    case None => None
    case Some(vs) =>
      var n := (i: int) requires 0 <= i < |vs| => if vs[i] < 0 then 0 else vs[i];
      Some(Frame(n(0), n(1), Response(ResponseOfCode(vs[2]), n(3), n(4), n(5), n(6), OrderServers.SideOfCode(vs[7]), vs[8],
                                      n(9), n(10), ReasonOfCode(vs[11]), n(12), vs[13])))
  }

  const RESPONSE_SIZE: nat := 79

  /** What a callback leaves: the gateway and all it has passed, the bytes not consumed, the room left downstream. */
  datatype Reading = Reading(trace: Trace, rest: seq<Wire.byte>, room: nat)

  function IncomingOf(b: seq<Wire.byte>, room: nat): Event
    requires |b| >= RESPONSE_SIZE == Wire.SizeOf(Wire.RESPONSE)
  {
    Incoming(ToResponse(b[..RESPONSE_SIZE]), room > 0)
  }

  function FateOf(t: Trace, e: Event): Fate
    requires e.Incoming?
  {
    Receive(t.gateway, e.frame, e.room).1
  }

  /** The frame loop of `recvCallback`: a frame kept for later and one that breaks the session end it. */
  function ReadAll(t: Trace, b: seq<Wire.byte>, room: nat): Reading
    requires RESPONSE_SIZE == Wire.SizeOf(Wire.RESPONSE)
    decreases |b|
  {
    if |b| < RESPONSE_SIZE then Reading(t, b, room)
    else
      var e := IncomingOf(b, room);
      match FateOf(t, e)
      case Passed => ReadAll(Step(t, e), b[RESPONSE_SIZE..], if room > 0 then room - 1 else 0)
      case Repeated => ReadAll(Step(t, e), b[RESPONSE_SIZE..], room)
      case _ => Reading(Step(t, e), b, room)
  }

  lemma ReadShort(t: Trace, b: seq<Wire.byte>, room: nat)
    requires |b| < RESPONSE_SIZE == Wire.SizeOf(Wire.RESPONSE)
    ensures ReadAll(t, b, room) == Reading(t, b, room)
  {
  }

  lemma ReadStep(t: Trace, b: seq<Wire.byte>, room: nat)
    requires |b| >= RESPONSE_SIZE == Wire.SizeOf(Wire.RESPONSE)
    ensures var e := IncomingOf(b, room);
            ReadAll(t, b, room) ==
            match FateOf(t, e)
            case Passed => ReadAll(Step(t, e), b[RESPONSE_SIZE..], if room > 0 then room - 1 else 0)
            case Repeated => ReadAll(Step(t, e), b[RESPONSE_SIZE..], room)
            case _ => Reading(Step(t, e), b, room)
  {
  }

  class OrderGateway {
    const client: ClientId
    const epoch: nat
    const incoming: LFQueue<Response>
    var nextExpSeqNum: nat
    var nextOutgoingSeqNum: nat
    var pendingRequests: nat
    var sessionHealthy: bool

    function Contents(): Gateway
      reads this
    {
      Gateway(client, epoch, nextExpSeqNum, nextOutgoingSeqNum, pendingRequests, sessionHealthy)
    }

    constructor (client: ClientId, epoch: nat, incoming: LFQueue<Response>)
      ensures Contents() == Begin(client, epoch) && this.incoming == incoming
    {
      this.client, this.epoch, this.incoming := client, epoch, incoming;
      nextExpSeqNum, nextOutgoingSeqNum, pendingRequests, sessionHealthy := 1, 1, 0, true;
    }

    method SendOne(q: Types.Request) returns (frame: SessionSpec.Frame)
      modifies `nextOutgoingSeqNum, `pendingRequests
      ensures frame == SessionSpec.Frame(old(nextOutgoingSeqNum), epoch, q) && Contents() == Sent(old(Contents()))
    {
      frame := SessionSpec.Frame(nextOutgoingSeqNum, epoch, q);
      nextOutgoingSeqNum := nextOutgoingSeqNum + 1;
      pendingRequests := pendingRequests + 1;
    }

    /** Encodes the requests that wait, in order, under consecutive numbers, until the send buffer is full; a request
        leaves its queue only once its frame is in the buffer. */
    method SendRequests(requests: LFQueue<Types.Request>, takes: nat) returns (frames: seq<SessionSpec.Frame>)
      requires requests.Valid() && requests as object != this
      modifies `nextOutgoingSeqNum, `pendingRequests, requests
      ensures requests.Valid()
      ensures var k := Min(takes, |old(requests.Contents())|);
              && frames == Framed(old(nextOutgoingSeqNum), epoch, old(requests.Contents())[..k])
              && requests.Contents() == old(requests.Contents())[k..]
              && Contents() == SentMany(old(Contents()), k)
    {
      hide LFQueue.SlotHolds, Framed, Sent, SentMany;
      ghost var all, g := requests.Contents(), Contents();
      frames := [];
      SentNone(g, all, epoch);
      assert all[0..] == all;
      var next := requests.Peek();
      while next.Some? && |frames| < takes
        invariant requests.Valid() && |frames| <= Min(takes, |all|) && requests.Contents() == all[|frames|..]
        invariant next == if |frames| < |all| then Some(all[|frames|]) else None
        invariant frames == Framed(g.outgoing, epoch, all[..|frames|]) && Contents() == SentMany(g, |frames|)
        decreases |all| - |frames|
      {
        FramedMore(g, all, |frames|, epoch);
        var frame := SendOne(next.value);
        requests.Pop();
        assert all[|frames|..][1..] == all[|frames| + 1..];
        frames := frames + [frame];
        next := requests.Peek();
      }
    }

    /** One complete frame of `recvCallback`. */
    method ReceiveFrame(d: Option<Frame>) returns (fate: Fate)
      requires incoming.Valid() && incoming as object != this
      modifies this, incoming, incoming.store
      ensures incoming.Valid()
      ensures (Contents(), fate) == Receive(old(Contents()), d, |old(incoming.Contents())| < incoming.store.Length)
      ensures incoming.Contents() == if fate.Passed? && d.Some? then old(incoming.Contents()) + [d.value.response]
                                     else old(incoming.Contents())
    {
      hide LFQueue.SlotHolds, Cursor, Sensible;
      if d.None? || d.value.epoch != epoch || d.value.response.client != client {
        sessionHealthy := false;
        return Broken;
      }
      if d.value.seqNum < nextExpSeqNum {
        return Repeated;
      }
      var r := d.value.response;
      if d.value.seqNum != nextExpSeqNum || !Sensible(r) {
        sessionHealthy := false;
        return Broken;
      }
      var pushed := incoming.TryPush(r);
      if !pushed {
        return Kept;
      }
      if SessionReason(r.reason) { sessionHealthy := false; }
      if !r.kind.Filled? && pendingRequests > 0 { pendingRequests := pendingRequests - 1; }
      nextExpSeqNum := nextExpSeqNum + 1;
      fate := Passed;
    }

    ghost function RoomLeft(): nat
      reads this, incoming, incoming.store
      requires incoming.Valid()
    {
      Spare(incoming.store.Length, |incoming.Contents()|)
    }

    /** The first frame of the bytes `b`: the rest of the callback goes on behind it, or ends with it. */
    method TakeFrame(d: Option<Frame>, ghost b: seq<Wire.byte>, ghost passed: seq<Response>)
      returns (on: bool, ghost more: seq<Response>)
      requires incoming.Valid() && incoming as object != this
      requires |b| >= RESPONSE_SIZE == Wire.SizeOf(Wire.RESPONSE) && d == ToResponse(b[..RESPONSE_SIZE])
      modifies this, incoming, incoming.store
      ensures incoming.Valid() && incoming.Contents() == old(incoming.Contents()) + more
      ensures ReadAll(Trace(old(Contents()), passed), b, old(RoomLeft()))
           == if on then ReadAll(Trace(Contents(), passed + more), b[RESPONSE_SIZE..], RoomLeft())
              else Reading(Trace(Contents(), passed + more), b, RoomLeft())
    {
      hide ReadAll, Receive, ToResponse, IncomingOf, FateOf, Step, LFQueue.SlotHolds, Cursor, Wire.SizeOf;
      ghost var t, room, was := Trace(Contents(), passed), RoomLeft(), incoming.Contents();
      ReadStep(t, b, room);
      IncomingIs(t, b, room, d);
      var fate := ReceiveFrame(d);
      more := if fate.Passed? && d.Some? then [d.value.response] else [];
      assert passed + [] == passed && was + [] == was;
      assert incoming.Contents() == was + more;
      on := fate.Passed? || fate.Repeated?;
    }

    /** Cuts complete frames off the buffer until one must wait or breaks the session, then moves what is left to the
        front. `before` is what the gateway has passed so far, and `more` what it passes now. */
    method RecvCallback(inbound: array<Wire.byte>, valid: nat, ghost before: seq<Response>)
      returns (left: nat, ghost more: seq<Response>)
      requires incoming.Valid() && incoming as object != this && valid <= inbound.Length
      requires inbound as object != incoming.store
      modifies this, incoming, incoming.store, inbound
      ensures RESPONSE_SIZE == Wire.SizeOf(Wire.RESPONSE) && incoming.Valid() && left <= valid
      ensures incoming.Contents() == old(incoming.Contents()) + more
      ensures ReadAll(Trace(old(Contents()), before), old(inbound[..valid]), old(RoomLeft()))
           == Reading(Trace(Contents(), before + more), inbound[..left], RoomLeft())
    {
      hide ReadAll, Receive, ToResponse, LFQueue.SlotHolds, Cursor, Wire.SizeOf, OrderGateway.Contents, OrderGateway.RoomLeft;
      Wire.Sizes();
      ghost var bytes, queued := inbound[..valid], incoming.Contents();
      ghost var all := ReadAll(Trace(Contents(), before), bytes, RoomLeft());
      var consumed: nat, on := 0, true;
      more := [];
      assert bytes[0..] == bytes && before + [] == before && queued + [] == queued;
      while on && consumed + RESPONSE_SIZE <= valid
        invariant consumed <= valid && inbound[..valid] == bytes && incoming.Valid() && incoming.Contents() == queued + more
        invariant all == if on then ReadAll(Trace(Contents(), before + more), bytes[consumed..], RoomLeft())
                         else Reading(Trace(Contents(), before + more), bytes[consumed..], RoomLeft())
        decreases on, valid - consumed
      {
        FrameIn(bytes, consumed);
        var d := CutResponse(inbound, valid, consumed);
        ghost var added;
        on, added := TakeFrame(d, bytes[consumed..], before + more);
        assert before + more + added == before + (more + added) && queued + more + added == queued + (more + added);
        more := more + added;
        if on { consumed := consumed + RESPONSE_SIZE; }
      }
      if on { ReadShort(Trace(Contents(), before + more), bytes[consumed..], RoomLeft()); }
      left := valid - consumed;
      Wire.MoveFront(inbound, consumed, left);
    }
  }

  /** The frame at one place of the buffer. */
  method CutResponse(inbound: array<Wire.byte>, valid: nat, at: nat) returns (d: Option<Frame>)
    requires at + RESPONSE_SIZE <= valid <= inbound.Length && RESPONSE_SIZE == Wire.SizeOf(Wire.RESPONSE)
    ensures d == ToResponse(inbound[..valid][at..at + RESPONSE_SIZE])
  {
    hide ToResponse, Wire.SizeOf;
    assert inbound[at..at + RESPONSE_SIZE] == inbound[..valid][at..at + RESPONSE_SIZE];
    d := ToResponse(inbound[at..at + RESPONSE_SIZE]);
  }

  function Spare(capacity: nat, used: nat): nat { if used < capacity then capacity - used else 0 }

  lemma FrameIn(bytes: seq<Wire.byte>, at: nat)
    requires at + RESPONSE_SIZE <= |bytes|
    ensures bytes[at..][..RESPONSE_SIZE] == bytes[at..at + RESPONSE_SIZE] && bytes[at..][RESPONSE_SIZE..] == bytes[at + RESPONSE_SIZE..]
  {
  }

  /** The first frame of some bytes, its fate and what it leaves. */
  lemma IncomingIs(t: Trace, b: seq<Wire.byte>, room: nat, d: Option<Frame>)
    requires |b| >= RESPONSE_SIZE == Wire.SizeOf(Wire.RESPONSE) && d == ToResponse(b[..RESPONSE_SIZE])
    ensures var (g, fate) := Receive(t.gateway, d, room > 0); var e := IncomingOf(b, room);
            && FateOf(t, e) == fate && (fate.Passed? ==> d.Some? && room > 0)
            && Step(t, e) == Trace(g, if fate.Passed? && d.Some? then t.passed + [d.value.response] else t.passed)
  {
    hide ToResponse, Sensible, SessionReason, Wire.SizeOf;
  }
}
