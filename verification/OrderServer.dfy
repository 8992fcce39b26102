/** `OrderServer`: frames cut from a byte stream, judged in place, forwarded, refused or held back. */
module OrderServers {
  import opened Types
  import opened EngineSpec
  import opened SessionSpec
  import opened SequencerSpec
  import opened FIFOSequencers
  import opened LFQueues
  import opened SessionNumbers
  import Wire

  function SideOfCode(x: int): Side { if x == 1 then Buy else if x == -1 then Sell else if x == 2 then Side.Max else Invalid }

  function KindOfCode(x: int): RequestType { if x == 1 then New else if x == 2 then CancelOrder else if x == 3 then Query else NoRequest }

  /** A request frame, none if its header is not one. */
  function ToFrame(b: seq<Wire.byte>): Option<Frame>
    requires |b| == Wire.SizeOf(Wire.REQUEST)
  {
    match Wire.Parse(Wire.REQUEST, 1, b)
    case None => None
    case Some(vs) =>
      var n := (i: int) requires 0 <= i < |vs| => if vs[i] < 0 then 0 else vs[i];
      Some(Frame(n(0), n(1), Request(KindOfCode(vs[2]), n(3), n(4), n(5), SideOfCode(vs[6]), vs[7], n(8))))
  }

  const REQUEST_SIZE: nat := 50

  /** What one callback leaves: the sessions, the bytes it did not consume, what it forwarded, and the room
      then left in the sequencer and in the send buffer. */
  datatype Received = Received(server: Server, rest: seq<Wire.byte>, forwarded: seq<Request>, space: nat, room: nat)

  function InputOf(sock: Socket, b: seq<Wire.byte>, healthy: set<Socket>, space: nat, room: nat): Input
    requires |b| >= REQUEST_SIZE == Wire.SizeOf(Wire.REQUEST)
  {
    Input(sock, ToFrame(b[..REQUEST_SIZE]), healthy, space > 0, room > 0)
  }

  function FateOf(v: Server, x: Input): Fate {
    HandleFrame(v.sessions, x.sock, x.frame, x.healthy, x.accepts, x.fits).1
  }

  function RecvAll(v: Server, sock: Socket, b: seq<Wire.byte>, healthy: set<Socket>, space: nat, room: nat): Received
    requires REQUEST_SIZE == Wire.SizeOf(Wire.REQUEST)
    decreases |b|
  {
    if |b| < REQUEST_SIZE then Received(v, b, [], space, room)
    else
      var x := InputOf(sock, b, healthy, space, room);
      match FateOf(v, x)
      case Held => Received(Take(v, x), b, [], space, room)
      case Refused(_) => RecvAll(Take(v, x), sock, b[REQUEST_SIZE..], healthy, space, if room > 0 then room - 1 else 0)
      case Forwarded =>
        var r := RecvAll(Take(v, x), sock, b[REQUEST_SIZE..], healthy, if space > 0 then space - 1 else 0, room);
        r.(forwarded := (if x.frame.Some? then [x.frame.value.request] else []) + r.forwarded)
  }

  /** An end of the bytes, whole frames before it. */
  predicate IsRest(b: seq<Wire.byte>, r: seq<Wire.byte>) {
    |r| <= |b| && r == b[|b| - |r|..] && (|b| - |r|) % REQUEST_SIZE == 0
  }

  /** What is not consumed stays in the buffer, whole frames first. */
  lemma {:induction false} RestIsSuffix(v: Server, sock: Socket, b: seq<Wire.byte>, healthy: set<Socket>, space: nat, room: nat)
    requires REQUEST_SIZE == Wire.SizeOf(Wire.REQUEST)
    ensures var r := RecvAll(v, sock, b, healthy, space, room);
            IsRest(b, r.rest)
    decreases |b|
  {
    hide Take, FateOf, InputOf, RecvAll, IsRest, Wire.SizeOf;
    AllIsRest(b);
    if |b| >= REQUEST_SIZE {
      RecvStep(v, sock, b, healthy, space, room);
      var x := InputOf(sock, b, healthy, space, room);
      var b' := b[REQUEST_SIZE..];
      if FateOf(v, x).Refused? {
        var room': nat := if room > 0 then room - 1 else 0;
        RestIsSuffix(Take(v, x), sock, b', healthy, space, room');
        RestOfRest(b, RecvAll(Take(v, x), sock, b', healthy, space, room').rest);
      } else if FateOf(v, x).Forwarded? {
        var space': nat := if space > 0 then space - 1 else 0;
        RestIsSuffix(Take(v, x), sock, b', healthy, space', room);
        RestOfRest(b, RecvAll(Take(v, x), sock, b', healthy, space', room).rest);
      }
    } else {
      RecvShort(v, sock, b, healthy, space, room);
    }
  }

  lemma AllIsRest(b: seq<Wire.byte>)
    ensures IsRest(b, b)
  {
  }

  lemma RestOfRest(b: seq<Wire.byte>, r: seq<Wire.byte>)
    requires |b| >= REQUEST_SIZE && IsRest(b[REQUEST_SIZE..], r)
    ensures IsRest(b, r)
  {
    assert b[REQUEST_SIZE..][|b| - REQUEST_SIZE - |r|..] == b[|b| - |r|..];
  }

  /** How the stream is cut does not matter: going on with the left-over bytes and the next chunk, under the
      pressure left, is the same as having received both at once, whether or not a frame was held back. */
  lemma {:induction false} ChunksDoNotMatter(v: Server, sock: Socket, a: seq<Wire.byte>, b: seq<Wire.byte>,
                                             healthy: set<Socket>, space: nat, room: nat)
    requires REQUEST_SIZE == Wire.SizeOf(Wire.REQUEST)
    ensures var r := RecvAll(v, sock, a, healthy, space, room);
            var next := RecvAll(r.server, sock, r.rest + b, healthy, r.space, r.room);
            RecvAll(v, sock, a + b, healthy, space, room) == next.(forwarded := r.forwarded + next.forwarded)
    decreases |a|
  {
    hide Take, FateOf, InputOf, ToFrame, RecvAll;
    if |a| >= REQUEST_SIZE {
      SameInput(sock, a, b, healthy, space, room);
      var x := InputOf(sock, a, healthy, space, room);
      RecvStep(v, sock, a, healthy, space, room);
      RecvStep(v, sock, a + b, healthy, space, room);
      if FateOf(v, x).Refused? {
        ChunksDoNotMatter(Take(v, x), sock, a[REQUEST_SIZE..], b, healthy, space, if room > 0 then room - 1 else 0);
      } else if FateOf(v, x).Forwarded? {
        ChunksDoNotMatter(Take(v, x), sock, a[REQUEST_SIZE..], b, healthy, if space > 0 then space - 1 else 0, room);
      } else {
        StillHeld(v, x);
        RecvStep(Take(v, x), sock, a + b, healthy, space, room);
      }
    } else {
      RecvShort(v, sock, a, healthy, space, room);
      var next := RecvAll(v, sock, a + b, healthy, space, room);
      assert [] + next.forwarded == next.forwarded;
    }
  }

  lemma StillHeld(v: Server, x: Input)
    requires FateOf(v, x).Held?
    ensures Take(Take(v, x), x) == Take(v, x) && FateOf(Take(v, x), x).Held?
  {
    hide HandleFrame, Take;
    HeldAgain(v, x);
  }

  /** One callback after another on one connection, each with its chunk of the stream and the pressure the one
      before it left. */
  function RecvChunks(v: Server, sock: Socket, kept: seq<Wire.byte>, chunks: seq<seq<Wire.byte>>, healthy: set<Socket>,
                      space: nat, room: nat): Received
    requires REQUEST_SIZE == Wire.SizeOf(Wire.REQUEST)
    decreases |chunks|
  {
    if chunks == [] then RecvAll(v, sock, kept, healthy, space, room)
    else
      var r := RecvAll(v, sock, kept + chunks[0], healthy, space, room);
      var next := RecvChunks(r.server, sock, r.rest, chunks[1..], healthy, r.space, r.room);
      next.(forwarded := r.forwarded + next.forwarded)
  }

  function Joined(chunks: seq<seq<Wire.byte>>): seq<Wire.byte> {
    if chunks == [] then [] else chunks[0] + Joined(chunks[1..])
  }

  /** However a stretch of the stream is cut into chunks, and wherever a frame is held back: the same sessions, the
      same requests forwarded, the same bytes left as from one callback over all of it. */
  lemma {:induction false} AnyChunks(v: Server, sock: Socket, kept: seq<Wire.byte>, chunks: seq<seq<Wire.byte>>,
                                     healthy: set<Socket>, space: nat, room: nat)
    requires REQUEST_SIZE == Wire.SizeOf(Wire.REQUEST)
    ensures RecvChunks(v, sock, kept, chunks, healthy, space, room)
         == RecvAll(v, sock, kept + Joined(chunks), healthy, space, room)
    decreases |chunks|
  {
    hide RecvAll, Wire.SizeOf;
    if chunks == [] {
      assert kept + [] == kept;
    } else {
      var r := RecvAll(v, sock, kept + chunks[0], healthy, space, room);
      AnyChunks(r.server, sock, r.rest, chunks[1..], healthy, r.space, r.room);
      ChunksDoNotMatter(v, sock, kept + chunks[0], Joined(chunks[1..]), healthy, space, room);
      assert kept + Joined(chunks) == kept + chunks[0] + Joined(chunks[1..]);
    }
  }

  // ------------------------------------------------------------------ histories of bytes

  /** A callback: the connection, the bytes that have arrived on it, and the pressure it finds. */
  datatype Arrival = Arrival(sock: Socket, bytes: seq<Wire.byte>, healthy: set<Socket>, space: nat, room: nat)

  /** The sessions, and what is left in every connection's buffer. */
  datatype Endpoint = Endpoint(server: Server, buffers: map<Socket, seq<Wire.byte>>)

  function BufferOf(e: Endpoint, sock: Socket): seq<Wire.byte> { if sock in e.buffers then e.buffers[sock] else [] }

  function AfterArrivals(xs: seq<Arrival>): Endpoint
    requires REQUEST_SIZE == Wire.SizeOf(Wire.REQUEST)
  {
    if xs == [] then Endpoint(FRESH, map[])
    else
      var e, x := AfterArrivals(xs[..|xs| - 1]), xs[|xs| - 1];
      var r := RecvAll(e.server, x.sock, BufferOf(e, x.sock) + x.bytes, x.healthy, x.space, x.room);
      Endpoint(r.server, e.buffers[x.sock := r.rest])
  }

  /** What one callback does to the sessions is what a run of frames does. */
  lemma {:induction false} RecvIsTakes(ys: seq<Input>, sock: Socket, b: seq<Wire.byte>, healthy: set<Socket>, space: nat,
                                       room: nat) returns (zs: seq<Input>)
    requires REQUEST_SIZE == Wire.SizeOf(Wire.REQUEST)
    ensures RecvAll(TakeAll(ys), sock, b, healthy, space, room).server == TakeAll(zs)
    decreases |b|
  {
    hide Take, FateOf, InputOf, RecvAll;
    if |b| < REQUEST_SIZE {
      RecvShort(TakeAll(ys), sock, b, healthy, space, room);
      zs := ys;
    } else {
      var x := InputOf(sock, b, healthy, space, room);
      RecvStep(TakeAll(ys), sock, b, healthy, space, room);
      assert (ys + [x])[..|ys|] == ys;
      assert TakeAll(ys + [x]) == Take(TakeAll(ys), x);
      match FateOf(TakeAll(ys), x)
      case Held => zs := ys + [x];
      case Refused(_) =>
        zs := RecvIsTakes(ys + [x], sock, b[REQUEST_SIZE..], healthy, space, if room > 0 then room - 1 else 0);
      case Forwarded =>
        zs := RecvIsTakes(ys + [x], sock, b[REQUEST_SIZE..], healthy, if space > 0 then space - 1 else 0, room);
    }
  }

  /** A history of bytes on any connections, cut anyhow, is a history of frames. */
  lemma {:induction false} ArrivalsAreTakes(xs: seq<Arrival>) returns (zs: seq<Input>)
    requires REQUEST_SIZE == Wire.SizeOf(Wire.REQUEST)
    ensures AfterArrivals(xs).server == TakeAll(zs)
    decreases |xs|
  {
    hide RecvAll, Take;
    if xs == [] {
      zs := [];
    } else {
      var ys := ArrivalsAreTakes(xs[..|xs| - 1]);
      var e, x := AfterArrivals(xs[..|xs| - 1]), xs[|xs| - 1];
      zs := RecvIsTakes(ys, x.sock, BufferOf(e, x.sock) + x.bytes, x.healthy, x.space, x.room);
    }
  }

  /** So what holds of sessions holds of any bytes, on any connections, in any chunks, under any pressure. */
  lemma BytesAreSafe(xs: seq<Arrival>, c: ClientId)
    requires REQUEST_SIZE == Wire.SizeOf(Wire.REQUEST)
    ensures SafeLog(AfterArrivals(xs).server.log, c)
  {
    hide AfterArrivals, TakeAll, SafeLog;
    var zs := ArrivalsAreTakes(xs);
    SessionsAreSafe(zs, c);
  }

  lemma RecvShort(v: Server, sock: Socket, b: seq<Wire.byte>, healthy: set<Socket>, space: nat, room: nat)
    requires |b| < REQUEST_SIZE == Wire.SizeOf(Wire.REQUEST)
    ensures RecvAll(v, sock, b, healthy, space, room) == Received(v, b, [], space, room)
  {
  }

  lemma RecvStep(v: Server, sock: Socket, b: seq<Wire.byte>, healthy: set<Socket>, space: nat, room: nat)
    requires |b| >= REQUEST_SIZE == Wire.SizeOf(Wire.REQUEST)
    ensures var x := InputOf(sock, b, healthy, space, room);
            RecvAll(v, sock, b, healthy, space, room) ==
            match FateOf(v, x)
            case Held => Received(Take(v, x), b, [], space, room)
            case Refused(_) => RecvAll(Take(v, x), sock, b[REQUEST_SIZE..], healthy, space, if room > 0 then room - 1 else 0)
            case Forwarded =>
              var r := RecvAll(Take(v, x), sock, b[REQUEST_SIZE..], healthy, if space > 0 then space - 1 else 0, room);
              r.(forwarded := (if x.frame.Some? then [x.frame.value.request] else []) + r.forwarded)
  {
  }

  lemma SameInput(sock: Socket, a: seq<Wire.byte>, b: seq<Wire.byte>, healthy: set<Socket>, space: nat, room: nat)
    requires |a| >= REQUEST_SIZE == Wire.SizeOf(Wire.REQUEST)
    ensures InputOf(sock, a + b, healthy, space, room) == InputOf(sock, a, healthy, space, room)
    ensures (a + b)[REQUEST_SIZE..] == a[REQUEST_SIZE..] + b
  {
    hide ToFrame;
    assert (a + b)[..REQUEST_SIZE] == a[..REQUEST_SIZE];
  }

  class OrderServer {
    const sequencer: FIFOSequencer
    var cidTcpSocket: map<ClientId, Socket>
    var socketClient: map<Socket, ClientId>
    var cidSessionEpoch: map<ClientId, nat>
    var cidSessionUnknown: set<ClientId>
    var cidNextExpSeqNum: map<ClientId, nat>
    var cidNextOutgoingSeqNum: map<ClientId, nat>
    var anonymousSequences: map<Socket, nat>

    /** Every number consumed so far. */
    ghost var log: seq<Entry>

    function Sessions(): SessionSpec.Sessions
      reads this
    {
      SessionSpec.Sessions(cidTcpSocket, socketClient, cidSessionEpoch, cidSessionUnknown, cidNextExpSeqNum,
                           cidNextOutgoingSeqNum, anonymousSequences)
    }

    ghost function Contents(): Server
      reads this
    {
      Server(Sessions(), log)
    }

    constructor (sequencer: FIFOSequencer)
      ensures Contents() == FRESH && this.sequencer == sequencer
    {
      this.sequencer := sequencer;
      cidTcpSocket, socketClient, cidSessionEpoch, cidSessionUnknown := map[], map[], map[], {};
      cidNextExpSeqNum, cidNextOutgoingSeqNum, anonymousSequences := map[], map[], map[];
      log := [];
    }

    method DoReject(sock: Socket, fits: bool) returns (sent: bool)
      modifies `cidNextOutgoingSeqNum, `anonymousSequences
      ensures Sessions() == Reject(old(Sessions()), sock, fits) && sent == fits
    {
      if sock in socketClient {
        if fits {
          var c := socketClient[sock];
          cidNextOutgoingSeqNum := cidNextOutgoingSeqNum[c := At(cidNextOutgoingSeqNum, c) + 1];
        }
      } else {
        if sock !in anonymousSequences { anonymousSequences := anonymousSequences[sock := 1]; }
        if fits { anonymousSequences := anonymousSequences[sock := anonymousSequences[sock] + 1]; }
        assert !fits && sock in old(anonymousSequences) ==>
          anonymousSequences[sock := anonymousSequences[sock]] == anonymousSequences;
      }
      sent := fits;
    }

    method DoBind(sock: Socket, f: Frame)
      modifies this
      ensures Sessions() == Bind(old(Sessions()), sock, f) && log == old(log)
    {
      var c := f.request.client;
      if c !in cidTcpSocket {
        cidTcpSocket := cidTcpSocket[c := sock];
        cidSessionEpoch := cidSessionEpoch[c := f.epoch];
        socketClient := socketClient[sock := c];
        if sock !in anonymousSequences { anonymousSequences := anonymousSequences[sock := 1]; }
        cidNextOutgoingSeqNum := cidNextOutgoingSeqNum[c := anonymousSequences[sock]];
        assert sock in old(anonymousSequences) ==> anonymousSequences[sock := anonymousSequences[sock]] == anonymousSequences;
      }
    }

    method DoJudge(sock: Socket, d: Option<Frame>, healthy: set<Socket>) returns (reason: RejectReason)
      modifies this
      ensures (Sessions(), reason) == Judge(old(Sessions()), sock, d, healthy) && log == old(log)
    {
      if d.None? {
        return Version;
      }
      var f := d.value;
      var c := f.request.client;
      if c >= ME_MAX_NUM_CLIENTS {
        return InvalidId;
      }
      if sock in socketClient && socketClient[sock] != c {
        return Identity;
      }
      if c in cidTcpSocket && cidTcpSocket[c] != sock {
        if cidTcpSocket[c] !in healthy && f.request.kind.Query? && f.epoch == EpochOf(Sessions(), c) {
          cidTcpSocket := cidTcpSocket[c := sock];
          socketClient := socketClient[sock := c];
          cidSessionUnknown := cidSessionUnknown + {c};
          cidNextExpSeqNum := cidNextExpSeqNum[c := f.seqNum];
          cidNextOutgoingSeqNum := cidNextOutgoingSeqNum[c := 1];
        } else {
          return Identity;
        }
      }
      if c in cidTcpSocket && f.epoch != EpochOf(Sessions(), c) {
        return RejectReason.Session;
      }
      if f.epoch == 0 {
        return RejectReason.Session;
      }
      if f.seqNum != At(cidNextExpSeqNum, c) {
        return Sequence;
      }
      if c in cidSessionUnknown && !f.request.kind.Query? {
        return RejectReason.Session;
      }
      reason := NoReason;
    }

    method Advance(c: ClientId)
      modifies `cidNextExpSeqNum
      ensures Sessions() == Consume(old(Sessions()), c)
    {
      cidNextExpSeqNum := cidNextExpSeqNum[c := At(cidNextExpSeqNum, c) + 1];
    }

    /** One frame: true when it is done with, false when it must stay in the buffer. */
    method OneFrame(sock: Socket, rx: int, d: Option<Frame>, healthy: set<Socket>, fits: bool) returns (fate: Fate)
      requires sequencer.Valid()
      modifies this, sequencer, sequencer.buffer
      ensures sequencer.Valid()
      ensures var accepts := |old(sequencer.Pending())| < ME_MAX_PENDING_REQUESTS;
              var x := Input(sock, d, healthy, accepts, fits);
              && fate == FateOf(old(Contents()), x) && Contents() == Take(old(Contents()), x)
              && (fate.Forwarded? ==> d.Some?)
              && sequencer.Pending() == old(sequencer.Pending())
                                        + (if fate.Forwarded? then [Timed(rx, d.value.request)] else [])
    {
      hide Judge, Bind, Reject, Consume, Validate, SortStable;
      var reason := DoJudge(sock, d, healthy);
      if reason != NoReason || d.None? {
        var sent := DoReject(sock, fits);
        assert d.None? ==> reason == Version by { JudgeNone(old(Sessions()), sock, healthy); }
        return if sent then Refused(reason) else Held;
      }
      var f := d.value;
      var invalid := Validate(f.request);
      if invalid != NoReason {
        DoBind(sock, f);
        var sent := DoReject(sock, fits);
        if !sent {
          return Held;
        }
        Advance(f.request.client);
        fate := Refused(invalid);
      } else {
        var added := sequencer.AddClientRequest(rx, f.request);
        if !added {
          return Held;
        }
        DoBind(sock, f);
        Advance(f.request.client);
        fate := Forwarded;
      }
      log := log + [Entry(f, fate.Forwarded?, f.request.client in cidSessionUnknown)];
    }

    lemma JudgeNone(s: SessionSpec.Sessions, sock: Socket, healthy: set<Socket>)
      ensures Judge(s, sock, None, healthy) == (s, Version)
    {
    }

    /** A response is encoded under its client's next number and epoch, and the number is used up. */
    method SendOne(r: Response, ghost said: seq<Said>) returns (frame: Outbound)
      requires CanSend(Sessions(), r)
      modifies `cidNextOutgoingSeqNum
      ensures SentAs(old(Sessions()), r, frame) && SameRoutes(old(Sessions()), Sessions())
      ensures Line(Contents(), said + [frame.said]) == Happen(Line(old(Contents()), said), Out(r, true))
    {
      frame := OutboundOf(Sessions(), r);
      cidNextOutgoingSeqNum := cidNextOutgoingSeqNum[r.client := frame.said.number + 1];
    }

    /** Sends the responses that wait, in order, until a send buffer is full; the source stops at one that has no
        connection to go to. */
    method SendResponses(responses: LFQueue<Response>, takes: nat, ghost said: seq<Said>)
      returns (running: bool, frames: seq<Outbound>)
      requires responses.Valid() && responses as object != this
      modifies `cidNextOutgoingSeqNum, responses
      ensures responses.Valid() && |frames| <= Min(takes, |old(responses.Contents())|)
      ensures responses.Contents() == old(responses.Contents())[|frames|..]
      ensures var l := Line(old(Contents()), said);
              Line(Contents(), said + AllSaid(frames)) == Answered(l, old(responses.Contents())[..|frames|])
      ensures AllSentAs(old(Sessions()), old(responses.Contents()), frames)
      ensures running ==> |frames| == Min(takes, |old(responses.Contents())|)
      ensures !running ==> |frames| < |old(responses.Contents())|
                           && !CanSend(old(Sessions()), old(responses.Contents())[|frames|])
    {
      hide Happen, Answered, AllSaid, SentAs, AllSentAs, SameRoutes, CanSend, LFQueue.SlotHolds;
      ghost var all, l := responses.Contents(), Line(Contents(), said);
      frames, running := [], true;
      NoneSaid(l, all);
      assert all[..0] == [] && said + [] == said;
      RoutesSame(Sessions(), Sessions());
      var next := responses.Peek();
      while next.Some?
        invariant responses.Valid() && |frames| <= Min(takes, |all|) && responses.Contents() == all[|frames|..] && running
        invariant next == if |frames| < |all| then Some(all[|frames|]) else None
        invariant Line(Contents(), said + AllSaid(frames)) == Answered(l, all[..|frames|])
        invariant SameRoutes(old(Sessions()), Sessions()) && AllSentAs(old(Sessions()), all, frames)
        decreases |all| - |frames|
      {
        var r := next.value;
        CanSendSame(old(Sessions()), Sessions(), r);
        if !CanSend(Sessions(), r) {
          running := false;
          break;
        }
        if |frames| == takes {
          break;
        }
        AnsweredMore(l, all, |frames|);
        ghost var now, before := Sessions(), said + AllSaid(frames);
        var frame := SendOne(r, before);
        SentMore(old(Sessions()), now, all, frames, frame);
        RoutesTwice(old(Sessions()), now, Sessions());
        assert before + [frame.said] == said + (AllSaid(frames) + [frame.said]);
        frames := frames + [frame];
        responses.Pop();
        next := responses.Peek();
      }
    }

    /** Cuts complete frames off the buffer until one must wait, then moves what is left to the front. */
    method RecvCallback(sock: Socket, rx: int, inbound: array<Wire.byte>, valid: nat, healthy: set<Socket>, room: nat)
      returns (left: nat)
      requires sequencer.Valid() && valid <= inbound.Length
      modifies this, sequencer, sequencer.buffer, inbound
      ensures REQUEST_SIZE == Wire.SizeOf(Wire.REQUEST)
      ensures sequencer.Valid() && left <= valid
      ensures var space := ME_MAX_PENDING_REQUESTS - |old(sequencer.Pending())|;
              var r := RecvAll(old(Contents()), sock, old(inbound[..valid]), healthy, space, room);
              && Contents() == r.server && inbound[..left] == r.rest
              && sequencer.Pending() == old(sequencer.Pending()) + TimedAll(rx, r.forwarded)
    {
      hide RecvAll, ToFrame, InputOf, FateOf, Take, SortStable, LFQueue.Valid, Wire.SizeOf, OrderServer.Contents, TimedAll;
      Wire.Sizes();
      ghost var bytes := inbound[..valid];
      ghost var before := sequencer.Pending();
      var consumed, fits := 0, room;
      ghost var forwarded: seq<Request> := [];
      ghost var space: nat := ME_MAX_PENDING_REQUESTS - |before|;
      ghost var all := RecvAll(Contents(), sock, bytes, healthy, space, room);
      ghost var held := false;
      TimedNone(rx);
      assert bytes[0..] == bytes;
      while consumed + REQUEST_SIZE <= valid
        invariant consumed <= valid && inbound[..valid] == bytes && sequencer.Valid() && !held
        invariant sequencer.Pending() == before + TimedAll(rx, forwarded)
        invariant space == ME_MAX_PENDING_REQUESTS - |sequencer.Pending()|
        invariant Continues(all, forwarded, RecvAll(Contents(), sock, bytes[consumed..], healthy, space, fits))
      {
        var d := CutFrame(inbound, valid, consumed);
        ghost var now := Contents();
        FrameOfInput(sock, bytes, consumed, healthy, space, fits);
        RecvStep(now, sock, bytes[consumed..], healthy, space, fits);
        var fate := OneFrame(sock, rx, d, healthy, fits > 0);
        if fate.Held? {
          held := true;
          break;
        }
        assert bytes[consumed..][REQUEST_SIZE..] == bytes[consumed + REQUEST_SIZE..];
        if fate.Refused? {
          fits := if fits > 0 then fits - 1 else 0;
        } else {
          TimedMore(rx, forwarded, d.value.request);
          forwarded := forwarded + [d.value.request];
          space := ME_MAX_PENDING_REQUESTS - |sequencer.Pending()|;
        }
        consumed := consumed + REQUEST_SIZE;
      }
      if !held { RecvShort(Contents(), sock, bytes[consumed..], healthy, space, fits); }
      assert all.forwarded == forwarded && all.rest == bytes[consumed..] && all.server == Contents();
      left := valid - consumed;
      Wire.MoveFront(inbound, consumed, left);
    }
  }

  function AllSaid(frames: seq<Outbound>): seq<Said> {
    if frames == [] then [] else AllSaid(frames[..|frames| - 1]) + [frames[|frames| - 1].said]
  }

  /** The frame carries the response and the epoch of its client's session. */
  predicate SentAs(s: Sessions, r: Response, frame: Outbound) {
    CanSend(s, r) && frame.response == r && frame.epoch == EpochOf(s, r.client)
  }

  predicate AllSentAs(s: Sessions, rs: seq<Response>, frames: seq<Outbound>) {
    |frames| <= |rs| && forall i :: 0 <= i < |frames| ==> SentAs(s, rs[i], frames[i])
  }

  /** All but the numbers sent is as it was. */
  predicate SameRoutes(s: Sessions, s': Sessions) { s' == s.(outgoing := s'.outgoing) }

  lemma RoutesSame(s: Sessions, s': Sessions)
    requires s == s'
    ensures SameRoutes(s, s')
  {
  }

  lemma RoutesTwice(s: Sessions, s': Sessions, s'': Sessions)
    requires SameRoutes(s, s') && SameRoutes(s', s'')
    ensures SameRoutes(s, s'')
  {
  }

  lemma CanSendSame(s: Sessions, s': Sessions, r: Response)
    requires SameRoutes(s, s')
    ensures CanSend(s, r) <==> CanSend(s', r)
  {
  }

  lemma SentMore(s: Sessions, s': Sessions, rs: seq<Response>, frames: seq<Outbound>, frame: Outbound)
    requires SameRoutes(s, s') && AllSentAs(s, rs, frames) && |frames| < |rs| && SentAs(s', rs[|frames|], frame)
    ensures AllSentAs(s, rs, frames + [frame])
    ensures AllSaid(frames + [frame]) == AllSaid(frames) + [frame.said]
  {
    hide AllSaid;
    AllSaidMore(frames, frame);
  }

  lemma AllSaidMore(frames: seq<Outbound>, frame: Outbound)
    ensures AllSaid(frames + [frame]) == AllSaid(frames) + [frame.said]
  {
    assert (frames + [frame])[..|frames|] == frames;
  }

  lemma NoneSaid(l: Line, rs: seq<Response>)
    ensures AllSaid([]) == [] && Answered(l, []) == l && forall s :: AllSentAs(s, rs, [])
  {
  }

  /** The frame at one place of the buffer. */
  method CutFrame(inbound: array<Wire.byte>, valid: nat, at: nat) returns (d: Option<Frame>)
    requires at + REQUEST_SIZE <= valid <= inbound.Length && REQUEST_SIZE == Wire.SizeOf(Wire.REQUEST)
    ensures d == ToFrame(inbound[..valid][at..at + REQUEST_SIZE])
  {
    hide ToFrame, Wire.SizeOf;
    assert inbound[at..at + REQUEST_SIZE] == inbound[..valid][at..at + REQUEST_SIZE];
    d := ToFrame(inbound[at..at + REQUEST_SIZE]);
  }

  function TimedAll(rx: int, qs: seq<Request>): seq<Timed> {
    if qs == [] then [] else TimedAll(rx, qs[..|qs| - 1]) + [Timed(rx, qs[|qs| - 1])]
  }

  lemma TimedNone(rx: int)
    ensures TimedAll(rx, []) == []
  {
  }

  lemma TimedMore(rx: int, qs: seq<Request>, q: Request)
    ensures TimedAll(rx, qs + [q]) == TimedAll(rx, qs) + [Timed(rx, q)]
  {
    assert (qs + [q])[..|qs|] == qs;
  }

  /** The whole callback is what was forwarded so far, followed by the rest of it. */
  ghost predicate Continues(all: Received, forwarded: seq<Request>, rest: Received) {
    all == rest.(forwarded := forwarded + rest.forwarded)
  }

  lemma FrameOfInput(sock: Socket, bytes: seq<Wire.byte>, consumed: nat, healthy: set<Socket>, space: nat, room: nat)
    requires consumed + REQUEST_SIZE <= |bytes| && REQUEST_SIZE == Wire.SizeOf(Wire.REQUEST)
    ensures InputOf(sock, bytes[consumed..], healthy, space, room)
         == Input(sock, ToFrame(bytes[consumed..consumed + REQUEST_SIZE]), healthy, space > 0, room > 0)
  {
    hide ToFrame;
    assert bytes[consumed..][..REQUEST_SIZE] == bytes[consumed..consumed + REQUEST_SIZE];
  }
}
