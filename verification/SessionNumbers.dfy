/**
 What a connection hears: rejections from the order server and responses from the matching engine, under one count.
*/
module SessionNumbers {
  import opened Types
  import opened EngineSpec
  import opened SessionSpec
  import opened SessionLive

  /** A frame comes in, or the oldest response goes out to its client, if the send buffer takes it. */
  datatype Happening = In(input: Input) | Out(response: Response, taken: bool)

  /** The number of the next frame that the connection will hear. */
  function NextOn(s: Sessions, sock: Socket): nat {
    if sock in s.clientOf then At(s.outgoing, s.clientOf[sock]) else if sock in s.anonymous then s.anonymous[sock] else 1
  }

  /** Who hears what: the connection and the number. */
  datatype Said = Said(sock: Socket, number: nat)

  /** The source stops when a response has no connection to go to. */
  predicate CanSend(s: Sessions, r: Response) { r.client < ME_MAX_NUM_CLIENTS && r.client in s.socketOf }

  function Responded(s: Sessions, c: ClientId): Sessions { s.(outgoing := s.outgoing[c := At(s.outgoing, c) + 1]) }

  /** The fate of a frame, as the log and the sessions show it: an explicit rejection is sent. */
  predicate RejectedHere(v: Server, x: Input) {
    HandleFrame(v.sessions, x.sock, x.frame, x.healthy, x.accepts, x.fits).1.Refused?
  }

  /** The server and all numbers sent so far. */
  datatype Line = Line(server: Server, said: seq<Said>)

  function Happen(l: Line, h: Happening): Line {
    match h
    case In(x) =>
      var v := Take(l.server, x);
      Line(v, if RejectedHere(l.server, x) then l.said + [Said(x.sock, NextOn(v.sessions, x.sock) - 1)] else l.said)
    case Out(r, taken) =>
      if !CanSend(l.server.sessions, r) || !taken then l
      else
        Line(l.server.(sessions := Responded(l.server.sessions, r.client)),
             l.said + [Said(l.server.sessions.socketOf[r.client], At(l.server.sessions.outgoing, r.client))])
  }

  /** A response as it is sent. */
  datatype Outbound = Outbound(said: Said, epoch: nat, response: Response)

  function OutboundOf(s: Sessions, r: Response): Outbound
    requires CanSend(s, r)
  {
    Outbound(Said(s.socketOf[r.client], At(s.outgoing, r.client)), EpochOf(s, r.client), r)
  }

  /** All of these responses sent, one after the other. */
  function Answered(l: Line, rs: seq<Response>): Line {
    if rs == [] then l else Happen(Answered(l, rs[..|rs| - 1]), Out(rs[|rs| - 1], true))
  }

  lemma AnsweredMore(l: Line, rs: seq<Response>, k: nat)
    requires k < |rs|
    ensures Answered(l, rs[..k + 1]) == Happen(Answered(l, rs[..k]), Out(rs[k], true))
  {
    hide Happen;
    assert rs[..k + 1][..k] == rs[..k];
  }

  // ------------------------------------------------------------------ one count per connection

  /** Nobody has taken over from this connection, nor has it taken over. */
  predicate Plain(s: Sessions, sock: Socket) { sock in s.clientOf ==> s.clientOf[sock] !in s.unknown }

  /** A client that was not taken over has one connection, and counts start at one. */
  ghost predicate Single(s: Sessions) {
    && (forall sock :: sock in s.clientOf && Plain(s, sock) ==>
          s.clientOf[sock] in s.socketOf && s.socketOf[s.clientOf[sock]] == sock)
    && (forall sock :: sock in s.anonymous ==> s.anonymous[sock] >= 1)
    && (forall c :: c in s.outgoing ==> s.outgoing[c] >= 1)
  }

  /** Counts of connections no other than `sock` are as they were, and `sock` has counted `n` more. */
  ghost predicate Counted(s: Sessions, s': Sessions, sock: Socket, n: nat) {
    && (Plain(s', sock) ==> Plain(s, sock) && NextOn(s', sock) == NextOn(s, sock) + n)
    && (forall x :: x != sock && Plain(s', x) ==> Plain(s, x) && NextOn(s', x) == NextOn(s, x))
  }

  /** A query that takes over leaves its client unknown, and no other connection's count changes. */
  lemma TakeOverCounts(s: Sessions, sock: Socket, f: Frame, healthy: set<Socket>)
    requires Paired(s) && Single(s) && MayTakeOver(s, sock, f, healthy)
    ensures var s' := TakeOver(s, sock, f); Single(s') && Counted(s, s', sock, 0)
  {
    hide Paired;
    TakeOverOthers(s, sock, f, healthy);
  }

  lemma TakeOverOthers(s: Sessions, sock: Socket, f: Frame, healthy: set<Socket>)
    requires Paired(s) && MayTakeOver(s, sock, f, healthy)
    ensures sock in s.clientOf ==> s.clientOf[sock] == f.request.client
    ensures s.socketOf[f.request.client] in s.clientOf && s.clientOf[s.socketOf[f.request.client]] == f.request.client
  {
  }

  lemma SameCounts(s: Sessions, sock: Socket)
    ensures Counted(s, s, sock, 0)
  {
    hide NextOn, Plain;
  }

  lemma JudgeCounts(s: Sessions, x: Input)
    requires Paired(s) && Single(s)
    ensures var s' := Judge(s, x.sock, x.frame, x.healthy).0; Single(s') && Counted(s, s', x.sock, 0)
  {
    hide Paired, Single, Counted, TakeOver, MayTakeOver;
    SameCounts(s, x.sock);
    if x.frame.Some? && MayTakeOver(s, x.sock, x.frame.value, x.healthy) {
      TakeOverCounts(s, x.sock, x.frame.value, x.healthy);
    }
  }

  lemma BindCounts(s: Sessions, x: Input)
    requires Paired(s) && Single(s) && x.frame.Some? && Judge(s, x.sock, x.frame, x.healthy) == (s, NoReason)
    ensures var s' := Bind(s, x.sock, x.frame.value); Single(s') && Counted(s, s', x.sock, 0)
  {
    hide Single, Counted, Judge;
    SameCounts(s, x.sock);
    if x.frame.value.request.client !in s.socketOf {
      NewlyBound(s, x);
      BindNewCounts(s, x.sock, x.frame.value);
    }
  }

  lemma NewlyBound(s: Sessions, x: Input)
    requires Paired(s) && Single(s) && x.frame.Some? && Judge(s, x.sock, x.frame, x.healthy) == (s, NoReason)
    requires x.frame.value.request.client !in s.socketOf
    ensures x.sock !in s.clientOf
    ensures forall y :: y in s.clientOf ==> s.clientOf[y] != x.frame.value.request.client
  {
    hide Judge, NextOn;
    forall y | y in s.clientOf ensures s.clientOf[y] != x.frame.value.request.client {
      if s.clientOf[y] !in s.unknown { PlainlyBound(s, y); }
    }
    if x.sock in s.clientOf && s.clientOf[x.sock] != x.frame.value.request.client { OtherClient(s, x); }
  }

  lemma PlainlyBound(s: Sessions, sock: Socket)
    requires Single(s) && sock in s.clientOf && s.clientOf[sock] !in s.unknown
    ensures s.clientOf[sock] in s.socketOf
  {
  }

  lemma OtherClient(s: Sessions, x: Input)
    requires x.frame.Some? && x.sock in s.clientOf && s.clientOf[x.sock] != x.frame.value.request.client
    ensures Judge(s, x.sock, x.frame, x.healthy).1 != NoReason
  {
  }

  lemma BindNewCounts(s: Sessions, sock: Socket, f: Frame)
    requires Single(s) && f.request.client !in s.socketOf && sock !in s.clientOf
    requires forall y :: y in s.clientOf ==> s.clientOf[y] != f.request.client
    ensures Single(Bind(s, sock, f)) && Counted(s, Bind(s, sock, f), sock, 0)
  {
  }

  lemma RejectCounts(s: Sessions, sock: Socket, fits: bool)
    requires Single(s)
    ensures var s' := Reject(s, sock, fits); Single(s') && Counted(s, s', sock, if fits then 1 else 0)
  {
  }

  lemma ConsumeCounts(s: Sessions, c: ClientId, sock: Socket)
    requires Single(s)
    ensures Single(Consume(s, c)) && Counted(s, Consume(s, c), sock, 0)
  {
  }

  lemma CountedOn(s: Sessions, s1: Sessions, s2: Sessions, sock: Socket, n: nat, m: nat)
    requires Counted(s, s1, sock, n) && Counted(s1, s2, sock, m)
    ensures Counted(s, s2, sock, n + m)
  {
    hide NextOn;
  }

  lemma TakeCounts(v: Server, x: Input)
    requires Paired(v.sessions) && Single(v.sessions)
    ensures var s' := Take(v, x).sessions;
            Single(s') && Counted(v.sessions, s', x.sock, if RejectedHere(v, x) then 1 else 0)
  {
    hide Paired, Single, Counted, Judge, Bind, Reject, Consume, Validate;
    var s := v.sessions;
    JudgePaired(s, x);
    TakeOverOnce(s, x.sock, x.frame, x.healthy);
    JudgeCounts(s, x);
    var (s1, reason) := Judge(s, x.sock, x.frame, x.healthy);
    if reason != NoReason || x.frame.None? {
      RejectCounts(s1, x.sock, x.fits);
      CountedOn(s, s1, Reject(s1, x.sock, x.fits), x.sock, 0, if x.fits then 1 else 0);
    } else {
      var f := x.frame.value;
      var c, b := f.request.client, Bind(s1, x.sock, f);
      BindCounts(s1, x);
      CountedOn(s, s1, b, x.sock, 0, 0);
      if Validate(f.request) != NoReason {
        var r := Reject(b, x.sock, x.fits);
        RejectCounts(b, x.sock, x.fits);
        CountedOn(s, b, r, x.sock, 0, if x.fits then 1 else 0);
        ConsumeCounts(r, c, x.sock);
        CountedOn(s, r, Consume(r, c), x.sock, if x.fits then 1 else 0, 0);
      } else {
        ConsumeCounts(b, c, x.sock);
        CountedOn(s, b, Consume(b, c), x.sock, 0, 0);
      }
    }
  }

  lemma RespondedCounts(s: Sessions, c: ClientId)
    requires Paired(s) && Single(s) && c in s.socketOf
    ensures Paired(Responded(s, c)) && Single(Responded(s, c)) && Counted(s, Responded(s, c), s.socketOf[c], 1)
    ensures NextOn(s, s.socketOf[c]) == At(s.outgoing, c)
  {
  }

  /** The numbers a connection has heard, in order. */
  function Heard(said: seq<Said>, sock: Socket): seq<nat> {
    if said == [] then []
    else
      var x := said[|said| - 1];
      Heard(said[..|said| - 1], sock) + (if x.sock == sock then [x.number] else [])
  }

  lemma HeardMore(said: seq<Said>, x: Said, sock: Socket)
    ensures Heard(said + [x], sock) == Heard(said, sock) + (if x.sock == sock then [x.number] else [])
  {
    assert (said + [x])[..|said|] == said;
  }

  /** Heard one, two, three and so on, up to the number before the next. */
  predicate InOrderOn(l: Line, sock: Socket) {
    OneTwoThree(Heard(l.said, sock)) && |Heard(l.said, sock)| + 1 == NextOn(l.server.sessions, sock)
  }

  ghost predicate LineInv(l: Line) {
    && Paired(l.server.sessions) && Single(l.server.sessions)
    && forall sock :: Plain(l.server.sessions, sock) ==> InOrderOn(l, sock)
  }

  lemma SaidKeeps(l: Line, v: Server, sock: Socket, number: nat)
    requires LineInv(l) && Paired(v.sessions) && Single(v.sessions) && Counted(l.server.sessions, v.sessions, sock, 1)
    requires number == NextOn(v.sessions, sock) - 1
    ensures LineInv(Line(v, l.said + [Said(sock, number)]))
  {
    hide NextOn, Paired, Single, Heard, Plain;
    var l' := Line(v, l.said + [Said(sock, number)]);
    forall x | Plain(v.sessions, x) ensures InOrderOn(l', x) {
      HeardMore(l.said, Said(sock, number), x);
      assert InOrderOn(l, x);
    }
  }

  lemma SilentKeeps(l: Line, v: Server, sock: Socket)
    requires LineInv(l) && Paired(v.sessions) && Single(v.sessions) && Counted(l.server.sessions, v.sessions, sock, 0)
    ensures LineInv(Line(v, l.said))
  {
    hide NextOn, Paired, Single, Heard, Plain;
    forall x | Plain(v.sessions, x) ensures InOrderOn(Line(v, l.said), x) { assert InOrderOn(l, x); }
  }

  lemma NumberPositive(s: Sessions, sock: Socket)
    requires Single(s)
    ensures NextOn(s, sock) >= 1
  {
  }

  lemma HappenKeeps(l: Line, h: Happening)
    requires LineInv(l)
    ensures LineInv(Happen(l, h))
  {
    hide LineInv, Paired, Single, Counted, Take, RejectedHere, NextOn;
    LineIs(l);
    match h
    case In(x) =>
      TakePaired(l.server, x);
      TakeCounts(l.server, x);
      NumberPositive(Take(l.server, x).sessions, x.sock);
      if RejectedHere(l.server, x) {
        SaidKeeps(l, Take(l.server, x), x.sock, NextOn(Take(l.server, x).sessions, x.sock) - 1);
      } else {
        SilentKeeps(l, Take(l.server, x), x.sock);
      }
    case Out(r, taken) =>
      var s := l.server.sessions;
      if CanSend(s, r) && taken {
        RespondedCounts(s, r.client);
        RespondedNext(s, r.client);
        SaidKeeps(l, l.server.(sessions := Responded(s, r.client)), s.socketOf[r.client], At(s.outgoing, r.client));
      }
  }

  lemma RespondedNext(s: Sessions, c: ClientId)
    requires Paired(s) && c in s.socketOf
    ensures NextOn(Responded(s, c), s.socketOf[c]) == At(s.outgoing, c) + 1
  {
  }

  lemma LineIs(l: Line)
    requires LineInv(l)
    ensures Paired(l.server.sessions) && Single(l.server.sessions)
  {
    hide Paired, Single;
  }

  function HappenAll(hs: seq<Happening>): Line {
    if hs == [] then Line(FRESH, []) else Happen(HappenAll(hs[..|hs| - 1]), hs[|hs| - 1])
  }

  lemma {:induction false} LineHolds(hs: seq<Happening>)
    ensures LineInv(HappenAll(hs))
    decreases |hs|
  {
    hide Happen;
    if hs == [] {
      FreshLine();
    } else {
      hide LineInv;
      LineHolds(hs[..|hs| - 1]);
      HappenKeeps(HappenAll(hs[..|hs| - 1]), hs[|hs| - 1]);
    }
  }

  lemma FreshLine()
    ensures LineInv(Line(FRESH, []))
  {
  }

  /** In any history of frames and responses, of rejections before a client is bound and after, and of full buffers: a
      connection that is not part of a take-over hears frames numbered one, two, three and so on; so the client can
      tell a missing frame from a repeated one. */
  lemma ConnectionsCount(hs: seq<Happening>, sock: Socket)
    requires Plain(HappenAll(hs).server.sessions, sock)
    ensures OneTwoThree(Heard(HappenAll(hs).said, sock))
    ensures |Heard(HappenAll(hs).said, sock)| + 1 == NextOn(HappenAll(hs).server.sessions, sock)
  {
    LineHolds(hs);
    assert InOrderOn(HappenAll(hs), sock);
  }

  /** A response goes out on its client's connection, under the next number, whenever the buffer takes it. */
  lemma ResponseIsSent(hs: seq<Happening>, r: Response)
    requires r.client < ME_MAX_NUM_CLIENTS && r.client in HappenAll(hs).server.sessions.socketOf
    ensures var l := HappenAll(hs); var s := l.server.sessions;
            Happen(l, Out(r, true)).said == l.said + [Said(s.socketOf[r.client], NextOn(s, s.socketOf[r.client]))]
    ensures Happen(HappenAll(hs), Out(r, false)) == HappenAll(hs)
  {
    LineHolds(hs);
    hide HappenAll, Heard;
  }
}
