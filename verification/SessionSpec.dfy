/** The order server's sessions: what `recvCallback` does with one frame, and what holds of any history of them. */
module SessionSpec {
  import opened Types
  import opened EngineSpec

  type Socket = nat

  /** `OMClientRequest`. */
  datatype Frame = Frame(seqNum: nat, epoch: nat, request: Request)

  /** Per client: its socket if bound, epoch, whether the session is unknown, expected and outgoing numbers.
      Per socket: its client if bound, otherwise an outgoing number of its own. */
  datatype Sessions = Sessions(
    socketOf: map<ClientId, Socket>, clientOf: map<Socket, ClientId>, epoch: map<ClientId, nat>,
    unknown: set<ClientId>, expected: map<ClientId, nat>, outgoing: map<ClientId, nat>, anonymous: map<Socket, nat>)

  const NO_SESSIONS := Sessions(map[], map[], map[], {}, map[], map[], map[])

  /** Numbers start at one. */
  function At(m: map<ClientId, nat>, c: ClientId): nat { if c in m then m[c] else 1 }

  function EpochOf(s: Sessions, c: ClientId): nat { if c in s.epoch then s.epoch[c] else 0 }

  /** What happens to a frame: to the sequencer, explicitly rejected, or left in the buffer. */
  datatype Fate = Forwarded | Refused(reason: RejectReason) | Held

  /** A query may take a dead connection's place; the session then stays unknown. */
  function TakeOver(s: Sessions, sock: Socket, f: Frame): Sessions {
    var c := f.request.client;
    s.(socketOf := s.socketOf[c := sock], clientOf := s.clientOf[sock := c], unknown := s.unknown + {c},
       expected := s.expected[c := f.seqNum], outgoing := s.outgoing[c := 1])
  }

  predicate MayTakeOver(s: Sessions, sock: Socket, f: Frame, healthy: set<Socket>) {
    var c := f.request.client;
    && c in s.socketOf && s.socketOf[c] != sock && s.socketOf[c] !in healthy && f.request.kind.Query?
    && f.epoch == EpochOf(s, c) && !(sock in s.clientOf && s.clientOf[sock] != c)
  }

  /** The checks before the request itself is looked at. */
  function Judge(s: Sessions, sock: Socket, d: Option<Frame>, healthy: set<Socket>): (Sessions, RejectReason) {
    match d
    case None => (s, Version)
    case Some(f) =>
      var c := f.request.client;
      if c >= ME_MAX_NUM_CLIENTS then (s, InvalidId)
      else if sock in s.clientOf && s.clientOf[sock] != c then (s, Identity)
      else if c in s.socketOf && s.socketOf[c] != sock && !MayTakeOver(s, sock, f, healthy) then (s, Identity)
      else
        var s' := if c in s.socketOf && s.socketOf[c] != sock then TakeOver(s, sock, f) else s;
        (s', if c in s'.socketOf && f.epoch != EpochOf(s', c) then RejectReason.Session
             else if f.epoch == 0 then RejectReason.Session
             else if f.seqNum != At(s'.expected, c) then Sequence
             else if c in s'.unknown && !f.request.kind.Query? then RejectReason.Session
             else NoReason)
  }

  /** The first accepted frame binds the client to its connection and epoch. */
  function Bind(s: Sessions, sock: Socket, f: Frame): Sessions {
    var c := f.request.client;
    if c in s.socketOf then s
    else s.(socketOf := s.socketOf[c := sock], clientOf := s.clientOf[sock := c], epoch := s.epoch[c := f.epoch],
            outgoing := s.outgoing[c := if sock in s.anonymous then s.anonymous[sock] else 1],
            anonymous := s.anonymous[sock := if sock in s.anonymous then s.anonymous[sock] else 1])
  }

  /** An explicit rejection takes the next outgoing number, if the send buffer has room for it. */
  function Reject(s: Sessions, sock: Socket, fits: bool): Sessions {
    if sock in s.clientOf then
      var c := s.clientOf[sock];
      if fits then s.(outgoing := s.outgoing[c := At(s.outgoing, c) + 1]) else s
    else
      var n := if sock in s.anonymous then s.anonymous[sock] else 1;
      s.(anonymous := s.anonymous[sock := if fits then n + 1 else n])
  }

  function Consume(s: Sessions, c: ClientId): Sessions { s.(expected := s.expected[c := At(s.expected, c) + 1]) }

  /** One complete frame; `accepts`: the sequencer has room, `fits`: the send buffer has room. */
  function HandleFrame(s: Sessions, sock: Socket, d: Option<Frame>, healthy: set<Socket>, accepts: bool, fits: bool)
    : (Sessions, Fate)
  {
    var (s1, reason) := Judge(s, sock, d, healthy);
    if reason != NoReason || d.None? then (Reject(s1, sock, fits), if fits then Refused(reason) else Held)
    else
      var f := d.value;
      var invalid := Validate(f.request);
      if invalid != NoReason then
        var s2 := Reject(Bind(s1, sock, f), sock, fits);
        if fits then (Consume(s2, f.request.client), Refused(invalid)) else (s2, Held)
      else if !accepts then (s1, Held)
      else (Consume(Bind(s1, sock, f), f.request.client), Forwarded)
  }

  // ------------------------------------------------------------------ histories

  /** A number consumed: whether its request went on to matching, and whether the session was already unknown. */
  datatype Entry = Entry(frame: Frame, forwarded: bool, unknown: bool)

  /** The sessions and every number consumed so far. */
  datatype Server = Server(sessions: Sessions, log: seq<Entry>)

  const FRESH := Server(NO_SESSIONS, [])

  /** One frame of any connection, under any pressure downstream. */
  datatype Input = Input(sock: Socket, frame: Option<Frame>, healthy: set<Socket>, accepts: bool, fits: bool)

  /** Only a forwarded request and one refused for its own content consume a number. */
  function Take(v: Server, x: Input): Server {
    var (s', fate) := HandleFrame(v.sessions, x.sock, x.frame, x.healthy, x.accepts, x.fits);
    var consumed := x.frame.Some? && Judge(v.sessions, x.sock, x.frame, x.healthy).1 == NoReason && fate != Held;
    Server(s', if consumed then v.log + [Entry(x.frame.value, fate == Forwarded,
                                               x.frame.value.request.client in s'.unknown)]
               else v.log)
  }

  function TakeAll(xs: seq<Input>): Server {
    if xs == [] then FRESH else Take(TakeAll(xs[..|xs| - 1]), xs[|xs| - 1])
  }

  /** The numbers a client consumed while its session was known. */
  function KnownNumbers(log: seq<Entry>, c: ClientId): seq<nat> {
    if log == [] then []
    else
      var e := log[|log| - 1];
      KnownNumbers(log[..|log| - 1], c) + (if e.frame.request.client == c && !e.unknown then [e.frame.seqNum] else [])
  }

  predicate OneTwoThree(s: seq<nat>) { forall i :: 0 <= i < |s| ==> s[i] == i + 1 }

  ghost predicate EntryOk(s: Sessions, e: Entry) {
    var c := e.frame.request.client;
    && c in s.socketOf && e.frame.epoch == EpochOf(s, c) && e.frame.epoch != 0
    && (e.unknown ==> c in s.unknown)
    && (e.forwarded && e.unknown ==> e.frame.request.kind.Query?)
  }

  ghost predicate ClientOk(v: Server, c: ClientId) {
    && OneTwoThree(KnownNumbers(v.log, c))
    && (c !in v.sessions.unknown ==> At(v.sessions.expected, c) == |KnownNumbers(v.log, c)| + 1)
    && (c in v.sessions.unknown ==> c in v.sessions.socketOf)
  }

  ghost predicate ServerInv(v: Server) {
    && (forall i :: 0 <= i < |v.log| ==> EntryOk(v.sessions, v.log[i]))
    && (forall c: ClientId :: ClientOk(v, c))
  }

  /** How one frame may change the sessions, apart from numbers sent: a bound client keeps its epoch, an
      unknown session stays unknown. */
  ghost predicate Grows(s: Sessions, s': Sessions) {
    && s.socketOf.Keys <= s'.socketOf.Keys && s.unknown <= s'.unknown
    && (forall c :: c in s.socketOf ==> EpochOf(s', c) == EpochOf(s, c))
  }

  lemma JudgeGrows(s: Sessions, x: Input)
    ensures Grows(s, Judge(s, x.sock, x.frame, x.healthy).0)
  {
  }

  /** Rejecting moves only outgoing numbers. */
  lemma RejectKeeps(s: Sessions, sock: Socket, fits: bool)
    ensures var r := Reject(s, sock, fits);
            && r.socketOf == s.socketOf && r.clientOf == s.clientOf && r.epoch == s.epoch && r.unknown == s.unknown
            && r.expected == s.expected
  {
  }

  lemma BindGrows(s: Sessions, sock: Socket, f: Frame)
    ensures Grows(s, Bind(s, sock, f))
    ensures var r := Bind(s, sock, f); r.unknown == s.unknown && r.expected == s.expected
  {
  }

  lemma HandleGrows(s: Sessions, x: Input)
    ensures Grows(s, HandleFrame(s, x.sock, x.frame, x.healthy, x.accepts, x.fits).0)
  {
    hide Judge, Bind, Reject;
    JudgeGrows(s, x);
    var s1 := Judge(s, x.sock, x.frame, x.healthy).0;
    RejectKeeps(s1, x.sock, x.fits);
    if x.frame.Some? {
      BindGrows(s1, x.sock, x.frame.value);
      RejectKeeps(Bind(s1, x.sock, x.frame.value), x.sock, x.fits);
    }
  }

  /** What a frame that consumes a number satisfies, and what it does to its client. */
  lemma ConsumedIs(s: Sessions, x: Input)
    requires x.frame.Some? && Judge(s, x.sock, x.frame, x.healthy).1 == NoReason
    requires HandleFrame(s, x.sock, x.frame, x.healthy, x.accepts, x.fits).1 != Held
    ensures var (s', fate) := HandleFrame(s, x.sock, x.frame, x.healthy, x.accepts, x.fits);
            var f := x.frame.value; var c := f.request.client;
            && c in s'.socketOf && f.epoch == EpochOf(s', c) && f.epoch != 0
            && At(s'.expected, c) == f.seqNum + 1
            && (c !in s'.unknown ==> c !in s.unknown && f.seqNum == At(s.expected, c))
            && (c in s'.unknown ==> f.request.kind.Query?)
  {
    hide Judge, Bind, Reject;
    JudgedIs(s, x);
    var s1 := Judge(s, x.sock, x.frame, x.healthy).0;
    BindGrows(s1, x.sock, x.frame.value);
    RejectKeeps(Bind(s1, x.sock, x.frame.value), x.sock, x.fits);
    BindIs(s1, x.sock, x.frame.value);
  }

  /** What the checks leave true of a frame that passes them. */
  lemma JudgedIs(s: Sessions, x: Input)
    requires x.frame.Some? && Judge(s, x.sock, x.frame, x.healthy).1 == NoReason
    ensures var s1 := Judge(s, x.sock, x.frame, x.healthy).0;
            var f := x.frame.value; var c := f.request.client;
            && (c in s1.socketOf ==> f.epoch == EpochOf(s1, c)) && f.epoch != 0
            && At(s1.expected, c) == f.seqNum
            && (c !in s1.unknown ==> c !in s.unknown && f.seqNum == At(s.expected, c))
            && (c in s1.unknown ==> f.request.kind.Query?)
  {
  }

  lemma BindIs(s: Sessions, sock: Socket, f: Frame)
    ensures var c := f.request.client;
            && c in Bind(s, sock, f).socketOf
            && EpochOf(Bind(s, sock, f), c) == if c in s.socketOf then EpochOf(s, c) else f.epoch
  {
  }

  /** A client whose number was not consumed keeps its expected number, except that a take-over by query
      adopts the query's. */
  lemma JudgeTouches(s: Sessions, x: Input, c: ClientId)
    ensures var s' := Judge(s, x.sock, x.frame, x.healthy).0;
            || (At(s'.expected, c) == At(s.expected, c) && (c in s'.unknown <==> c in s.unknown))
            || (x.frame.Some? && x.frame.value.request.client == c && c in s'.unknown && c in s'.socketOf
                && At(s'.expected, c) == x.frame.value.seqNum)
  {
  }

  lemma OthersUntouched(s: Sessions, x: Input, c: ClientId)
    ensures var (s', fate) := HandleFrame(s, x.sock, x.frame, x.healthy, x.accepts, x.fits);
            var about := x.frame.Some? && x.frame.value.request.client == c;
            var judged := x.frame.Some? && Judge(s, x.sock, x.frame, x.healthy).1 == NoReason;
            && (!(about && judged && fate != Held) ==>
                  || (At(s'.expected, c) == At(s.expected, c) && (c in s'.unknown <==> c in s.unknown))
                  || (about && c in s'.unknown && c in s'.socketOf && At(s'.expected, c) == x.frame.value.seqNum))
  {
    hide Judge, Bind, Reject;
    JudgeTouches(s, x, c);
    var s1 := Judge(s, x.sock, x.frame, x.healthy).0;
    RejectKeeps(s1, x.sock, x.fits);
    if x.frame.Some? {
      BindGrows(s1, x.sock, x.frame.value);
      RejectKeeps(Bind(s1, x.sock, x.frame.value), x.sock, x.fits);
    }
  }

  lemma TakeKeepsClient(v: Server, x: Input, c: ClientId)
    requires ServerInv(v)
    ensures ClientOk(Take(v, x), c)
  {
    hide HandleFrame, Judge, EntryOk;
    assert ClientOk(v, c);
    HandleGrows(v.sessions, x);
    OthersUntouched(v.sessions, x, c);
    var v' := Take(v, x);
    if v'.log != v.log {
      ConsumedIs(v.sessions, x);
      assert v'.log[..|v'.log| - 1] == v.log;
    }
  }

  lemma TakeKeeps(v: Server, x: Input)
    requires ServerInv(v)
    ensures ServerInv(Take(v, x))
  {
    var v' := Take(v, x);
    HandleGrows(v.sessions, x);
    hide HandleFrame, Judge, ClientOk;
    forall c: ClientId ensures ClientOk(v', c) { TakeKeepsClient(v, x, c); }
    forall i | 0 <= i < |v'.log| ensures EntryOk(v'.sessions, v'.log[i]) {
      if i < |v.log| { assert EntryOk(v.sessions, v.log[i]); } else { ConsumedIs(v.sessions, x); }
    }
  }

  lemma {:induction false} HistoryInv(xs: seq<Input>)
    ensures ServerInv(TakeAll(xs))
  {
    if xs != [] {
      hide ServerInv, Take;
      HistoryInv(xs[..|xs| - 1]);
      TakeKeeps(TakeAll(xs[..|xs| - 1]), xs[|xs| - 1]);
    } else {
      forall c: ClientId ensures ClientOk(FRESH, c) {}
    }
  }

  /** The frames a client has consumed all carry one epoch; the numbers it consumed before a take-over are exactly
      1, 2, 3 and so on; and after a take-over only queries are forwarded. */
  ghost predicate SafeLog(log: seq<Entry>, c: ClientId) {
    && OneTwoThree(KnownNumbers(log, c))
    && (forall i, j :: 0 <= i < |log| && 0 <= j < |log| && log[i].frame.request.client == c == log[j].frame.request.client
                       ==> log[i].frame.epoch == log[j].frame.epoch != 0)
    && (forall i :: 0 <= i < |log| && log[i].forwarded && log[i].unknown ==> log[i].frame.request.kind.Query?)
  }

  /** That holds over any interleaving of connections and under any pressure. */
  lemma SessionsAreSafe(xs: seq<Input>, c: ClientId)
    ensures SafeLog(TakeAll(xs).log, c)
  {
    HistoryInv(xs);
    var v := TakeAll(xs);
    assert ClientOk(v, c);
    hide TakeAll, ClientOk, EpochOf;
    forall i | 0 <= i < |v.log| ensures EntryOk(v.sessions, v.log[i]) {}
  }

  /** A frame held back by pressure stays unconsumed: nothing is logged, and the expected number does not
      advance (a take-over adopts the frame's own number, so the frame still fits when it is tried again). */
  lemma HeldIsRetried(v: Server, x: Input)
    requires HandleFrame(v.sessions, x.sock, x.frame, x.healthy, x.accepts, x.fits).1 == Held
    ensures Take(v, x).log == v.log
    ensures x.frame.Some? ==>
              var c := x.frame.value.request.client;
              At(Take(v, x).sessions.expected, c) == At(v.sessions.expected, c)
              || At(Take(v, x).sessions.expected, c) == x.frame.value.seqNum
    ensures x.frame.Some? && Judge(v.sessions, x.sock, x.frame, x.healthy).1 == NoReason ==>
              Judge(Take(v, x).sessions, x.sock, x.frame, x.healthy).1 == NoReason
  {
  }

  lemma TakeOverOnce(s: Sessions, sock: Socket, d: Option<Frame>, healthy: set<Socket>)
    ensures var (s1, reason) := Judge(s, sock, d, healthy); Judge(s1, sock, d, healthy) == (s1, reason)
  {
  }

  /** Numbers on other sockets do not enter the checks. */
  lemma JudgeIgnores(s: Sessions, sock: Socket, d: Option<Frame>, healthy: set<Socket>, anonymous: map<Socket, nat>)
    requires Judge(s, sock, d, healthy).0 == s
    ensures Judge(s.(anonymous := anonymous), sock, d, healthy) == (s.(anonymous := anonymous), Judge(s, sock, d, healthy).1)
  {
  }

  /** A rejection that does not fit can be tried any number of times. */
  lemma RejectAgain(s: Sessions, sock: Socket)
    ensures var r := Reject(s, sock, false); Reject(r, sock, false) == r && r == s.(anonymous := r.anonymous)
  {
    var r := Reject(s, sock, false);
    if sock !in s.clientOf { assert r.anonymous[sock := r.anonymous[sock]] == r.anonymous; }
  }

  /** A client just bound passes the same checks again. */
  lemma BoundAgain(s: Sessions, sock: Socket, f: Frame, healthy: set<Socket>)
    requires Judge(s, sock, Some(f), healthy) == (s, NoReason)
    ensures var b := Bind(s, sock, f);
            Judge(b, sock, Some(f), healthy) == (b, NoReason) && f.request.client in b.socketOf
  {
  }

  lemma BindBound(s: Sessions, sock: Socket, f: Frame)
    requires f.request.client in s.socketOf
    ensures Bind(s, sock, f) == s
  {
  }

  lemma HeldSessions(s: Sessions, x: Input)
    requires HandleFrame(s, x.sock, x.frame, x.healthy, x.accepts, x.fits).1 == Held
    ensures var s' := HandleFrame(s, x.sock, x.frame, x.healthy, x.accepts, x.fits).0;
            HandleFrame(s', x.sock, x.frame, x.healthy, x.accepts, x.fits) == (s', Held)
  {
    hide Judge, Bind, Reject, Validate;
    TakeOverOnce(s, x.sock, x.frame, x.healthy);
    var (s1, reason) := Judge(s, x.sock, x.frame, x.healthy);
    if reason != NoReason || x.frame.None? {
      RejectAgain(s1, x.sock);
      JudgeIgnores(s1, x.sock, x.frame, x.healthy, Reject(s1, x.sock, false).anonymous);
    } else if Validate(x.frame.value.request) != NoReason {
      var f := x.frame.value;
      var b := Bind(s1, x.sock, f);
      BoundAgain(s1, x.sock, f, x.healthy);
      RejectAgain(b, x.sock);
      JudgeIgnores(b, x.sock, x.frame, x.healthy, Reject(b, x.sock, false).anonymous);
      BindBound(Reject(b, x.sock, false), x.sock, f);
    }
  }

  /** Trying a held frame again under the same pressure changes nothing: it is held again. */
  lemma HeldAgain(v: Server, x: Input)
    requires HandleFrame(v.sessions, x.sock, x.frame, x.healthy, x.accepts, x.fits).1 == Held
    ensures var v' := Take(v, x);
            Take(v', x) == v' && HandleFrame(v'.sessions, x.sock, x.frame, x.healthy, x.accepts, x.fits).1 == Held
  {
    hide HandleFrame, Judge;
    HeldSessions(v.sessions, x);
  }
}
