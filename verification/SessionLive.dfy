/**
 What the order server owes its clients: exactly which frames it consumes and forwards, in any history; so a client
 that numbers its frames rightly is served, and a healthy connection stays its owner's.
*/
module SessionLive {
  import opened Types
  import opened EngineSpec
  import opened SessionSpec

  /** A bound client's connection is bound to it. */
  ghost predicate Paired(s: Sessions) {
    && (forall c :: c in s.socketOf ==> s.socketOf[c] in s.clientOf && s.clientOf[s.socketOf[c]] == c)
    && (forall c :: c in s.expected || c in s.unknown ==> c in s.socketOf)
    && (forall c :: c in s.socketOf ==> EpochOf(s, c) != 0)
  }

  lemma JudgePaired(s: Sessions, x: Input)
    requires Paired(s)
    ensures Paired(Judge(s, x.sock, x.frame, x.healthy).0)
  {
  }

  lemma BindPaired(s: Sessions, x: Input)
    requires Paired(s) && x.frame.Some? && Judge(s, x.sock, x.frame, x.healthy) == (s, NoReason)
    ensures Paired(Bind(s, x.sock, x.frame.value)) && x.frame.value.request.client in Bind(s, x.sock, x.frame.value).socketOf
  {
  }

  lemma ConsumePaired(s: Sessions, c: ClientId)
    requires Paired(s) && c in s.socketOf
    ensures Paired(Consume(s, c))
  {
  }

  lemma RejectPaired(s: Sessions, sock: Socket, fits: bool)
    requires Paired(s)
    ensures Paired(Reject(s, sock, fits))
  {
    hide Reject;
    RejectKeeps(s, sock, fits);
  }

  lemma TakePaired(v: Server, x: Input)
    requires Paired(v.sessions)
    ensures Paired(Take(v, x).sessions)
  {
    hide Paired, Judge, Bind, Reject, Consume, Validate;
    var s := v.sessions;
    JudgePaired(s, x);
    TakeOverOnce(s, x.sock, x.frame, x.healthy);
    var (s1, reason) := Judge(s, x.sock, x.frame, x.healthy);
    RejectPaired(s1, x.sock, x.fits);
    if reason == NoReason && x.frame.Some? {
      var f := x.frame.value;
      BindPaired(s1, x);
      var b := Bind(s1, x.sock, f);
      RejectPaired(b, x.sock, x.fits);
      RejectKeeps(b, x.sock, x.fits);
      ConsumePaired(b, f.request.client);
      ConsumePaired(Reject(b, x.sock, x.fits), f.request.client);
    }
  }

  lemma {:induction false} HistoryPaired(xs: seq<Input>)
    ensures Paired(TakeAll(xs).sessions)
  {
    if xs != [] {
      hide Paired, Take;
      HistoryPaired(xs[..|xs| - 1]);
      TakePaired(TakeAll(xs[..|xs| - 1]), xs[|xs| - 1]);
    }
  }

  /** The frame a client owes next, on a connection it may use. An unbound client starts with number 1 and any epoch
      but zero; a bound one goes on with its epoch and its next number, with queries only once its session is
      unknown; and a query of the right epoch may take the place of a dead connection, under any number. */
  predicate Due(s: Sessions, sock: Socket, f: Frame, healthy: set<Socket>) {
    var c := f.request.client;
    && c < ME_MAX_NUM_CLIENTS && (sock in s.clientOf ==> s.clientOf[sock] == c)
    && if c !in s.socketOf then f.epoch != 0 && f.seqNum == 1
       else
         && f.epoch == EpochOf(s, c)
         && if s.socketOf[c] == sock then f.seqNum == At(s.expected, c) && (c in s.unknown ==> f.request.kind.Query?)
            else s.socketOf[c] !in healthy && f.request.kind.Query?
  }

  /** Exactly what is consumed. In any history a frame that decodes is consumed if and only if it is due and there is
      room for what becomes of it: in the sequencer, to which it is then forwarded, if its request is well formed,
      otherwise in the send buffer, for the rejection. Nothing else enters the log. */
  lemma ConsumedExactlyWhen(v: Server, x: Input)
    requires Paired(v.sessions)
    ensures Take(v, x).log ==
            if x.frame.Some? && Due(v.sessions, x.sock, x.frame.value, x.healthy)
               && (if WellFormed(x.frame.value.request) then x.accepts else x.fits)
            then v.log + [Entry(x.frame.value, WellFormed(x.frame.value.request),
                                x.frame.value.request.client in Take(v, x).sessions.unknown)]
            else v.log
  {
    hide Bind, Reject, Validate, WellFormed;
    if x.frame.Some? {
      ValidateExactlyWhen(x.frame.value.request);
      DueExactlyWhen(v.sessions, x.sock, x.frame.value, x.healthy);
    }
  }

  lemma DueExactlyWhen(s: Sessions, sock: Socket, f: Frame, healthy: set<Socket>)
    requires Paired(s)
    ensures Judge(s, sock, Some(f), healthy).1 == NoReason <==> Due(s, sock, f, healthy)
  {
  }

  /** What consuming a due frame leaves of its client. */
  lemma ConsumedLeaves(v: Server, x: Input)
    requires Paired(v.sessions) && x.frame.Some? && Due(v.sessions, x.sock, x.frame.value, x.healthy)
    requires if WellFormed(x.frame.value.request) then x.accepts else x.fits
    ensures var s, f := Take(v, x).sessions, x.frame.value; var c := f.request.client;
            && c in s.socketOf && s.socketOf[c] == x.sock && x.sock in s.clientOf && s.clientOf[x.sock] == c
            && EpochOf(s, c) == f.epoch && At(s.expected, c) == f.seqNum + 1
            && (c in s.unknown <==> c in v.sessions.unknown || (c in v.sessions.socketOf && v.sessions.socketOf[c] != x.sock))
  {
    hide Reject, Validate, WellFormed;
    var f := x.frame.value;
    ValidateExactlyWhen(f.request);
    DueExactlyWhen(v.sessions, x.sock, f, x.healthy);
    var s1 := Judge(v.sessions, x.sock, x.frame, x.healthy).0;
    RejectKeeps(Bind(s1, x.sock, f), x.sock, x.fits);
  }

  /** A client that has not been taken over and the log of all it has consumed: the number due is one more than their
      count, so a well-formed frame with that number, on the client's connection and in its epoch, is consumed, and
      forwarded exactly when the sequencer has room; without room it changes nothing. */
  lemma NextIsServed(xs: seq<Input>, x: Input)
    requires x.frame.Some? && WellFormed(x.frame.value.request)
    requires var s, f := TakeAll(xs).sessions, x.frame.value; var c := f.request.client;
             && c in s.socketOf && s.socketOf[c] == x.sock && c !in s.unknown
             && f.epoch == EpochOf(s, c) && f.seqNum == |KnownNumbers(TakeAll(xs).log, c)| + 1
    ensures var v := TakeAll(xs);
            if x.accepts then Take(v, x).log == v.log + [Entry(x.frame.value, true, false)] else Take(v, x) == v
  {
    hide Paired, WellFormed, Take, TakeAll, ClientOk, KnownNumbers, EntryOk;
    var v, c := TakeAll(xs), x.frame.value.request.client;
    HistoryPaired(xs);
    HistoryNumbers(xs, c);
    OwnDue(v, x);
    if x.accepts {
      ConsumedExactlyWhen(v, x);
      ConsumedLeaves(v, x);
    } else {
      OwnHeld(v, x);
    }
  }

  lemma HistoryNumbers(xs: seq<Input>, c: ClientId)
    ensures var v := TakeAll(xs);
            c !in v.sessions.unknown ==> At(v.sessions.expected, c) == |KnownNumbers(v.log, c)| + 1
  {
    HistoryInv(xs);
    assert ClientOk(TakeAll(xs), c);
  }

  lemma OwnDue(v: Server, x: Input)
    requires Paired(v.sessions) && x.frame.Some? && WellFormed(x.frame.value.request)
    requires var s, f := v.sessions, x.frame.value; var c := f.request.client;
             c in s.socketOf && s.socketOf[c] == x.sock && c !in s.unknown && f.epoch == EpochOf(s, c) && f.seqNum == At(s.expected, c)
    ensures Due(v.sessions, x.sock, x.frame.value, x.healthy)
  {
  }

  lemma OwnHeld(v: Server, x: Input)
    requires Paired(v.sessions) && x.frame.Some? && WellFormed(x.frame.value.request) && !x.accepts
    requires Due(v.sessions, x.sock, x.frame.value, x.healthy)
    requires var s, c := v.sessions, x.frame.value.request.client; c in s.socketOf && s.socketOf[c] == x.sock
    ensures Take(v, x) == v
  {
    hide WellFormed, Validate, Bind, Reject;
    ValidateExactlyWhen(x.frame.value.request);
    DueExactlyWhen(v.sessions, x.sock, x.frame.value, x.healthy);
  }

  /** So is the first frame of a client nobody has bound, on a connection nobody is bound to: it binds them. */
  lemma FirstIsServed(xs: seq<Input>, x: Input)
    requires x.frame.Some? && WellFormed(x.frame.value.request) && x.frame.value.epoch != 0 && x.frame.value.seqNum == 1
    requires var s, c := TakeAll(xs).sessions, x.frame.value.request.client; c !in s.socketOf && x.sock !in s.clientOf
    ensures var v, v', f := TakeAll(xs), Take(TakeAll(xs), x), x.frame.value; var c := f.request.client;
            && v'.log == (if x.accepts then v.log + [Entry(f, true, false)] else v.log)
            && (x.accepts ==> c in v'.sessions.socketOf && v'.sessions.socketOf[c] == x.sock && c !in v'.sessions.unknown
                              && EpochOf(v'.sessions, c) == f.epoch)
  {
    hide WellFormed, Take, TakeAll, KnownNumbers, EntryOk;
    var v, f := TakeAll(xs), x.frame.value;
    HistoryPaired(xs);
    assert f.request.client < ME_MAX_NUM_CLIENTS by { ClientIn(f.request); }
    ConsumedExactlyWhen(v, x);
    if x.accepts { ConsumedLeaves(v, x); }
  }

  lemma ClientIn(q: Request)
    requires WellFormed(q)
    ensures q.client < ME_MAX_NUM_CLIENTS
  {
  }

  /** After a take-over queries go on: under the number expected they are consumed and forwarded when there is room. */
  lemma QueryIsServed(xs: seq<Input>, x: Input)
    requires x.frame.Some? && WellFormed(x.frame.value.request) && x.frame.value.request.kind.Query?
    requires var s, f := TakeAll(xs).sessions, x.frame.value; var c := f.request.client;
             && c in s.socketOf && c in s.unknown && f.epoch == EpochOf(s, c)
             && (x.sock in s.clientOf ==> s.clientOf[x.sock] == c)
             && (if s.socketOf[c] == x.sock then f.seqNum == At(s.expected, c) else s.socketOf[c] !in x.healthy)
    ensures var v, v', f := TakeAll(xs), Take(TakeAll(xs), x), x.frame.value; var c := f.request.client;
            && v'.log == (if x.accepts then v.log + [Entry(f, true, true)] else v.log)
            && (x.accepts ==> c in v'.sessions.socketOf && v'.sessions.socketOf[c] == x.sock
                              && At(v'.sessions.expected, c) == f.seqNum + 1)
  {
    hide WellFormed, Take, TakeAll, KnownNumbers, EntryOk;
    var v, f := TakeAll(xs), x.frame.value;
    HistoryPaired(xs);
    ClientIn(f.request);
    ConsumedExactlyWhen(v, x);
    if x.accepts { ConsumedLeaves(v, x); }
  }

  /** What a step must leave to a client as it was. */
  predicate SameFor(s: Sessions, s': Sessions, c: ClientId) {
    && c in s.socketOf && c in s'.socketOf && s'.socketOf[c] == s.socketOf[c] && EpochOf(s', c) == EpochOf(s, c)
    && (c in s'.unknown <==> c in s.unknown)
  }

  lemma JudgeSame(s: Sessions, x: Input, c: ClientId)
    requires c in s.socketOf && s.socketOf[c] in x.healthy
    ensures SameFor(s, Judge(s, x.sock, x.frame, x.healthy).0, c)
  {
  }

  lemma BindSame(s: Sessions, sock: Socket, f: Frame, c: ClientId)
    requires c in s.socketOf
    ensures SameFor(s, Bind(s, sock, f), c)
  {
  }

  lemma RejectSame(s: Sessions, sock: Socket, fits: bool, c: ClientId)
    requires c in s.socketOf
    ensures SameFor(s, Reject(s, sock, fits), c)
  {
    hide Reject;
    RejectKeeps(s, sock, fits);
  }

  /** A connection that is healthy stays its client's, whatever anyone sends. */
  lemma HealthyStays(xs: seq<Input>, x: Input, c: ClientId)
    requires var s := TakeAll(xs).sessions; c in s.socketOf && s.socketOf[c] in x.healthy
    ensures SameFor(TakeAll(xs).sessions, Take(TakeAll(xs), x).sessions, c)
  {
    hide TakeAll, Reject, Validate, Judge, Bind;
    var s := TakeAll(xs).sessions;
    var s1 := Judge(s, x.sock, x.frame, x.healthy).0;
    JudgeSame(s, x, c);
    RejectSame(s1, x.sock, x.fits, c);
    if x.frame.Some? {
      BindSame(s1, x.sock, x.frame.value, c);
      RejectSame(Bind(s1, x.sock, x.frame.value), x.sock, x.fits, c);
    }
  }

  // ------------------------------------------------------------------ a whole session

  /** Well-formed frames of one client in one epoch, numbered from `n` on. */
  predicate InSession(fs: seq<Frame>, c: ClientId, epoch: nat, n: nat) {
    forall i :: 0 <= i < |fs| ==> WellFormed(fs[i].request) && fs[i].request.client == c && fs[i].epoch == epoch
                                  && fs[i].seqNum == n + i
  }

  function Inputs(sock: Socket, fs: seq<Frame>, healthy: set<Socket>): (xs: seq<Input>)
    ensures |xs| == |fs|
  {
    seq(|fs|, i requires 0 <= i < |fs| => Input(sock, Some(fs[i]), healthy, true, true))
  }

  function Forwards(fs: seq<Frame>): (es: seq<Entry>)
    ensures |es| == |fs|
  {
    seq(|fs|, i requires 0 <= i < |fs| => Entry(fs[i], true, false))
  }

  /** The client is bound to the connection in that epoch, and `n` is due. */
  predicate AtWork(s: Sessions, sock: Socket, c: ClientId, epoch: nat, n: nat) {
    && c in s.socketOf && s.socketOf[c] == sock && c !in s.unknown && epoch == EpochOf(s, c) && At(s.expected, c) == n
    && sock in s.clientOf && s.clientOf[sock] == c
  }

  /** Nobody has bound the client or the connection, and the client starts. */
  predicate Starting(s: Sessions, sock: Socket, c: ClientId, epoch: nat, n: nat) {
    c !in s.socketOf && sock !in s.clientOf && epoch != 0 && n == 1
  }

  lemma OneForwarded(v: Server, sock: Socket, f: Frame, healthy: set<Socket>, n: nat, fits: bool)
    requires Paired(v.sessions) && WellFormed(f.request) && f.seqNum == n
    requires AtWork(v.sessions, sock, f.request.client, f.epoch, n) || Starting(v.sessions, sock, f.request.client, f.epoch, n)
    ensures var v' := Take(v, Input(sock, Some(f), healthy, true, fits));
            && v'.log == v.log + [Entry(f, true, false)] && Paired(v'.sessions)
            && AtWork(v'.sessions, sock, f.request.client, f.epoch, n + 1)
  {
    hide WellFormed, Take;
    var x := Input(sock, Some(f), healthy, true, fits);
    ClientIn(f.request);
    TakePaired(v, x);
    ConsumedExactlyWhen(v, x);
    ConsumedLeaves(v, x);
    UnknownIsBound(v.sessions, f.request.client);
  }

  lemma UnknownIsBound(s: Sessions, c: ClientId)
    requires Paired(s)
    ensures c in s.unknown ==> c in s.socketOf
  {
  }

  function TakeFrom(v: Server, xs: seq<Input>): Server {
    if xs == [] then v else Take(TakeFrom(v, xs[..|xs| - 1]), xs[|xs| - 1])
  }

  lemma {:induction false} TakeOn(xs: seq<Input>, ys: seq<Input>)
    ensures TakeAll(xs + ys) == TakeFrom(TakeAll(xs), ys)
    decreases |ys|
  {
    hide Take;
    if ys == [] {
      assert xs + ys == xs;
    } else {
      TakeOn(xs, ys[..|ys| - 1]);
      assert (xs + ys)[..|xs + ys| - 1] == xs + ys[..|ys| - 1];
    }
  }

  lemma {:induction false} AllForwarded(v: Server, sock: Socket, fs: seq<Frame>, healthy: set<Socket>, c: ClientId,
                                        epoch: nat, n: nat)
    requires Paired(v.sessions) && InSession(fs, c, epoch, n)
    requires AtWork(v.sessions, sock, c, epoch, n) || Starting(v.sessions, sock, c, epoch, n)
    ensures var v' := TakeFrom(v, Inputs(sock, fs, healthy));
            && v'.log == v.log + Forwards(fs) && Paired(v'.sessions)
            && (fs != [] ==> AtWork(v'.sessions, sock, c, epoch, n + |fs|)) && (fs == [] ==> v' == v)
    decreases |fs|
  {
    hide Take, WellFormed, AtWork, Starting, Paired;
    if fs == [] {
      assert v.log + [] == v.log;
    } else {
      var front, f := fs[..|fs| - 1], fs[|fs| - 1];
      AllForwarded(v, sock, front, healthy, c, epoch, n);
      var xs := Inputs(sock, fs, healthy);
      assert xs[..|xs| - 1] == Inputs(sock, front, healthy);
      OneForwarded(TakeFrom(v, Inputs(sock, front, healthy)), sock, f, healthy, n + |front|, true);
      assert Forwards(fs) == Forwards(front) + [Entry(f, true, false)];
    }
  }

  /** A whole session: whatever has happened before with others, a client that binds a fresh connection and numbers
      its well-formed frames from one on has every one of them forwarded, in order, while there is room. */
  lemma SessionIsServed(xs: seq<Input>, sock: Socket, fs: seq<Frame>, healthy: set<Socket>, c: ClientId, epoch: nat)
    requires InSession(fs, c, epoch, 1) && epoch != 0
    requires c !in TakeAll(xs).sessions.socketOf && sock !in TakeAll(xs).sessions.clientOf
    ensures TakeAll(xs + Inputs(sock, fs, healthy)).log == TakeAll(xs).log + Forwards(fs)
  {
    hide TakeAll, TakeFrom, WellFormed, Paired;
    HistoryPaired(xs);
    AllForwarded(TakeAll(xs), sock, fs, healthy, c, epoch, 1);
    TakeOn(xs, Inputs(sock, fs, healthy));
  }
}
