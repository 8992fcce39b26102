/**
 Orders and their responses, end to end: one client, the matching engine, everyone else, and lossless FIFO
 channels between them.
*/
module RoundTrip {
  import opened Types
  import opened MatchSpec
  import opened MatchInvariants
  import opened PriceBooks
  import opened OrderLife
  import opened EngineSpec
  import opened EngineProps
  import opened EngineHears
  import opened RiskSpec
  import opened TradeOrders

  /** The client, the requests on their way, the engine, the responses on their way, and the ids the client
      has ever sent new orders under. */
  datatype Trip = Trip(client: Client, up: seq<Request>, engine: Engine, down: seq<Response>, submitted: set<ResKey>)

  function RequestKey(q: Request): ResKey { (q.ticker, q.orderId) }

  function Ours(rs: seq<Response>, c: ClientId): seq<Response> {
    if rs == [] then [] else (if rs[0].client == c then [rs[0]] else []) + Ours(rs[1..], c)
  }

  datatype Step =
    | Submit(request: Request, chance: Chance)   // the client tries to send
    | Arrive                                     // the engine takes the client's next request
    | Other(request: Request)                    // the engine takes a request of anyone else
    | Deliver                                    // the client takes its next response

  /** The client never reuses an order id, and cancels and queries only ids it has used (or asks for its
      position, id 0). */
  predicate Disciplined(s: Trip, q: Request) {
    match q.kind
    case New => RequestKey(q) !in s.submitted
    case _ => q.orderId == 0 || RequestKey(q) in s.submitted
  }

  /** What can happen at all. */
  predicate Possible(s: Trip, a: Step) {
    match a
    case Submit(_, _) => true
    case Arrive => s.up != []
    case Other(q) => q.client != s.client.id
    case Deliver => s.down != []
  }

  predicate Enabled(s: Trip, a: Step) { Possible(s, a) && (a.Submit? ==> Disciplined(s, a.request)) }

  ghost predicate Typed(s: Trip, limits: seq<Limits>) {
    ClientOk(s.client) && BooksOk(s.engine.books) && |limits| == ME_MAX_TICKERS
  }

  ghost function Served(s: Trip, q: Request): Trip
    requires BooksOk(s.engine.books)
  {
    var out := Process(s.engine, q);
    s.(engine := out.engine, down := s.down + Ours(out.responses, s.client.id))
  }

  ghost function Do(s: Trip, limits: seq<Limits>, a: Step): Trip
    requires Typed(s, limits) && Possible(s, a)
  {
    match a
    case Submit(q, x) =>
      var (c, sent) := Send(s.client, limits, q, x);
      if !sent then s.(client := c)
      else s.(client := c, up := s.up + [q],
              submitted := if q.kind.New? then s.submitted + {RequestKey(q)} else s.submitted)
    case Arrive => Served(s, s.up[0]).(up := s.up[1..])
    case Other(q) => Served(s, q)
    case Deliver => s.(client := OnOrderUpdate(s.client, s.down[0]), down := s.down[1..])
  }

  // ------------------------------------------------------------------ positions and numbers in flight

  function Moved(p: seq<int>, r: Response): (q: seq<int>)
    ensures |q| == |p|
  {
    if r.ticker < |p| then p[r.ticker := p[r.ticker] + Signed(r)] else p
  }

  function MovedAll(p: seq<int>, rs: seq<Response>): (q: seq<int>)
    ensures |q| == |p|
    decreases |rs|
  {
    if rs == [] then p else MovedAll(Moved(p, rs[0]), rs[1..])
  }

  /** Responses for `c` with growing numbers above `last`, each carrying the position it leads to. */
  predicate Chain(c: ClientId, p: seq<int>, last: nat, rs: seq<Response>)
    decreases |rs|
  {
    rs == [] ||
    (&& rs[0].client == c && rs[0].ticker < |p| && last < rs[0].responseId
     && rs[0].position == p[rs[0].ticker] + Signed(rs[0])
     && Chain(c, Moved(p, rs[0]), rs[0].responseId, rs[1..]))
  }

  function LastId(last: nat, rs: seq<Response>): nat { if rs == [] then last else rs[|rs| - 1].responseId }

  lemma {:induction false} ChainConcat(c: ClientId, p: seq<int>, last: nat, a: seq<Response>, b: seq<Response>)
    requires Chain(c, p, last, a) && Chain(c, MovedAll(p, a), LastId(last, a), b)
    ensures Chain(c, p, last, a + b) && MovedAll(p, a + b) == MovedAll(MovedAll(p, a), b)
    decreases |a|
  {
    if a == [] {
      assert a + b == b;
    } else {
      assert (a + b)[1..] == a[1..] + b;
      ChainConcat(c, Moved(p, a[0]), a[0].responseId, a[1..], b);
    }
  }

  predicate PositionsAre(p: seq<int>, d: Outbox, c: ClientId) {
    |p| == ME_MAX_TICKERS && forall t :: 0 <= t < ME_MAX_TICKERS ==> p[t] == PositionOf(d.positions, c, t)
  }

  lemma StampMoves(d: Outbox, r: Response, c: ClientId, p: seq<int>)
    requires c < ME_MAX_NUM_CLIENTS && PositionsAre(p, d, c) && (r.client == c ==> r.ticker < ME_MAX_TICKERS)
    ensures PositionsAre(if r.client == c then Moved(p, r) else p, Stamp(d, r).0, c)
    ensures Stamp(d, r).0.nextId == d.nextId + 1 && SameBut(Stamp(d, r).1, r) && Stamp(d, r).1.responseId == d.nextId
    ensures r.client == c ==> Stamp(d, r).1.position == p[r.ticker] + Signed(r)
  {
  }

  lemma SameMove(x: Response, y: Response, p: seq<int>)
    requires SameBut(x, y)
    ensures Moved(p, x) == Moved(p, y) && Signed(x) == Signed(y)
  {
  }

  lemma OursFirst(x: Response, rs: seq<Response>, c: ClientId)
    ensures Ours([x] + rs, c) == if x.client == c then [x] + Ours(rs, c) else Ours(rs, c)
  {
    assert ([x] + rs)[1..] == rs;
  }

  lemma ChainFirst(c: ClientId, p: seq<int>, last: nat, x: Response, rs: seq<Response>)
    requires x.client == c && x.ticker < |p| && last < x.responseId && x.position == p[x.ticker] + Signed(x)
    requires Chain(c, Moved(p, x), x.responseId, rs)
    ensures Chain(c, p, last, [x] + rs) && MovedAll(p, [x] + rs) == MovedAll(Moved(p, x), rs)
    ensures LastId(last, [x] + rs) == LastId(x.responseId, rs)
  {
    assert ([x] + rs)[1..] == rs;
  }

  /** What the engine sends to one client continues its chain. */
  lemma {:induction false} StampChain(d: Outbox, rs: seq<Response>, c: ClientId, p: seq<int>, last: nat)
    requires c < ME_MAX_NUM_CLIENTS && PositionsAre(p, d, c) && last < d.nextId
    requires forall i :: 0 <= i < |rs| && rs[i].client == c ==> rs[i].ticker < ME_MAX_TICKERS
    ensures var out := Ours(StampAll(d, rs).1, c);
            && Chain(c, p, last, out) && PositionsAre(MovedAll(p, out), StampAll(d, rs).0, c)
            && LastId(last, out) < StampAll(d, rs).0.nextId
    decreases |rs|
  {
    hide Signed, Stamp, Moved, PositionOf;
    if rs != [] {
      StampMoves(d, rs[0], c, p);
      var (d', first) := Stamp(d, rs[0]);
      SameMove(first, rs[0], p);
      var rest := StampAll(d', rs[1..]).1;
      OursFirst(first, rest, c);
      hide Ours, PositionsAre, Chain;
      assert |p| == ME_MAX_TICKERS by { PositionsSize(p, d, c); }
      if rs[0].client == c {
        StampChain(d', rs[1..], c, Moved(p, rs[0]), first.responseId);
        ChainFirst(c, p, last, first, Ours(rest, c));
      } else {
        StampChain(d', rs[1..], c, p, last);
      }
    } else {
      NothingSent(d, c, p, last);
    }
  }

  lemma NothingSent(d: Outbox, c: ClientId, p: seq<int>, last: nat)
    ensures Ours(StampAll(d, []).1, c) == [] && Chain(c, p, last, []) && StampAll(d, []).0 == d
  {
  }

  lemma PositionsSize(p: seq<int>, d: Outbox, c: ClientId)
    requires PositionsAre(p, d, c)
    ensures |p| == ME_MAX_TICKERS
  {
  }

  // ------------------------------------------------------------------ invariant

  /** The new order on its way to the engine under key `k`. */
  function AskedFor(up: seq<Request>, k: ResKey): Option<Request> {
    if up == [] then None
    else if up[0].kind.New? && RequestKey(up[0]) == k then Some(up[0])
    else AskedFor(up[1..], k)
  }

  /** What the client will know of an order once everything on its way has arrived: the order itself if the
      engine has yet to see it, otherwise what rests in the book. */
  ghost function Expect(bs: seq<Book>, up: seq<Request>, c: ClientId, k: ResKey): View
    requires |bs| == ME_MAX_TICKERS && k.0 < ME_MAX_TICKERS
  {
    match AskedFor(up, k)
    case Some(q) => Open(q.side, q.qty)
    case None => LiveIn(bs[k.0].resting, Owner(c, k.1))
  }

  predicate OwnRequest(q: Request, c: ClientId, submitted: set<ResKey>) {
    q.client == c && Validate(q) == NoReason && (q.orderId == 0 || RequestKey(q) in submitted)
  }

  /** Requests on their way: valid, about ids the client has used, nothing about an id before its order. */
  ghost predicate UpOk(up: seq<Request>, c: ClientId, submitted: set<ResKey>) {
    && (forall i :: 0 <= i < |up| ==> OwnRequest(up[i], c, submitted))
    && (forall i, j :: 0 <= i < j < |up| && up[j].kind.New? ==> RequestKey(up[i]) != RequestKey(up[j]))
  }

  /** The engine has not seen the orders on their way. */
  ghost predicate Unseen(up: seq<Request>, bs: seq<Book>)
    requires |bs| == ME_MAX_TICKERS
  {
    forall i :: 0 <= i < |up| && up[i].kind.New? && up[i].ticker < ME_MAX_TICKERS ==> !Duplicate(bs[up[i].ticker], up[i])
  }

  ghost predicate UsedOk(bs: seq<Book>, c: ClientId, submitted: set<ResKey>)
    requires |bs| == ME_MAX_TICKERS
  {
    forall t, o :: 0 <= t < ME_MAX_TICKERS && o in bs[t].used && o.client == c ==> (t, o.clientOrderId) in submitted
  }

  predicate OwnResponse(r: Response, submitted: set<ResKey>) { r.clientOrderId == 0 || ResponseKey(r) in submitted }

  ghost predicate DownOk(down: seq<Response>, submitted: set<ResKey>) {
    forall i :: 0 <= i < |down| ==> OwnResponse(down[i], submitted)
  }

  ghost predicate KnowsOf(risk: Risk, down: seq<Response>, bs: seq<Book>, up: seq<Request>, c: ClientId, k: ResKey)
    requires |bs| == ME_MAX_TICKERS && k.0 < ME_MAX_TICKERS
  {
    HearAll(ViewOf(risk, k), down, k.0, Owner(c, k.1)) == Expect(bs, up, c, k)
  }

  ghost predicate Knows(risk: Risk, down: seq<Response>, bs: seq<Book>, up: seq<Request>, c: ClientId)
    requires |bs| == ME_MAX_TICKERS
  {
    forall k: ResKey :: k.0 < ME_MAX_TICKERS ==> KnowsOf(risk, down, bs, up, c, k)
  }

  /** Positions and response numbers, taken and on their way, end at the engine's. */
  ghost predicate InStep(c: Client, down: seq<Response>, d: Outbox) {
    && Chain(c.id, c.account.positions, c.lastResponseId, down)
    && PositionsAre(MovedAll(c.account.positions, down), d, c.id)
    && LastId(c.lastResponseId, down) < d.nextId
  }

  ghost predicate Inv(s: Trip, limits: seq<Limits>) {
    && Typed(s, limits) && s.client.id < ME_MAX_NUM_CLIENTS && s.client.reconciled
    && AccountInv(s.client.account, limits)
    && UpOk(s.up, s.client.id, s.submitted)
    && Unseen(s.up, s.engine.books)
    && UsedOk(s.engine.books, s.client.id, s.submitted)
    && DownOk(s.down, s.submitted)
    && Knows(s.client.account.risk, s.down, s.engine.books, s.up, s.client.id)
    && InStep(s.client, s.down, s.engine.outbox)
  }

  // ------------------------------------------------------------------ the engine takes a request

  lemma {:induction false} OursHear(v: View, rs: seq<Response>, t: TickerId, o: Owner)
    ensures HearAll(v, Ours(rs, o.client), t, o) == HearAll(v, rs, t, o)
    decreases |rs|
  {
    if rs != [] {
      var v' := if About(rs[0], t, o) then Hear(v, rs[0]) else v;
      OursHear(v', rs[1..], t, o);
      HearFirst(v, rs, t, o);
      OursFirst(rs[0], rs[1..], o.client);
      assert [rs[0]] + rs[1..] == rs;
      hide HearAll, Hear;
      if rs[0].client == o.client {
        HearFirst(v, Ours(rs, o.client), t, o);
        assert Ours(rs, o.client)[1..] == Ours(rs[1..], o.client);
      }
    }
  }

  lemma {:induction false} OursAddressed(d: Outbox, rs: seq<Response>, c: ClientId, submitted: set<ResKey>)
    requires forall i :: 0 <= i < |rs| && rs[i].client == c ==> OwnResponse(rs[i], submitted)
    ensures DownOk(Ours(StampAll(d, rs).1, c), submitted)
    decreases |rs|
  {
    if rs != [] {
      var (d', first) := Stamp(d, rs[0]);
      assert OwnResponse(first, submitted) || first.client != c by { StampCarries(d, rs[0]); }
      OursAddressed(d', rs[1..], c, submitted);
      OursFirst(first, StampAll(d', rs[1..]).1, c);
    }
  }

  /** The responses to any request, once on their way, leave everyone's knowledge in order. */
  lemma ServedKnows(s: Trip, q: Request, up': seq<Request>, k: ResKey)
    requires BooksOk(s.engine.books) && k.0 < ME_MAX_TICKERS
    requires KnowsOf(s.client.account.risk, s.down, s.engine.books, s.up, s.client.id, k)
    requires (q.client == s.client.id && s.up != [] && q == s.up[0] && up' == s.up[1..])
          || (q.client != s.client.id && up' == s.up)
    requires UpOk(s.up, s.client.id, s.submitted) && Unseen(s.up, s.engine.books)
    ensures BooksOk(Served(s, q).engine.books)
    ensures KnowsOf(s.client.account.risk, Served(s, q).down, Served(s, q).engine.books, up', s.client.id, k)
  {
    hide HearAll, LiveIn, BookInv, HistoryOk, StampAll, Ours, ViewOf;
    var bs, c := s.engine.books, s.client.id;
    var o, v := Owner(c, k.1), ViewOf(s.client.account.risk, k);
    HandleKeeps(bs, q);
    var (bs', rs, _) := Handle(bs, q);
    var out := StampAll(s.engine.outbox, rs).1;
    HearConcat(v, s.down, Ours(out, c), k.0, o);
    OursHear(Expect(bs, s.up, c, k), out, k.0, o);
    HearStamped(s.engine.outbox, rs, Expect(bs, s.up, c, k), k.0, o);
    ExpectMoves(bs, s.up, q, up', c, k, s.submitted);
  }

  lemma {:induction false} AskedIs(up: seq<Request>, k: ResKey)
    ensures match AskedFor(up, k)
            case Some(q) => exists i :: 0 <= i < |up| && up[i] == q && q.kind.New? && RequestKey(q) == k
            case None => forall i :: 0 <= i < |up| && up[i].kind.New? ==> RequestKey(up[i]) != k
  {
    if up != [] {
      AskedIs(up[1..], k);
      if AskedFor(up, k).Some? && !(up[0].kind.New? && RequestKey(up[0]) == k) {
        var i :| 0 <= i < |up[1..]| && up[1..][i] == AskedFor(up, k).value;
        assert up[i + 1] == AskedFor(up, k).value;
      }
    }
  }

  /** An order on its way has not been used. */
  lemma StillUnseen(up: seq<Request>, bs: seq<Book>, c: ClientId, k: ResKey, submitted: set<ResKey>)
    requires |bs| == ME_MAX_TICKERS && k.0 < ME_MAX_TICKERS && UpOk(up, c, submitted) && Unseen(up, bs)
    requires AskedFor(up, k).Some?
    ensures Owner(c, k.1) !in bs[k.0].used
  {
    AskedIs(up, k);
    var i :| 0 <= i < |up| && up[i] == AskedFor(up, k).value && up[i].kind.New? && RequestKey(up[i]) == k;
    assert OwnRequest(up[i], c, submitted);
    assert !Duplicate(bs[k.0], up[i]);
  }

  lemma ExpectMoves(bs: seq<Book>, up: seq<Request>, q: Request, up': seq<Request>, c: ClientId, k: ResKey,
                    submitted: set<ResKey>)
    requires BooksOk(bs) && k.0 < ME_MAX_TICKERS
    requires (q.client == c && up != [] && q == up[0] && up' == up[1..]) || (q.client != c && up' == up)
    requires UpOk(up, c, submitted) && Unseen(up, bs)
    ensures var (bs', rs, _) := Handle(bs, q);
            && |bs'| == ME_MAX_TICKERS
            && HearAll(Expect(bs, up, c, k), rs, k.0, Owner(c, k.1)) == Expect(bs', up', c, k)
  {
    hide HearAll, LiveIn, BookInv, HistoryOk, Handle;
    var o := Owner(c, k.1);
    HandleAddressed(bs, q);
    if q.client == c {
      assert OwnRequest(up[0], c, submitted);
      AskedIs(up', k);
      if RequestKey(q) == k {
        assert AskedFor(up', k) == None;
        assert !Duplicate(bs[k.0], q);
        HandleHears(bs, q, k.0, o);
      } else if AskedFor(up', k).Some? {
        StillUnseen(up, bs, c, k, submitted);
        HandleQuiet(bs, q, k.0, o, Expect(bs, up, c, k));
      } else {
        HandleHears(bs, q, k.0, o);
      }
    } else if AskedFor(up, k).Some? {
      StillUnseen(up, bs, c, k, submitted);
      HandleQuiet(bs, q, k.0, o, Expect(bs, up, c, k));
    } else {
      HandleHears(bs, q, k.0, o);
    }
  }

  ghost predicate NextUp(s: Trip, q: Request, up': seq<Request>) {
    || (q.client == s.client.id && s.up != [] && q == s.up[0] && up' == s.up[1..])
    || (q.client != s.client.id && up' == s.up)
  }

  lemma RestUp(s: Trip, q: Request, up': seq<Request>, i: nat)
    requires NextUp(s, q, up') && UpOk(s.up, s.client.id, s.submitted) && i < |up'|
    ensures up'[i] in s.up && OwnRequest(up'[i], s.client.id, s.submitted)
    ensures up'[i].kind.New? && q.client == s.client.id ==> RequestKey(q) != RequestKey(up'[i])
  {
    var d := |s.up| - |up'|;
    assert up'[i] == s.up[i + d];
    assert OwnRequest(s.up[i + d], s.client.id, s.submitted);
  }

  lemma UpStays(s: Trip, q: Request, up': seq<Request>)
    requires NextUp(s, q, up') && UpOk(s.up, s.client.id, s.submitted)
    ensures UpOk(up', s.client.id, s.submitted)
  {
    var d := |s.up| - |up'|;
    assert forall i :: 0 <= i < |up'| ==> up'[i] == s.up[i + d];
  }

  lemma UnseenStays(s: Trip, q: Request, up': seq<Request>)
    requires BooksOk(s.engine.books) && NextUp(s, q, up')
    requires UpOk(s.up, s.client.id, s.submitted) && Unseen(s.up, s.engine.books)
    ensures |Handle(s.engine.books, q).0| == ME_MAX_TICKERS && Unseen(up', Handle(s.engine.books, q).0)
  {
    hide BookInv, HistoryOk, Handle, UpOk, NextUp;
    var bs' := Handle(s.engine.books, q).0;
    HandleAddressed(s.engine.books, q);
    forall i | 0 <= i < |up'| && up'[i].kind.New? && up'[i].ticker < ME_MAX_TICKERS
      ensures !Duplicate(bs'[up'[i].ticker], up'[i])
    {
      RestUp(s, q, up', i);
    }
  }

  lemma UsedStays(s: Trip, q: Request, up': seq<Request>)
    requires BooksOk(s.engine.books) && NextUp(s, q, up')
    requires UpOk(s.up, s.client.id, s.submitted) && UsedOk(s.engine.books, s.client.id, s.submitted)
    ensures |Handle(s.engine.books, q).0| == ME_MAX_TICKERS && UsedOk(Handle(s.engine.books, q).0, s.client.id, s.submitted)
  {
    hide BookInv, HistoryOk, Handle;
    var bs, bs' := s.engine.books, Handle(s.engine.books, q).0;
    HandleAddressed(bs, q);
    forall t, o | 0 <= t < ME_MAX_TICKERS && o in bs'[t].used && o.client == s.client.id
      ensures (t, o.clientOrderId) in s.submitted
    {
      if o !in bs[t].used {
        assert o == OwnerOf(q) && OwnRequest(s.up[0], s.client.id, s.submitted);
        assert Validate(q) == NoReason && q.kind.New?;
      }
    }
  }

  lemma ServedUp(s: Trip, q: Request, up': seq<Request>)
    requires BooksOk(s.engine.books) && NextUp(s, q, up')
    requires UpOk(s.up, s.client.id, s.submitted) && Unseen(s.up, s.engine.books)
    requires UsedOk(s.engine.books, s.client.id, s.submitted)
    ensures var bs' := Handle(s.engine.books, q).0;
            && |bs'| == ME_MAX_TICKERS
            && UpOk(up', s.client.id, s.submitted) && Unseen(up', bs') && UsedOk(bs', s.client.id, s.submitted)
  {
    hide BooksOk, Handle, UpOk, NextUp, Unseen, UsedOk;
    UpStays(s, q, up');
    UnseenStays(s, q, up');
    UsedStays(s, q, up');
  }

  lemma ServedDown(s: Trip, q: Request, up': seq<Request>)
    requires BooksOk(s.engine.books) && NextUp(s, q, up') && s.client.id < ME_MAX_NUM_CLIENTS
    requires UpOk(s.up, s.client.id, s.submitted) && UsedOk(s.engine.books, s.client.id, s.submitted)
    requires DownOk(s.down, s.submitted) && InStep(s.client, s.down, s.engine.outbox)
    ensures DownOk(Served(s, q).down, s.submitted)
    ensures InStep(s.client, Served(s, q).down, Served(s, q).engine.outbox)
  {
    hide BookInv, HistoryOk, Handle, PositionsAre, Chain;
    var c, d := s.client, s.engine.outbox;
    var rs := Handle(s.engine.books, q).1;
    OwnAddressed(s, q, up');
    OursAddressed(d, rs, c.id, s.submitted);
    StampChain(d, rs, c.id, MovedAll(c.account.positions, s.down), LastId(c.lastResponseId, s.down));
    ChainConcat(c.id, c.account.positions, c.lastResponseId, s.down, Ours(StampAll(d, rs).1, c.id));
  }

  lemma OwnAddressed(s: Trip, q: Request, up': seq<Request>)
    requires BooksOk(s.engine.books) && NextUp(s, q, up')
    requires UpOk(s.up, s.client.id, s.submitted) && UsedOk(s.engine.books, s.client.id, s.submitted)
    ensures var rs := Handle(s.engine.books, q).1;
            forall i :: 0 <= i < |rs| && rs[i].client == s.client.id
                        ==> rs[i].ticker < ME_MAX_TICKERS && OwnResponse(rs[i], s.submitted)
  {
    hide BookInv, HistoryOk, Handle;
    var rs := Handle(s.engine.books, q).1;
    HandleAddressed(s.engine.books, q);
    if q.client == s.client.id { assert OwnRequest(s.up[0], s.client.id, s.submitted); }
    forall i | 0 <= i < |rs| && rs[i].client == s.client.id
      ensures rs[i].ticker < ME_MAX_TICKERS && OwnResponse(rs[i], s.submitted)
    {
      if Validate(q) == NoReason {
        var o := Owner(rs[i].client, rs[i].clientOrderId);
        if o != OwnerOf(q) { assert o in s.engine.books[q.ticker].used; }
      }
    }
  }

  lemma ServedKeeps(s: Trip, limits: seq<Limits>, q: Request, up': seq<Request>)
    requires Inv(s, limits) && NextUp(s, q, up')
    ensures Inv(Served(s, q).(up := up'), limits)
  {
    hide UpOk, Unseen, UsedOk, DownOk, KnowsOf, InStep, AccountInv, BookInv, HistoryOk, Handle;
    HandleKeeps(s.engine.books, q);
    ServedUp(s, q, up');
    ServedDown(s, q, up');
    var s' := Served(s, q);
    forall k: ResKey | k.0 < ME_MAX_TICKERS
      ensures KnowsOf(s.client.account.risk, s'.down, s'.engine.books, up', s.client.id, k)
    {
      ServedKnows(s, q, up', k);
    }
  }

  // ------------------------------------------------------------------ the client sends

  /** A request that is not sent leaves the reservations as they were. */
  lemma SendIs(c: Client, limits: seq<Limits>, q: Request, x: Chance)
    requires ClientOk(c) && |limits| == ME_MAX_TICKERS && AccountInv(c.account, limits)
    ensures var (c', sent) := Send(c, limits, q, x);
            && ClientOk(c') && AccountInv(c'.account, limits)
            && c' == c.(account := c.account.(risk := c'.account.risk))
            && (sent ==> q.client == c.id && Validate(q) == NoReason)
            && (sent && q.kind.New? ==>
                  c'.account.risk.reservations == c.account.risk.reservations[RequestKey(q) := Reservation(q.side, q.qty, q.price)])
            && (!(sent && q.kind.New?) ==> c'.account.risk.reservations == c.account.risk.reservations)
  {
    hide AccountInv, Check, Plus, Minus;
    var (c', sent) := Send(c, limits, q, x);
    if c' != c || sent {
      InvSized(c.account, limits);
      ReserveKeeps(c.account, limits, q, x.totalPnl);
      var (r, result) := Reserve(c.account.risk, limits[q.ticker], c.account.positions[q.ticker], x.totalPnl, q);
      RollbackKeeps(c.account.(risk := r), limits, q);
      if q.kind.New? {
        assert c.account.risk.reservations[RequestKey(q) := Reservation(q.side, q.qty, q.price)] - {RequestKey(q)}
            == c.account.risk.reservations;
      }
    }
  }

  lemma InvSized(a: Account, limits: seq<Limits>)
    requires AccountInv(a, limits)
    ensures Sized(a.risk) && |a.positions| == ME_MAX_TICKERS == |limits|
  {
  }

  lemma {:induction false} AskedMore(up: seq<Request>, q: Request, k: ResKey)
    ensures AskedFor(up + [q], k) ==
            if AskedFor(up, k).Some? then AskedFor(up, k)
            else if q.kind.New? && RequestKey(q) == k then Some(q) else None
  {
    if up == [] {
      assert [q][1..] == [];
      assert up + [q] == [q];
    } else {
      assert (up + [q])[1..] == up[1..] + [q];
      AskedMore(up[1..], q, k);
    }
  }

  lemma SubmitUp(s: Trip, q: Request)
    requires |s.engine.books| == ME_MAX_TICKERS && Disciplined(s, q) && q.client == s.client.id && Validate(q) == NoReason
    requires UpOk(s.up, s.client.id, s.submitted) && Unseen(s.up, s.engine.books)
    requires UsedOk(s.engine.books, s.client.id, s.submitted) && DownOk(s.down, s.submitted)
    ensures var sub := if q.kind.New? then s.submitted + {RequestKey(q)} else s.submitted;
            && UpOk(s.up + [q], s.client.id, sub) && Unseen(s.up + [q], s.engine.books)
            && UsedOk(s.engine.books, s.client.id, sub) && DownOk(s.down, sub)
  {
    var up' := s.up + [q];
    var sub := if q.kind.New? then s.submitted + {RequestKey(q)} else s.submitted;
    forall i | 0 <= i < |up'| ensures OwnRequest(up'[i], s.client.id, sub) {
      assert i < |s.up| ==> OwnRequest(s.up[i], s.client.id, s.submitted);
    }
    forall i, j | 0 <= i < j < |up'| && up'[j].kind.New? ensures RequestKey(up'[i]) != RequestKey(up'[j]) {
      assert OwnRequest(s.up[i], s.client.id, s.submitted);
    }
    forall i | 0 <= i < |s.down| ensures OwnResponse(s.down[i], sub) {
      assert OwnResponse(s.down[i], s.submitted);
    }
  }

  /** Before an order is sent nothing on its way is about it; afterwards it is what the client expects. */
  lemma SubmitKnows(s: Trip, q: Request, risk': Risk, k: ResKey)
    requires |s.engine.books| == ME_MAX_TICKERS && k.0 < ME_MAX_TICKERS && Disciplined(s, q)
    requires Validate(q) == NoReason && DownOk(s.down, s.submitted) && UpOk(s.up, s.client.id, s.submitted)
    requires KnowsOf(s.client.account.risk, s.down, s.engine.books, s.up, s.client.id, k)
    requires risk'.reservations == if q.kind.New?
               then s.client.account.risk.reservations[RequestKey(q) := Reservation(q.side, q.qty, q.price)]
               else s.client.account.risk.reservations
    ensures KnowsOf(risk', s.down, s.engine.books, s.up + [q], s.client.id, k)
  {
    hide HearAll, LiveIn;
    AskedMore(s.up, q, k);
    if q.kind.New? && RequestKey(q) == k {
      AskedIs(s.up, k);
      assert AskedFor(s.up, k) == None;
      forall i | 0 <= i < |s.down| ensures !About(s.down[i], k.0, Owner(s.client.id, k.1)) {
        assert OwnResponse(s.down[i], s.submitted);
      }
      QuietHear(Open(q.side, q.qty), s.down, k.0, Owner(s.client.id, k.1));
    }
  }

  lemma SubmitKeeps(s: Trip, limits: seq<Limits>, q: Request, x: Chance)
    requires Inv(s, limits) && Disciplined(s, q)
    ensures Inv(Do(s, limits, Submit(q, x)), limits)
  {
    hide UpOk, Unseen, UsedOk, DownOk, KnowsOf, AccountInv, BookInv, HistoryOk, Disciplined, Chain, Send;
    SendIs(s.client, limits, q, x);
    var (c', sent) := Send(s.client, limits, q, x);
    var risk := s.client.account.risk;
    if sent {
      SubmitUp(s, q);
      forall k: ResKey | k.0 < ME_MAX_TICKERS
        ensures KnowsOf(c'.account.risk, s.down, s.engine.books, s.up + [q], s.client.id, k)
      {
        assert KnowsOf(risk, s.down, s.engine.books, s.up, s.client.id, k);
        SubmitKnows(s, q, c'.account.risk, k);
      }
    } else {
      forall k: ResKey | k.0 < ME_MAX_TICKERS
        ensures KnowsOf(c'.account.risk, s.down, s.engine.books, s.up, s.client.id, k)
      {
        assert KnowsOf(risk, s.down, s.engine.books, s.up, s.client.id, k);
        SameViews(risk, c'.account.risk, s.down, s.engine.books, s.up, s.client.id, k);
      }
    }
  }

  lemma SameViews(r: Risk, r': Risk, down: seq<Response>, bs: seq<Book>, up: seq<Request>, c: ClientId, k: ResKey)
    requires |bs| == ME_MAX_TICKERS && k.0 < ME_MAX_TICKERS && r.reservations == r'.reservations
    requires KnowsOf(r, down, bs, up, c, k)
    ensures KnowsOf(r', down, bs, up, c, k)
  {
  }

  // ------------------------------------------------------------------ the client hears

  lemma NotWrong(v: View, rs: seq<Response>, t: TickerId, o: Owner)
    requires rs != [] && About(rs[0], t, o) && !HearAll(v, rs, t, o).Wrong?
    ensures !Hear(v, rs[0]).Wrong?
  {
    hide Hear;
    HearFirst(v, rs, t, o);
    if Hear(v, rs[0]).Wrong? { StaysWrong(rs[1..], t, o); }
  }

  lemma ExpectNotWrong(bs: seq<Book>, up: seq<Request>, c: ClientId, k: ResKey)
    requires |bs| == ME_MAX_TICKERS && k.0 < ME_MAX_TICKERS
    ensures !Expect(bs, up, c, k).Wrong?
  {
  }

  /** The next response agrees with what the client knows of its order. */
  lemma NextAgrees(s: Trip, limits: seq<Limits>)
    requires Inv(s, limits) && s.down != []
    ensures s.down[0].ticker < ME_MAX_TICKERS && s.down[0].client == s.client.id
    ensures !Hear(ViewOf(s.client.account.risk, ResponseKey(s.down[0])), s.down[0]).Wrong?
  {
    hide UpOk, Unseen, UsedOk, DownOk, AccountInv, BookInv, HistoryOk, HearAll, Hear, ViewOf, Expect, PositionsAre;
    var p := s.down[0];
    var k := ResponseKey(p);
    assert Chain(s.client.id, s.client.account.positions, s.client.lastResponseId, s.down);
    assert KnowsOf(s.client.account.risk, s.down, s.engine.books, s.up, s.client.id, k);
    ExpectNotWrong(s.engine.books, s.up, s.client.id, k);
    NotWrong(ViewOf(s.client.account.risk, k), s.down, k.0, Owner(s.client.id, k.1));
  }

  /** Taking a response that agrees: the account stays trusted, the reservation is what the response says is
      open, and the position is the one it carries. */
  lemma Taken(c: Client, limits: seq<Limits>, p: Response)
    requires ClientOk(c) && AccountInv(c.account, limits) && c.reconciled
    requires p.client == c.id && p.ticker < ME_MAX_TICKERS && c.lastResponseId < p.responseId
    requires p.position == c.account.positions[p.ticker] + Signed(p)
    requires !Hear(ViewOf(c.account.risk, ResponseKey(p)), p).Wrong?
    ensures var c' := OnOrderUpdate(c, p);
            && ClientOk(c') && AccountInv(c'.account, limits) && c'.reconciled
            && c'.id == c.id && c'.lastResponseId == p.responseId
            && c'.account.positions == Moved(c.account.positions, p)
            && c'.account.positions[p.ticker] == p.position
            && ViewOf(c'.account.risk, ResponseKey(p)) == Hear(ViewOf(c.account.risk, ResponseKey(p)), p)
            && forall k :: k != ResponseKey(p) ==> ViewOf(c'.account.risk, k) == ViewOf(c.account.risk, k)
  {
    AgreeingResponse(c.account.risk, p);
    hide AccountInv, OnResponse, ViewOf, Hear;
    ResponseKeeps(c.account, limits, p);
    InvSized(Booked(c.account, p), limits);
    if p.kind.Filled? {
      assert Signed(p) == p.execQty * p.side.Value();
    } else {
      assert c.account.positions[p.ticker := c.account.positions[p.ticker]] == c.account.positions;
    }
  }

  lemma DeliverKnows(s: Trip, c': Client, k: ResKey)
    requires s.down != [] && |s.engine.books| == ME_MAX_TICKERS && k.0 < ME_MAX_TICKERS
    requires KnowsOf(s.client.account.risk, s.down, s.engine.books, s.up, s.client.id, k) && s.down[0].client == s.client.id
    requires ViewOf(c'.account.risk, k) == if k == ResponseKey(s.down[0])
               then Hear(ViewOf(s.client.account.risk, k), s.down[0]) else ViewOf(s.client.account.risk, k)
    ensures KnowsOf(c'.account.risk, s.down[1..], s.engine.books, s.up, s.client.id, k)
  {
    hide Hear, ViewOf, Expect;
    HearFirst(ViewOf(s.client.account.risk, k), s.down, k.0, Owner(s.client.id, k.1));
  }

  lemma DeliverInStep(c: Client, c': Client, down: seq<Response>, d: Outbox)
    requires InStep(c, down, d) && down != [] && c'.id == c.id && c'.lastResponseId == down[0].responseId
    requires c'.account.positions == Moved(c.account.positions, down[0])
    ensures InStep(c', down[1..], d)
  {
    hide PositionsAre, Signed;
  }

  lemma DeliverDown(down: seq<Response>, submitted: set<ResKey>)
    requires DownOk(down, submitted) && down != []
    ensures DownOk(down[1..], submitted)
  {
  }

  /** What the chain says of the next response. */
  lemma ChainHead(c: Client, down: seq<Response>, d: Outbox)
    requires InStep(c, down, d) && down != [] && |c.account.positions| == ME_MAX_TICKERS
    ensures down[0].client == c.id && down[0].ticker < ME_MAX_TICKERS && c.lastResponseId < down[0].responseId
    ensures down[0].position == c.account.positions[down[0].ticker] + Signed(down[0])
  {
  }

  lemma DeliverKeeps(s: Trip, limits: seq<Limits>)
    requires Inv(s, limits) && s.down != []
    ensures Inv(Do(s, limits, Deliver), limits)
  {
    hide UpOk, Unseen, UsedOk, DownOk, KnowsOf, AccountInv, BookInv, HistoryOk, ViewOf, Hear, OnOrderUpdate, InStep;
    NextAgrees(s, limits);
    ChainHead(s.client, s.down, s.engine.outbox);
    Taken(s.client, limits, s.down[0]);
    var c' := OnOrderUpdate(s.client, s.down[0]);
    DeliverInStep(s.client, c', s.down, s.engine.outbox);
    DeliverDown(s.down, s.submitted);
    forall k: ResKey | k.0 < ME_MAX_TICKERS
      ensures KnowsOf(c'.account.risk, s.down[1..], s.engine.books, s.up, s.client.id, k)
    {
      assert KnowsOf(s.client.account.risk, s.down, s.engine.books, s.up, s.client.id, k);
      DeliverKnows(s, c', k);
    }
  }

  // ------------------------------------------------------------------ every run

  lemma StepKeeps(s: Trip, limits: seq<Limits>, a: Step)
    requires Inv(s, limits) && Enabled(s, a)
    ensures Inv(Do(s, limits, a), limits)
  {
    match a
    case Submit(q, x) => hide Inv; SubmitKeeps(s, limits, q, x);
    case Arrive =>
      assert OwnRequest(s.up[0], s.client.id, s.submitted);
      hide Inv;
      ServedKeeps(s, limits, s.up[0], s.up[1..]);
    case Other(q) => hide Inv; ServedKeeps(s, limits, q, s.up);
    case Deliver => hide Inv; DeliverKeeps(s, limits);
  }

  function Begin(c: ClientId): Trip {
    Trip(Client(c, Account(NO_RISK, NO_POSITIONS), true, 0), [], START, [], {})
  }

  lemma NothingKnown(c: ClientId, k: ResKey)
    requires k.0 < ME_MAX_TICKERS
    ensures KnowsOf(NO_RISK, [], NO_ORDERS, [], c, k)
  {
  }

  lemma BeginInv(c: ClientId, limits: seq<Limits>)
    requires c < ME_MAX_NUM_CLIENTS && Configured(limits)
    ensures Inv(Begin(c), limits)
  {
    hide KnowsOf, AccountInv, BooksOk;
    StartOk();
    InitialAccount(limits);
    forall k: ResKey | k.0 < ME_MAX_TICKERS ensures KnowsOf(NO_RISK, [], NO_ORDERS, [], c, k) { NothingKnown(c, k); }
  }

  /** A run: each state follows from the one before by some step. */
  ghost predicate IsRun(limits: seq<Limits>, c: ClientId, run: seq<Trip>) {
    run != [] && run[0] == Begin(c) && forall i :: 0 <= i < |run| - 1 ==> Follows(limits, run[i], run[i + 1])
  }

  ghost predicate Follows(limits: seq<Limits>, s: Trip, s': Trip) {
    exists a :: Typed(s, limits) && Enabled(s, a) && s' == Do(s, limits, a)
  }

  ghost predicate Configured(limits: seq<Limits>) {
    |limits| == ME_MAX_TICKERS && forall t :: 0 <= t < ME_MAX_TICKERS ==> limits[t].maxPosition <= QTY_INVALID
  }

  lemma {:induction false} RunInv(limits: seq<Limits>, c: ClientId, run: seq<Trip>, i: nat)
    requires c < ME_MAX_NUM_CLIENTS && Configured(limits) && IsRun(limits, c, run) && i < |run|
    ensures Inv(run[i], limits)
  {
    hide Inv, Possible, Disciplined, Do, Typed;
    if i == 0 {
      BeginInv(c, limits);
    } else {
      RunInv(limits, c, run, i - 1);
      assert Follows(limits, run[i - 1], run[i - 1 + 1]);
      var a :| Typed(run[i - 1], limits) && Enabled(run[i - 1], a) && run[i] == Do(run[i - 1], limits, a);
      StepKeeps(run[i - 1], limits, a);
    }
  }

  /** The main result. In no run does the client ever need reconciliation; its positions stay within their
      limits; and whenever a response arrives, the reservation it leaves is the quantity it reports as open
      (none after a cancel or a rejection), and the client's position is the one it carries. */
  lemma NeverUnreconciled(limits: seq<Limits>, c: ClientId, run: seq<Trip>, i: nat)
    requires c < ME_MAX_NUM_CLIENTS && Configured(limits) && IsRun(limits, c, run) && i < |run|
    ensures run[i].client.reconciled && ClientOk(run[i].client)
    ensures forall t :: 0 <= t < ME_MAX_TICKERS ==> Abs(run[i].client.account.positions[t]) <= limits[t].maxPosition
    ensures run[i].down != [] ==>
              var p := run[i].down[0];
              var after := OnOrderUpdate(run[i].client, p);
              && after.reconciled && p.ticker < ME_MAX_TICKERS && ClientOk(after)
              && QtyOf(ViewOf(after.account.risk, ResponseKey(p)))
                 == (if p.kind.Canceled? || p.kind.Rejected? then 0 else p.leavesQty)
              && after.account.positions[p.ticker] == p.position
  {
    var s := run[i];
    RunInv(limits, c, run, i);
    hide IsRun;
    forall t | 0 <= t < ME_MAX_TICKERS ensures Abs(s.client.account.positions[t]) <= limits[t].maxPosition {
      assert WithinLimits(s.client.account, limits[t], t);
    }
    if s.down != [] {
      NextAgrees(s, limits);
      Reported(s.client, limits, s);
    }
  }

  lemma Reported(c: Client, limits: seq<Limits>, s: Trip)
    requires Inv(s, limits) && s.down != [] && c == s.client && s.down[0].ticker < ME_MAX_TICKERS
    requires s.down[0].client == c.id && !Hear(ViewOf(c.account.risk, ResponseKey(s.down[0])), s.down[0]).Wrong?
    ensures var p := s.down[0];
            var after := OnOrderUpdate(c, p);
            && after.reconciled && ClientOk(after)
            && QtyOf(ViewOf(after.account.risk, ResponseKey(p)))
               == (if p.kind.Canceled? || p.kind.Rejected? then 0 else p.leavesQty)
            && after.account.positions[p.ticker] == p.position
  {
    hide UpOk, Unseen, UsedOk, KnowsOf, AccountInv, BookInv, HistoryOk, ViewOf, OnOrderUpdate, PositionsAre, Signed;
    assert Chain(c.id, c.account.positions, c.lastResponseId, s.down);
    Taken(c, limits, s.down[0]);
  }

  /** Once nothing is on its way, the client's reservations are exactly its orders in the exchange's books and
      its positions are the exchange's. */
  lemma AgreementWhenQuiet(limits: seq<Limits>, c: ClientId, run: seq<Trip>, i: nat, k: ResKey)
    requires c < ME_MAX_NUM_CLIENTS && Configured(limits) && IsRun(limits, c, run) && i < |run|
    requires run[i].up == [] && run[i].down == [] && k.0 < ME_MAX_TICKERS
    ensures |run[i].engine.books| == ME_MAX_TICKERS && ClientOk(run[i].client)
    ensures ViewOf(run[i].client.account.risk, k) == LiveIn(run[i].engine.books[k.0].resting, Owner(run[i].client.id, k.1))
    ensures run[i].client.account.positions[k.0] == PositionOf(run[i].engine.outbox.positions, run[i].client.id, k.0)
  {
    hide LiveIn, ViewOf, IsRun;
    RunInv(limits, c, run, i);
    var s := run[i];
    assert KnowsOf(s.client.account.risk, s.down, s.engine.books, s.up, s.client.id, k);
  }

  // ------------------------------------------------------------------ why the discipline is needed

  /** A cancel that overtakes its own order: the engine's answer to it reaches a client that already holds
      the reservation, and the client stops trusting its account. */
  lemma CancelBeforeItsOrder(e: Engine, q: Request, c: Client)
    requires BooksOk(e.books) && q.kind.CancelOrder? && Validate(q) == NoReason
    requires LiveIn(e.books[q.ticker].resting, OwnerOf(q)) == Gone
    requires ClientOk(c) && c.id == q.client && c.lastResponseId < e.outbox.nextId
    requires QtyOf(ViewOf(c.account.risk, RequestKey(q))) > 0
    ensures |EngineSpec.Process(e, q).responses| == 1
    ensures !OnOrderUpdate(c, EngineSpec.Process(e, q).responses[0]).reconciled
  {
    hide BookInv, HistoryOk;
    var rs := Handle(e.books, q).1;
    assert |rs| == 1 && rs[0].kind.CancelRejected? && rs[0].leavesQty == 0;
    StampedAt(e.outbox, rs, 0);
  }

  /** An id used again: the engine's rejection reaches a client that holds the new reservation. */
  lemma ReusedId(e: Engine, q: Request, c: Client)
    requires BooksOk(e.books) && q.kind.New? && Validate(q) == NoReason && OwnerOf(q) in e.books[q.ticker].used
    requires ClientOk(c) && c.id == q.client && c.lastResponseId < e.outbox.nextId
    requires RequestKey(q) in c.account.risk.reservations
    ensures |EngineSpec.Process(e, q).responses| == 1
    ensures !OnOrderUpdate(c, EngineSpec.Process(e, q).responses[0]).reconciled
  {
    hide BookInv, HistoryOk;
    var rs := Handle(e.books, q).1;
    assert |rs| == 1 && rs[0].kind.Rejected? && rs[0].reason == DuplicateId;
    StampedAt(e.outbox, rs, 0);
  }
}
