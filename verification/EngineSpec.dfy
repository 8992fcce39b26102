/** `MatchingEngine`: one book per ticker, numbered responses that carry the client's position. */
module EngineSpec {
  import opened Types
  import opened PriceBooks
  import opened MatchSpec
  import opened MatchInvariants
  import opened OrderLife

  /** Exchange positions by client and ticker; absent means zero. */
  type Positions = map<(ClientId, TickerId), int>

  function PositionOf(p: Positions, c: ClientId, t: TickerId): int {
    if (c, t) in p then p[(c, t)] else 0
  }

  /** What `sendClientResponse` keeps. */
  datatype Outbox = Outbox(nextId: nat, positions: Positions)

  predicate Counted(r: Response) { r.client < ME_MAX_NUM_CLIENTS && r.ticker < ME_MAX_TICKERS }

  /** The position change an execution report stands for. */
  function Signed(r: Response): int { if r.kind.Filled? then r.execQty * r.side.Value() else 0 }

  function Stamp(d: Outbox, r: Response): (Outbox, Response) {
    if Counted(r) then
      var now := PositionOf(d.positions, r.client, r.ticker) + Signed(r);
      (Outbox(d.nextId + 1, d.positions[(r.client, r.ticker) := now]), r.(responseId := d.nextId, position := now))
    else
      (d.(nextId := d.nextId + 1), r.(responseId := d.nextId))
  }

  function StampAll(d: Outbox, rs: seq<Response>): (r: (Outbox, seq<Response>))
    ensures |r.1| == |rs|
    decreases |rs|
  {
    if rs == [] then (d, [])
    else
      var (d', first) := Stamp(d, rs[0]);
      var rest := StampAll(d', rs[1..]);
      (rest.0, [first] + rest.1)
  }

  /** `Wire::validate`. */
  function Validate(q: Request): RejectReason {
    if q.client >= ME_MAX_NUM_CLIENTS || q.ticker >= ME_MAX_TICKERS || q.orderId >= ME_MAX_ORDER_IDS then InvalidId
    else if q.kind.Query? then NoReason
    else if !q.kind.New? && !q.kind.CancelOrder? then InvalidType
    else if q.orderId == 0 then InvalidId
    else if q.kind.CancelOrder? then NoReason
    else if !q.side.Valid() then InvalidSide
    else if q.price <= 0 || q.price == PRICE_INVALID then InvalidPrice
    else if q.qty == 0 || q.qty == QTY_INVALID || q.qty > INT32_MAX then InvalidQty
    else NoReason
  }

  /** A request whose fields mean something. */
  predicate WellFormed(q: Request) {
    && q.client < ME_MAX_NUM_CLIENTS && q.ticker < ME_MAX_TICKERS && q.orderId < ME_MAX_ORDER_IDS
    && match q.kind
       case Query => true
       case CancelOrder => q.orderId > 0
       case New =>
         q.orderId > 0 && (q.side == Buy || q.side == Sell) && 0 < q.price && q.price != PRICE_INVALID
         && 0 < q.qty <= INT32_MAX
       case NoRequest => false
  }

  /** The reason names a field that is wrong. */
  predicate Wrong(q: Request, reason: RejectReason) {
    match reason
    case InvalidId =>
      q.client >= ME_MAX_NUM_CLIENTS || q.ticker >= ME_MAX_TICKERS || q.orderId >= ME_MAX_ORDER_IDS || (q.orderId == 0 && !q.kind.Query?)
    case InvalidType => q.kind.NoRequest?
    case InvalidSide => q.kind.New? && q.side != Buy && q.side != Sell
    case InvalidPrice => q.kind.New? && (q.price <= 0 || q.price == PRICE_INVALID)
    case InvalidQty => q.kind.New? && (q.qty == 0 || q.qty > INT32_MAX)
    case _ => false
  }

  lemma ValidateExactlyWhen(q: Request)
    ensures Validate(q) == NoReason <==> WellFormed(q)
    ensures Validate(q) != NoReason ==> Wrong(q, Validate(q))
  {
  }

  lemma ValidTicker(q: Request)
    requires Validate(q) == NoReason
    ensures q.ticker < ME_MAX_TICKERS
  {
  }

  const NO_ORDERS: seq<Book> :=
    [EMPTY_BOOK, EMPTY_BOOK, EMPTY_BOOK, EMPTY_BOOK, EMPTY_BOOK, EMPTY_BOOK, EMPTY_BOOK, EMPTY_BOOK]

  datatype Engine = Engine(books: seq<Book>, outbox: Outbox)

  const START := Engine(NO_ORDERS, Outbox(1, map[]))

  datatype Output = Output(engine: Engine, responses: seq<Response>, events: seq<Event>)

  function OwnerOf(q: Request): Owner { Owner(q.client, q.orderId) }

  ghost predicate BooksOk(bs: seq<Book>) {
    |bs| == ME_MAX_TICKERS && forall t :: 0 <= t < ME_MAX_TICKERS ==> BookInv(bs[t]) && HistoryOk(bs[t], t)
  }

  /** What the book of ticker `t` does with a valid request. */
  ghost function Serve(b: Book, t: TickerId, q: Request): Step
    requires BookInv(b)
  {
    match q.kind
    case New => AddOrder(b, t, OwnerOf(q), q.ticker, q.side, q.price, q.qty)
    case CancelOrder => CancelOf(b, t, OwnerOf(q), q.ticker)
    case Query => Step(b, QueryOf(b, t, OwnerOf(q)), [])
    case NoRequest => Step(b, [], [])
  }

  function Refusal(q: Request): Response {
    Response(Rejected, q.client, q.ticker, q.orderId, ORDER_ID_INVALID, q.side, q.price, 0, 0, Validate(q), 0, 0)
  }

  /** What a request does to the books, before the responses are numbered. */
  ghost function Handle(bs: seq<Book>, q: Request): (r: (seq<Book>, seq<Response>, seq<Event>))
    requires BooksOk(bs)
  {
    if Validate(q) != NoReason then (bs, [Refusal(q)], [])
    else
      var s := Serve(bs[q.ticker], q.ticker, q);
      (bs[q.ticker := s.book], s.responses, s.events)
  }

  /** `processClientRequest`. */
  ghost function Process(e: Engine, q: Request): Output
    requires BooksOk(e.books)
  {
    var (bs, rs, es) := Handle(e.books, q);
    var (d, out) := StampAll(e.outbox, rs);
    Output(Engine(bs, d), out, es)
  }

  lemma ServeKeeps(b: Book, q: Request)
    requires BookInv(b) && HistoryOk(b, q.ticker) && Validate(q) == NoReason
    ensures BookInv(Serve(b, q.ticker, q).book) && HistoryOk(Serve(b, q.ticker, q).book, q.ticker)
  {
    hide BookInv, HistoryOk;
    match q.kind
    case New =>
      AddKeeps(b, q.ticker, OwnerOf(q), q.ticker, q.side, q.price, q.qty);
      AddRecalls(b, q.ticker, OwnerOf(q), q.ticker, q.side, q.price, q.qty);
    case CancelOrder =>
      CancelKeeps(b, q.ticker, OwnerOf(q), q.ticker);
      CancelRecalls(b, q.ticker, OwnerOf(q), q.ticker);
    case _ =>
  }

  /** Every request, valid or not, keeps every book's invariant and its response history. */
  lemma HandleKeeps(bs: seq<Book>, q: Request)
    requires BooksOk(bs)
    ensures BooksOk(Handle(bs, q).0)
  {
    hide BookInv, HistoryOk, Serve;
    if Validate(q) == NoReason { ServeKeeps(bs[q.ticker], q); }
  }

  lemma StartOk()
    ensures BooksOk(START.books)
  {
  }

  /** The engine after a run of requests, and everything it sent. */
  ghost function Run(qs: seq<Request>): (r: Output)
    ensures |r.engine.books| == ME_MAX_TICKERS && BooksOk(r.engine.books)
  {
    if qs == [] then StartOk(); Output(START, [], [])
    else
      var before := Run(qs[..|qs| - 1]);
      HandleKeeps(before.engine.books, qs[|qs| - 1]);
      var out := Process(before.engine, qs[|qs| - 1]);
      Output(out.engine, before.responses + out.responses, before.events + out.events)
  }
}
