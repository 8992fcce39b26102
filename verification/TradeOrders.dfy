/** The order side of `TradeEngine`: what it sends, and how it books the responses. */
module TradeOrders {
  import opened Types
  import opened RiskSpec
  import opened EngineSpec
  import opened OrderLife

  /** A trading client: its account, whether it still trusts it, and the last response number it took. */
  datatype Client = Client(id: ClientId, account: Account, reconciled: bool, lastResponseId: nat)

  predicate ClientOk(c: Client) { Sized(c.account.risk) && |c.account.positions| == ME_MAX_TICKERS }

  /** What the world outside decides about one attempt to send: whether the order session is up, whether new
      orders are admitted and the market is ready, the current profit, and whether the queue is full. */
  datatype Chance = Chance(session: bool, admitting: bool, ready: bool, totalPnl: real, full: bool)

  /** `sendClientRequest`: the client afterwards, and whether the request was sent. */
  function Send(c: Client, limits: seq<Limits>, q: Request, x: Chance): (Client, bool)
    requires ClientOk(c) && |limits| == ME_MAX_TICKERS
  {
    if (!x.admitting && q.kind.New?) || Validate(q) != NoReason || q.client != c.id || !c.reconciled
       || !x.session || (q.kind.New? && !x.ready) then (c, false)
    else
      var (r, result) := Reserve(c.account.risk, limits[q.ticker], c.account.positions[q.ticker], x.totalPnl, q);
      if result != Allowed then (c, false)
      else if x.full then (c.(account := c.account.(risk := Rollback(r, q))), false)
      else (c.(account := c.account.(risk := r)), true)
  }

  /** `onOrderUpdate`. */
  function OnOrderUpdate(c: Client, p: Response): Client
    requires ClientOk(c)
  {
    if p.client != c.id || p.ticker >= ME_MAX_TICKERS then c.(reconciled := false)
    else if p.responseId != 0 && p.responseId <= c.lastResponseId then c
    else if p.responseId == 0 && p.kind.Filled? then c.(reconciled := false)
    else
      var c' := c.(lastResponseId := if p.responseId != 0 then p.responseId else c.lastResponseId,
                   account := Booked(c.account, p));
      if !OnResponse(c.account.risk, p).1 || (p.kind.State? && p.position != c'.account.positions[p.ticker])
      then c'.(reconciled := false) else c'
  }

  /** An order as the client's reservations show it. */
  function ViewOf(r: Risk, k: ResKey): View {
    if k in r.reservations then Open(r.reservations[k].side, r.reservations[k].qty) else Gone
  }

  function ResponseKey(p: Response): ResKey { (p.ticker, p.clientOrderId) }

  /** A response that agrees with what the client knows is taken, and the reservation becomes what the
      response says is open. */
  lemma AgreeingResponse(r: Risk, p: Response)
    requires Sized(r) && p.ticker < ME_MAX_TICKERS && !Hear(ViewOf(r, ResponseKey(p)), p).Wrong?
    ensures OnResponse(r, p).1
    ensures ViewOf(OnResponse(r, p).0, ResponseKey(p)) == Hear(ViewOf(r, ResponseKey(p)), p)
    ensures forall k :: k != ResponseKey(p) ==> ViewOf(OnResponse(r, p).0, k) == ViewOf(r, k)
    ensures Sized(OnResponse(r, p).0)
  {
    hide Minus;
  }

  /** What a response says against what the client holds under its key: an execution must be on the held side and add
      up to the held quantity, a rejected cancel must find the held quantity open, and an order held must not turn out
      to be a duplicate; without a reservation nothing may execute. */
  predicate Contradicts(r: Risk, p: Response) {
    var k := ResponseKey(p);
    if k !in r.reservations then p.kind.Filled?
    else
      var held := r.reservations[k];
      || (p.kind.Filled? && !(p.side == held.side && p.execQty > 0 && p.execQty + p.leavesQty == held.qty))
      || (p.kind.CancelRejected? && p.leavesQty != held.qty)
      || (p.kind.Rejected? && p.reason == DuplicateId)
  }

  /** Addressed to the client, about a known ticker. */
  predicate Addressed(c: Client, p: Response) { p.client == c.id && p.ticker < ME_MAX_TICKERS }

  predicate Repeat(c: Client, p: Response) { p.responseId != 0 && p.responseId <= c.lastResponseId }

  /** For any response at all. A repeat changes nothing. Trust ends exactly with a response that is not the client's,
      an execution without a number, a contradiction, or a state report of another position; a contradiction books
      nothing. Otherwise an execution moves the position by its quantity, and the reservation is what the response
      leaves of it. */
  lemma ResponseLaw(c: Client, p: Response)
    requires ClientOk(c)
    ensures var c' := OnOrderUpdate(c, p);
            && (Addressed(c, p) && Repeat(c, p) ==> c' == c)
            && (c'.reconciled <==>
                  && c.reconciled && Addressed(c, p)
                  && (Repeat(c, p) || (&& (p.responseId == 0 ==> !p.kind.Filled?)
                                       && !Contradicts(c.account.risk, p)
                                       && (p.kind.State? ==> p.position == c.account.positions[p.ticker]))))
            && c'.id == c.id && c.lastResponseId <= c'.lastResponseId
            && (Addressed(c, p) && !Repeat(c, p) && !Contradicts(c.account.risk, p) && (p.responseId == 0 ==> !p.kind.Filled?) ==>
                  && (p.responseId != 0 ==> c'.lastResponseId == p.responseId)
                  && c'.account.positions ==
                     (if p.kind.Filled? then c.account.positions[p.ticker := c.account.positions[p.ticker] + p.execQty * p.side.Value()]
                      else c.account.positions)
                  && (ResponseKey(p) in c'.account.risk.reservations <==>
                        && ResponseKey(p) in c.account.risk.reservations && !p.kind.Canceled? && !p.kind.Rejected?
                        && (p.kind.Filled? ==> p.leavesQty > 0))
                  && (p.kind.Filled? && p.leavesQty > 0 ==> c'.account.risk.reservations[ResponseKey(p)].qty == p.leavesQty))
            && (!Addressed(c, p) || Repeat(c, p) || Contradicts(c.account.risk, p) || (p.responseId == 0 && p.kind.Filled?) ==>
                  c'.account == c.account)
  {
    hide Minus;
  }
}
