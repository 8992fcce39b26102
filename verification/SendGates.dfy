/**
 Exactly when a client's request goes out: every gate, every limit, in both directions. A request that does not go
 out leaves the client as it was.
*/
module SendGates {
  import opened Types
  import opened EngineSpec
  import opened RiskSpec
  import opened TradeOrders
  import opened RoundTrip

  /** A new order within every limit: its size, the loss so far, the position it could lead to alone, and the
      position that it and all reservations of either side could lead to; under an id not reserved. */
  ghost predicate Affordable(a: Account, l: Limits, totalPnl: real, q: Request)
    requires |a.positions| == ME_MAX_TICKERS && q.ticker < ME_MAX_TICKERS
  {
    var at, m := a.positions[q.ticker], a.risk.reservations;
    && (q.ticker, q.orderId) !in m
    && q.qty <= l.maxOrderSize && totalPnl >= l.maxLoss
    && 0 - l.maxPosition <= (if q.side.Buy? then at + q.qty else at - q.qty) <= l.maxPosition
    && at + Total(m, q.ticker, Buy) + (if q.side.Buy? then q.qty else 0) <= l.maxPosition
    && at - Total(m, q.ticker, Sell) - (if q.side.Sell? then q.qty else 0) >= 0 - l.maxPosition
  }

  /** All gates of `sendClientRequest` but the risk check and the queue. */
  predicate GatesOpen(c: Client, q: Request, x: Chance) {
    && q.client == c.id && c.reconciled && x.session
    && (q.kind.New? ==> x.admitting && x.ready)
  }

  lemma CheckExactlyWhen(a: Account, limits: seq<Limits>, totalPnl: real, q: Request)
    requires AccountInv(a, limits) && q.kind.New? && WellFormed(q)
    ensures Reserve(a.risk, limits[q.ticker], a.positions[q.ticker], totalPnl, q).1 == Allowed
            <==> Affordable(a, limits[q.ticker], totalPnl, q)
    ensures Reserve(a.risk, limits[q.ticker], a.positions[q.ticker], totalPnl, q).1 != Allowed ==>
              Reserve(a.risk, limits[q.ticker], a.positions[q.ticker], totalPnl, q).0 == a.risk
  {
    hide Total, Plus;
    PendingSmall(a, limits, q.ticker);
    Smaller(a, limits, q.ticker);
    var buy, sell := a.risk.pendingBuy[q.ticker], a.risk.pendingSell[q.ticker];
    PlusSmall(buy, q.qty);
    PlusSmall(sell, q.qty);
    PlusSmall(buy, 0);
    PlusSmall(sell, 0);
  }

  lemma Smaller(a: Account, limits: seq<Limits>, t: TickerId)
    requires AccountInv(a, limits) && t < ME_MAX_TICKERS
    ensures a.risk.pendingBuy[t] + INT32_MAX < TWO_64 && a.risk.pendingSell[t] + INT32_MAX < TWO_64
  {
    hide PendingOk;
    assert WithinLimits(a, limits[t], t) && limits[t].maxPosition <= QTY_INVALID;
  }

  /** A reservation taken back leaves nothing behind. */
  lemma RolledBack(a: Account, limits: seq<Limits>, totalPnl: real, q: Request)
    requires AccountInv(a, limits) && WellFormed(q)
    requires Reserve(a.risk, limits[q.ticker], a.positions[q.ticker], totalPnl, q).1 == Allowed
    ensures Rollback(Reserve(a.risk, limits[q.ticker], a.positions[q.ticker], totalPnl, q).0, q) == a.risk
  {
    hide Total, Plus, Minus, Check;
    if q.kind.New? {
      PendingSmall(a, limits, q.ticker);
      Smaller(a, limits, q.ticker);
      var r, t := a.risk, q.ticker;
      var k := (t, q.orderId);
      PlusSmall(Pending(r, q.side, t), q.qty);
      assert Minus(Pending(r, q.side, t) + q.qty, q.qty) == Pending(r, q.side, t) by { MinusBack(Pending(r, q.side, t), q.qty); }
      assert r.reservations[k := Reservation(q.side, q.qty, q.price)] - {k} == r.reservations;
      assert r.pendingBuy[t := r.pendingBuy[t]] == r.pendingBuy && r.pendingSell[t := r.pendingSell[t]] == r.pendingSell;
    }
  }

  lemma MinusBack(a: nat, b: nat)
    requires a + b < TWO_64
    ensures Minus(a + b, b) == a
  {
  }

  /** What one attempt does: the request goes out exactly when it is well formed, the gates are open, a new order is
      affordable and the queue has room. Then a new order is reserved, and nothing else changes; otherwise nothing
      changes at all. */
  lemma SentExactlyWhen(c: Client, limits: seq<Limits>, q: Request, x: Chance)
    requires ClientOk(c) && AccountInv(c.account, limits)
    ensures var (c', sent) := Send(c, limits, q, x);
            && (sent <==> WellFormed(q) && GatesOpen(c, q, x) && !x.full
                          && (q.kind.New? ==> Affordable(c.account, limits[q.ticker], x.totalPnl, q)))
            && (!sent ==> c' == c)
            && (sent ==> c' == c.(account := c'.account) && c'.account.positions == c.account.positions
                         && c'.account.risk.reservations ==
                            if q.kind.New? then c.account.risk.reservations[(q.ticker, q.orderId) := Reservation(q.side, q.qty, q.price)]
                            else c.account.risk.reservations)
  {
    hide Total, Rollback, Validate, WellFormed, Affordable, AccountInv, PendingOk, WithinLimits;
    ValidateExactlyWhen(q);
    LimitsSized(c.account, limits);
    if WellFormed(q) {
      FieldsIn(q);
      var a, l := c.account, limits[q.ticker];
      if q.kind.New? { CheckExactlyWhen(a, limits, x.totalPnl, q); }
      if Reserve(a.risk, l, a.positions[q.ticker], x.totalPnl, q).1 == Allowed { RolledBack(a, limits, x.totalPnl, q); }
      assert a.(risk := a.risk) == a && c.(account := a) == c;
    }
  }

  lemma LimitsSized(a: Account, limits: seq<Limits>)
    requires AccountInv(a, limits)
    ensures |limits| == ME_MAX_TICKERS
  {
  }

  lemma FieldsIn(q: Request)
    requires WellFormed(q)
    ensures q.ticker < ME_MAX_TICKERS
  {
  }

  /** In every state of every run: submitting a request puts it on its way, as the last, exactly under those
      conditions; so none goes out while the client is unreconciled or its session is down, and no new order while
      the client is not admitting or its market not ready. A refusal changes nothing. */
  lemma SubmittedExactlyWhen(limits: seq<Limits>, c: ClientId, run: seq<Trip>, i: nat, q: Request, x: Chance)
    requires c < ME_MAX_NUM_CLIENTS && Configured(limits) && IsRun(limits, c, run) && i < |run|
    ensures Typed(run[i], limits)
    ensures var s, s' := run[i], RoundTrip.Do(run[i], limits, Submit(q, x));
            if WellFormed(q) && GatesOpen(s.client, q, x) && !x.full
               && (q.kind.New? ==> Affordable(s.client.account, limits[q.ticker], x.totalPnl, q))
            then s'.up == s.up + [q] && s'.down == s.down && s'.engine == s.engine
            else s' == s
  {
    hide IsRun, Send, WellFormed, Affordable, GatesOpen, AccountInv, UpOk, Unseen, UsedOk, DownOk, Knows, InStep, BooksOk;
    RunInv(limits, c, run, i);
    SentExactlyWhen(run[i].client, limits, q, x);
    if WellFormed(q) { FieldsIn(q); }
    assert run[i].(client := run[i].client) == run[i];
  }
}
