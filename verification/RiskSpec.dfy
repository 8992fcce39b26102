/** Risk reservations: `RiskManager`, as functions on its state, and what they keep for any responses. */
module RiskSpec {
  import opened Types

  type ResKey = (TickerId, OrderId)

  datatype Reservation = Reservation(side: Side, qty: nat, price: int)

  /** Open reservations, and the pending quantity per ticker and side. */
  datatype Risk = Risk(reservations: map<ResKey, Reservation>, pendingBuy: seq<nat>, pendingSell: seq<nat>)

  datatype Limits = Limits(maxOrderSize: nat, maxPosition: nat, maxLoss: real)

  datatype RiskResult = Unacceptable | OrderTooLarge | PositionTooLarge | LossTooLarge | Allowed

  const ZEROS: seq<nat> := [0, 0, 0, 0, 0, 0, 0, 0]
  const NO_RISK := Risk(map[], ZEROS, ZEROS)

  function Plus(a: nat, b: nat): nat { (a + b) % TWO_64 }

  /** Unsigned 64-bit subtraction, which wraps around below zero. */
  function Minus(a: nat, b: nat): nat { (a - b) % TWO_64 }

  function Pending(r: Risk, side: Side, t: TickerId): nat
    requires t < |r.pendingBuy| && t < |r.pendingSell|
  {
    if side.Buy? then r.pendingBuy[t] else r.pendingSell[t]
  }

  function SetPending(r: Risk, side: Side, t: TickerId, v: nat): Risk
    requires t < |r.pendingBuy| && t < |r.pendingSell|
  {
    if side.Buy? then r.(pendingBuy := r.pendingBuy[t := v]) else r.(pendingSell := r.pendingSell[t := v])
  }

  predicate Sized(r: Risk) { |r.pendingBuy| == ME_MAX_TICKERS && |r.pendingSell| == ME_MAX_TICKERS }

  /** `checkPreTradeRisk`, against the current position and loss of the ticker. */
  function Check(r: Risk, l: Limits, position: int, totalPnl: real, t: TickerId, side: Side, qty: nat): RiskResult
    requires Sized(r)
  {
    if t >= ME_MAX_TICKERS then Unacceptable
    else if !side.Valid() || qty == 0 || qty > INT32_MAX then Unacceptable
    else if qty > l.maxOrderSize then OrderTooLarge
    else if Abs(position + side.Value() * qty) > l.maxPosition then PositionTooLarge
    else if totalPnl < l.maxLoss then LossTooLarge
    else
      var buys := Plus(r.pendingBuy[t], if side.Buy? then qty else 0);
      var sells := Plus(r.pendingSell[t], if side.Sell? then qty else 0);
      if position + buys > l.maxPosition || sells - position > l.maxPosition then PositionTooLarge
      else Allowed
  }

  /** `reserve`: only new orders reserve, each key once. */
  function Reserve(r: Risk, l: Limits, position: int, totalPnl: real, q: Request): (Risk, RiskResult)
    requires Sized(r)
  {
    if !q.kind.New? then (r, Allowed)
    else if (q.ticker, q.orderId) in r.reservations then (r, Unacceptable)
    else
      var result := Check(r, l, position, totalPnl, q.ticker, q.side, q.qty);
      if result != Allowed then (r, result)
      else
        var r' := r.(reservations := r.reservations[(q.ticker, q.orderId) := Reservation(q.side, q.qty, q.price)]);
        (SetPending(r', q.side, q.ticker, Plus(Pending(r, q.side, q.ticker), q.qty)), result)
  }

  /** Gives up a whole reservation. */
  function Release(r: Risk, k: ResKey): Risk
    requires Sized(r) && k in r.reservations && k.0 < ME_MAX_TICKERS
  {
    var held := r.reservations[k];
    SetPending(r.(reservations := r.reservations - {k}), held.side, k.0, Minus(Pending(r, held.side, k.0), held.qty))
  }

  /** `rollback`, when the outgoing queue is full. */
  function Rollback(r: Risk, q: Request): Risk
    requires Sized(r) && q.ticker < ME_MAX_TICKERS
  {
    if q.kind.New? && (q.ticker, q.orderId) in r.reservations then Release(r, (q.ticker, q.orderId)) else r
  }

  /** `onResponse`: false when the response contradicts the reservation it names. */
  function OnResponse(r: Risk, p: Response): (Risk, bool)
    requires Sized(r)
  {
    var k := (p.ticker, p.clientOrderId);
    if p.ticker >= ME_MAX_TICKERS then (r, false)
    else if k !in r.reservations then (r, !p.kind.Filled?)
    else
      var held := r.reservations[k];
      if p.kind.Filled? then
        if p.side != held.side || p.execQty == 0 || p.execQty > held.qty || p.execQty + p.leavesQty != held.qty
        then (r, false)
        else
          var r' := if p.leavesQty == 0 then r.(reservations := r.reservations - {k})
                    else r.(reservations := r.reservations[k := held.(qty := p.leavesQty)]);
          (SetPending(r', held.side, p.ticker, Minus(Pending(r, held.side, p.ticker), p.execQty)), true)
      else if p.kind.CancelRejected? then (r, p.leavesQty == held.qty)
      else if p.kind.Rejected? && p.reason == DuplicateId then (r, false)
      else if p.kind.Canceled? || p.kind.Rejected? then (Release(r, k), true)
      else (r, true)
  }

  // ------------------------------------------------------------------ sums of reservations

  function Weight(k: ResKey, v: Reservation, t: TickerId, side: Side): nat {
    if k.0 == t && v.side == side then v.qty else 0
  }

  ghost function AnyKey(m: map<ResKey, Reservation>): (k: ResKey)
    requires m.Keys != {}
    ensures k in m
  {
    var k :| k in m;
    k
  }

  /** The reserved quantity of one ticker and side. */
  ghost function Total(m: map<ResKey, Reservation>, t: TickerId, side: Side): nat
    decreases |m.Keys|
  {
    if m.Keys == {} then 0
    else
      var k := AnyKey(m);
      assert (m - {k}).Keys == m.Keys - {k};
      Weight(k, m[k], t, side) + Total(m - {k}, t, side)
  }

  lemma {:induction false} TotalWithout(m: map<ResKey, Reservation>, k: ResKey, t: TickerId, side: Side)
    requires k in m
    ensures Total(m, t, side) == Weight(k, m[k], t, side) + Total(m - {k}, t, side)
    decreases |m.Keys|
  {
    hide Weight;
    var j := AnyKey(m);
    if j != k {
      assert (m - {j}).Keys == m.Keys - {j} && (m - {k}).Keys == m.Keys - {k};
      TotalWithout(m - {j}, k, t, side);
      TotalWithout(m - {k}, j, t, side);
      assert m - {j} - {k} == m - {k} - {j};
    }
  }

  lemma TotalSet(m: map<ResKey, Reservation>, k: ResKey, v: Reservation, t: TickerId, side: Side)
    ensures Total(m[k := v], t, side) == Weight(k, v, t, side) + Total(m - {k}, t, side)
  {
    TotalWithout(m[k := v], k, t, side);
    assert m[k := v] - {k} == m - {k};
  }

  // ------------------------------------------------------------------ the account

  /** A client's reservations and its positions. */
  datatype Account = Account(risk: Risk, positions: seq<int>)

  const NO_POSITIONS: seq<int> := [0, 0, 0, 0, 0, 0, 0, 0]

  ghost predicate PendingOk(r: Risk, t: TickerId)
    requires Sized(r) && t < ME_MAX_TICKERS
  {
    r.pendingBuy[t] == Total(r.reservations, t, Buy) && r.pendingSell[t] == Total(r.reservations, t, Sell)
  }

  ghost predicate WithinLimits(a: Account, l: Limits, t: TickerId)
    requires Sized(a.risk) && |a.positions| == ME_MAX_TICKERS && t < ME_MAX_TICKERS
  {
    && a.positions[t] + a.risk.pendingBuy[t] <= l.maxPosition
    && a.risk.pendingSell[t] - a.positions[t] <= l.maxPosition
  }

  /** Pending totals are sums of reservations, and no completion of them could exceed a limit. */
  ghost predicate AccountInv(a: Account, limits: seq<Limits>) {
    && Sized(a.risk) && |a.positions| == ME_MAX_TICKERS == |limits|
    && (forall k :: k in a.risk.reservations ==> k.0 < ME_MAX_TICKERS && a.risk.reservations[k].side.Valid())
    && (forall t :: 0 <= t < ME_MAX_TICKERS ==>
          && PendingOk(a.risk, t) && WithinLimits(a, limits[t], t) && limits[t].maxPosition <= QTY_INVALID)
  }

  /** The account after an execution report that `OnResponse` took, as `onOrderUpdate` books it. */
  function Booked(a: Account, p: Response): Account
    requires Sized(a.risk) && |a.positions| == ME_MAX_TICKERS
  {
    var (r, ok) := OnResponse(a.risk, p);
    if ok && p.kind.Filled? then Account(r, a.positions[p.ticker := a.positions[p.ticker] + p.execQty * p.side.Value()])
    else Account(r, a.positions)
  }

  lemma InitialAccount(limits: seq<Limits>)
    requires |limits| == ME_MAX_TICKERS && forall t :: 0 <= t < ME_MAX_TICKERS ==> limits[t].maxPosition <= QTY_INVALID
    ensures AccountInv(Account(NO_RISK, NO_POSITIONS), limits)
  {
  }

  /** No reservation is larger than the sum it is part of. */
  lemma PartOfTotal(m: map<ResKey, Reservation>, k: ResKey)
    requires k in m
    ensures m[k].qty <= Total(m, k.0, m[k].side)
  {
    TotalWithout(m, k, k.0, m[k].side);
  }

  /** A reservation that passed the check: the pending total grows by its quantity without wrapping, and the
      limit still holds with it. */
  lemma ReserveAllowed(a: Account, l: Limits, q: Request, totalPnl: real)
    requires Sized(a.risk) && |a.positions| == ME_MAX_TICKERS && q.kind.New? && q.ticker < ME_MAX_TICKERS
    requires WithinLimits(a, l, q.ticker) && l.maxPosition <= QTY_INVALID
    requires Reserve(a.risk, l, a.positions[q.ticker], totalPnl, q).1 == Allowed
    ensures var r' := Reserve(a.risk, l, a.positions[q.ticker], totalPnl, q).0;
            && q.side.Valid() && (q.ticker, q.orderId) !in a.risk.reservations
            && r'.reservations == a.risk.reservations[(q.ticker, q.orderId) := Reservation(q.side, q.qty, q.price)]
            && Sized(r') && WithinLimits(a.(risk := r'), l, q.ticker)
            && (if q.side.Buy? then
                  && r'.pendingBuy == a.risk.pendingBuy[q.ticker := a.risk.pendingBuy[q.ticker] + q.qty]
                  && r'.pendingSell == a.risk.pendingSell
                else
                  && r'.pendingSell == a.risk.pendingSell[q.ticker := a.risk.pendingSell[q.ticker] + q.qty]
                  && r'.pendingBuy == a.risk.pendingBuy)
  {
    hide Plus;
    var buy, sell := a.risk.pendingBuy[q.ticker], a.risk.pendingSell[q.ticker];
    if buy < TWO_64 - QTY_INVALID && sell < TWO_64 - QTY_INVALID && q.qty <= QTY_INVALID {
      PlusSmall(buy, q.qty);
      PlusSmall(sell, q.qty);
      PlusSmall(buy, 0);
      PlusSmall(sell, 0);
    }
  }

  lemma PlusSmall(a: nat, b: nat)
    requires a + b < TWO_64
    ensures Plus(a, b) == a + b
  {
  }

  lemma ReserveKeeps(a: Account, limits: seq<Limits>, q: Request, totalPnl: real)
    requires AccountInv(a, limits) && (q.kind.New? ==> q.ticker < ME_MAX_TICKERS)
    ensures var position := if q.ticker < ME_MAX_TICKERS then a.positions[q.ticker] else 0;
            var l := if q.ticker < ME_MAX_TICKERS then limits[q.ticker] else limits[0];
            AccountInv(a.(risk := Reserve(a.risk, l, position, totalPnl, q).0), limits)
  {
    hide Total, PendingOk, Check, Plus;
    if q.kind.New? {
      var (r', result) := Reserve(a.risk, limits[q.ticker], a.positions[q.ticker], totalPnl, q);
      if result == Allowed {
        ReserveAllowed(a, limits[q.ticker], q, totalPnl);
        hide Reserve;
        forall t | 0 <= t < ME_MAX_TICKERS
          ensures PendingOk(r', t) && WithinLimits(a.(risk := r'), limits[t], t)
        {
          assert PendingOk(a.risk, t) && WithinLimits(a, limits[t], t);
          ReservePending(a.risk, r', q, t);
        }
      }
    }
  }

  lemma ReservePending(r: Risk, r': Risk, q: Request, t: TickerId)
    requires Sized(r) && Sized(r') && t < ME_MAX_TICKERS && PendingOk(r, t) && q.ticker < ME_MAX_TICKERS && q.side.Valid()
    requires (q.ticker, q.orderId) !in r.reservations
    requires r'.reservations == r.reservations[(q.ticker, q.orderId) := Reservation(q.side, q.qty, q.price)]
    requires r'.pendingBuy[t] == r.pendingBuy[t] + (if t == q.ticker && q.side.Buy? then q.qty else 0)
    requires r'.pendingSell[t] == r.pendingSell[t] + (if t == q.ticker && q.side.Sell? then q.qty else 0)
    ensures PendingOk(r', t)
  {
    hide Total;
    var k, v := (q.ticker, q.orderId), Reservation(q.side, q.qty, q.price);
    assert r.reservations - {k} == r.reservations;
    TotalSet(r.reservations, k, v, t, Buy);
    TotalSet(r.reservations, k, v, t, Sell);
  }

  /** Giving up a reservation frees exactly its quantity, without wrapping. */
  lemma ReleaseIs(r: Risk, k: ResKey)
    requires Sized(r) && k in r.reservations && k.0 < ME_MAX_TICKERS && r.reservations[k].side.Valid()
    requires PendingOk(r, k.0) && r.pendingBuy[k.0] < TWO_64 && r.pendingSell[k.0] < TWO_64
    ensures var held := r.reservations[k]; var r' := Release(r, k);
            && r'.reservations == r.reservations - {k}
            && (if held.side.Buy? then
                  && held.qty <= r.pendingBuy[k.0] && r'.pendingSell == r.pendingSell
                  && r'.pendingBuy == r.pendingBuy[k.0 := r.pendingBuy[k.0] - held.qty]
                else
                  && held.qty <= r.pendingSell[k.0] && r'.pendingBuy == r.pendingBuy
                  && r'.pendingSell == r.pendingSell[k.0 := r.pendingSell[k.0] - held.qty])
  {
    hide Total;
    PartOfTotal(r.reservations, k);
  }

  lemma PendingSmall(a: Account, limits: seq<Limits>, t: TickerId)
    requires AccountInv(a, limits) && t < ME_MAX_TICKERS
    ensures PendingOk(a.risk, t) && WithinLimits(a, limits[t], t)
    ensures a.risk.pendingBuy[t] < TWO_64 && a.risk.pendingSell[t] < TWO_64
  {
    hide PendingOk;
    assert limits[t].maxPosition <= QTY_INVALID;
    assert WithinLimits(a, limits[t], t);
  }

  lemma ReleasePending(r: Risk, k: ResKey, t: TickerId)
    requires Sized(r) && k in r.reservations && k.0 < ME_MAX_TICKERS && r.reservations[k].side.Valid()
    requires PendingOk(r, k.0) && r.pendingBuy[k.0] < TWO_64 && r.pendingSell[k.0] < TWO_64
    requires t < ME_MAX_TICKERS && PendingOk(r, t)
    ensures Sized(Release(r, k)) && PendingOk(Release(r, k), t)
    ensures Release(r, k).pendingBuy[t] <= r.pendingBuy[t] && Release(r, k).pendingSell[t] <= r.pendingSell[t]
  {
    hide Total, Release;
    ReleaseIs(r, k);
    TotalWithout(r.reservations, k, t, Buy);
    TotalWithout(r.reservations, k, t, Sell);
  }

  lemma ReleaseKeeps(a: Account, limits: seq<Limits>, k: ResKey)
    requires AccountInv(a, limits) && k in a.risk.reservations
    ensures AccountInv(a.(risk := Release(a.risk, k)), limits)
  {
    hide Total, PendingOk, Release;
    PendingSmall(a, limits, k.0);
    ReleaseIs(a.risk, k);
    forall t | 0 <= t < ME_MAX_TICKERS
      ensures PendingOk(Release(a.risk, k), t) && WithinLimits(a.(risk := Release(a.risk, k)), limits[t], t)
    {
      PendingSmall(a, limits, t);
      ReleasePending(a.risk, k, t);
    }
  }

  lemma RollbackKeeps(a: Account, limits: seq<Limits>, q: Request)
    requires AccountInv(a, limits) && q.ticker < ME_MAX_TICKERS
    ensures AccountInv(a.(risk := Rollback(a.risk, q)), limits)
  {
    if q.kind.New? && (q.ticker, q.orderId) in a.risk.reservations {
      ReleaseKeeps(a, limits, (q.ticker, q.orderId));
    }
  }

  /** An accepted execution moves its quantity from the reservation to the position, without wrapping. */
  lemma FillIs(a: Account, p: Response)
    requires Sized(a.risk) && |a.positions| == ME_MAX_TICKERS && p.kind.Filled? && OnResponse(a.risk, p).1
    requires var t := p.ticker;
             t < ME_MAX_TICKERS ==> PendingOk(a.risk, t) && a.risk.pendingBuy[t] < TWO_64 && a.risk.pendingSell[t] < TWO_64
    requires forall k :: k in a.risk.reservations ==> a.risk.reservations[k].side.Valid()
    ensures var t := p.ticker; var k := (t, p.clientOrderId); var m := a.risk.reservations; var a' := Booked(a, p);
            && t < ME_MAX_TICKERS && k in m && p.side == m[k].side && p.execQty <= m[k].qty && Sized(a'.risk)
            && a'.risk.reservations == (if m[k].qty == p.execQty then m - {k} else m[k := m[k].(qty := m[k].qty - p.execQty)])
            && (if p.side.Buy? then
                  && a'.risk.pendingSell == a.risk.pendingSell && a'.positions == a.positions[t := a.positions[t] + p.execQty]
                  && p.execQty <= a.risk.pendingBuy[t]
                  && a'.risk.pendingBuy == a.risk.pendingBuy[t := a.risk.pendingBuy[t] - p.execQty]
                else
                  && a'.risk.pendingBuy == a.risk.pendingBuy && a'.positions == a.positions[t := a.positions[t] - p.execQty]
                  && p.execQty <= a.risk.pendingSell[t]
                  && a'.risk.pendingSell == a.risk.pendingSell[t := a.risk.pendingSell[t] - p.execQty])
  {
    hide Total;
    PartOfTotal(a.risk.reservations, (p.ticker, p.clientOrderId));
  }

  lemma FillKeeps(a: Account, limits: seq<Limits>, p: Response)
    requires AccountInv(a, limits) && p.kind.Filled? && OnResponse(a.risk, p).1
    ensures AccountInv(Booked(a, p), limits)
  {
    hide Total, PendingOk, OnResponse, Booked;
    if p.ticker < ME_MAX_TICKERS { PendingSmall(a, limits, p.ticker); }
    FillIs(a, p);
    var a' := Booked(a, p);
    forall t | 0 <= t < ME_MAX_TICKERS ensures PendingOk(a'.risk, t) && WithinLimits(a', limits[t], t) {
      PendingSmall(a, limits, t);
      FillPending(a.risk, a'.risk, (p.ticker, p.clientOrderId), p.execQty, t);
    }
  }

  lemma FillPending(r: Risk, r': Risk, k: ResKey, exec: nat, t: TickerId)
    requires Sized(r) && Sized(r') && t < ME_MAX_TICKERS && PendingOk(r, t) && k in r.reservations
    requires var m := r.reservations;
             && exec <= m[k].qty && m[k].side.Valid()
             && r'.reservations == (if m[k].qty == exec then m - {k} else m[k := m[k].(qty := m[k].qty - exec)])
             && r'.pendingBuy[t] == r.pendingBuy[t] - (if k.0 == t && m[k].side.Buy? then exec else 0)
             && r'.pendingSell[t] == r.pendingSell[t] - (if k.0 == t && m[k].side.Sell? then exec else 0)
    ensures PendingOk(r', t)
  {
    hide Total;
    FillTotals(r.reservations, k, exec, t, Buy);
    FillTotals(r.reservations, k, exec, t, Sell);
  }

  lemma FillTotals(m: map<ResKey, Reservation>, k: ResKey, exec: nat, t: TickerId, side: Side)
    requires k in m && exec <= m[k].qty
    ensures var m' := if m[k].qty == exec then m - {k} else m[k := m[k].(qty := m[k].qty - exec)];
            Total(m', t, side) == Total(m, t, side) - (if k.0 == t && m[k].side == side then exec else 0)
  {
    hide Total;
    TotalWithout(m, k, t, side);
    TotalSet(m, k, m[k].(qty := m[k].qty - exec), t, side);
  }

  /** Any response at all, right or wrong, keeps the account consistent and within its limits. */
  lemma ResponseKeeps(a: Account, limits: seq<Limits>, p: Response)
    requires AccountInv(a, limits)
    ensures AccountInv(Booked(a, p), limits)
  {
    hide Total;
    var k := (p.ticker, p.clientOrderId);
    if p.kind.Filled? && OnResponse(a.risk, p).1 {
      FillKeeps(a, limits, p);
    } else if p.ticker < ME_MAX_TICKERS && k in a.risk.reservations
              && (p.kind.Canceled? || (p.kind.Rejected? && p.reason != DuplicateId)) {
      ReleaseKeeps(a, limits, k);
    }
  }

  /** What may happen to an account. */
  datatype Action =
    | Attempt(request: Request, totalPnl: real, full: bool)   // a request; `full`: the queue refuses it
    | Respond(response: Response)                            // any response

  function Act(a: Account, limits: seq<Limits>, x: Action): (r: Account)
    requires Sized(a.risk) && |a.positions| == ME_MAX_TICKERS == |limits|
    ensures Sized(r.risk) && |r.positions| == ME_MAX_TICKERS
  {
    match x
    case Respond(p) => Booked(a, p)
    case Attempt(q, pnl, full) =>
      if q.ticker >= ME_MAX_TICKERS then a
      else
        var (r, result) := Reserve(a.risk, limits[q.ticker], a.positions[q.ticker], pnl, q);
        if result != Allowed then a else a.(risk := if full then Rollback(r, q) else r)
  }

  /** Every run of requests and arbitrary responses keeps the account within its limits. */
  lemma ActKeeps(a: Account, limits: seq<Limits>, x: Action)
    requires AccountInv(a, limits)
    ensures AccountInv(Act(a, limits, x), limits)
  {
    hide Total, OnResponse, Check;
    match x
    case Respond(p) => ResponseKeeps(a, limits, p);
    case Attempt(q, pnl, full) =>
      if q.ticker < ME_MAX_TICKERS {
        ReserveKeeps(a, limits, q, pnl);
        var r := Reserve(a.risk, limits[q.ticker], a.positions[q.ticker], pnl, q).0;
        RollbackKeeps(a.(risk := r), limits, q);
      }
  }

  ghost function ActAll(a: Account, limits: seq<Limits>, xs: seq<Action>): Account
    requires Sized(a.risk) && |a.positions| == ME_MAX_TICKERS == |limits|
    decreases |xs|
  {
    if xs == [] then a else ActAll(Act(a, limits, xs[0]), limits, xs[1..])
  }

  /** In every run, whatever the responses say: pending totals are the sums of the reservations, and the
      position together with everything pending on either side stays within the limit, hence the
      position itself. */
  lemma {:induction false} PositionsBounded(a: Account, limits: seq<Limits>, xs: seq<Action>)
    requires AccountInv(a, limits)
    ensures AccountInv(ActAll(a, limits, xs), limits)
    ensures forall t :: 0 <= t < ME_MAX_TICKERS ==> Abs(ActAll(a, limits, xs).positions[t]) <= limits[t].maxPosition
    decreases |xs|
  {
    hide PendingOk, Act;
    if xs == [] {
      forall t | 0 <= t < ME_MAX_TICKERS ensures Abs(a.positions[t]) <= limits[t].maxPosition {
        assert WithinLimits(a, limits[t], t);
      }
    } else {
      ActKeeps(a, limits, xs[0]);
      PositionsBounded(Act(a, limits, xs[0]), limits, xs[1..]);
    }
  }
}
