/** `RiskManager`: reservations and pending totals updated in place, against their specification. */
module RiskManagers {
  import opened Types
  import opened RiskSpec

  class RiskManager {
    const limits: seq<Limits>
    var reservations: map<ResKey, Reservation>
    var pendingBuy: seq<nat>
    var pendingSell: seq<nat>

    function Contents(): Risk
      reads this
    {
      Risk(reservations, pendingBuy, pendingSell)
    }

    ghost predicate Valid()
      reads this
    {
      |limits| == ME_MAX_TICKERS && Sized(Contents())
    }

    constructor (limits: seq<Limits>)
      requires |limits| == ME_MAX_TICKERS
      ensures Valid() && Contents() == NO_RISK && this.limits == limits
    {
      this.limits := limits;
      reservations, pendingBuy, pendingSell := map[], ZEROS, ZEROS;
    }

    method AddPending(side: Side, t: TickerId, v: nat)
      requires Valid() && t < ME_MAX_TICKERS
      modifies `pendingBuy, `pendingSell
      ensures Valid() && Contents() == SetPending(old(Contents()), side, t, v)
    {
      if side.Buy? {
        pendingBuy := pendingBuy[t := v];
      } else {
        pendingSell := pendingSell[t := v];
      }
    }

    /** `position` and `totalPnl` are read from the position of the request's ticker. */
    method DoReserve(q: Request, position: int, totalPnl: real) returns (result: RiskResult)
      requires Valid()
      modifies this
      ensures Valid()
      ensures var l := limits[if q.ticker < ME_MAX_TICKERS then q.ticker else 0];
              (Contents(), result) == Reserve(old(Contents()), l, position, totalPnl, q)
    {
      if !q.kind.New? {
        return Allowed;
      }
      if (q.ticker, q.orderId) in reservations {
        return Unacceptable;
      }
      result := Check(Contents(), limits[if q.ticker < ME_MAX_TICKERS then q.ticker else 0], position, totalPnl,
                      q.ticker, q.side, q.qty);
      if result == Allowed {
        AddPending(q.side, q.ticker, Plus(Pending(Contents(), q.side, q.ticker), q.qty));
        reservations := reservations[(q.ticker, q.orderId) := Reservation(q.side, q.qty, q.price)];
      }
    }

    method DoRelease(k: ResKey)
      requires Valid() && k in reservations && k.0 < ME_MAX_TICKERS
      modifies this
      ensures Valid() && Contents() == Release(old(Contents()), k)
    {
      var held := reservations[k];
      AddPending(held.side, k.0, Minus(Pending(Contents(), held.side, k.0), held.qty));
      reservations := reservations - {k};
    }

    method DoRollback(q: Request)
      requires Valid() && q.ticker < ME_MAX_TICKERS
      modifies this
      ensures Valid() && Contents() == Rollback(old(Contents()), q)
    {
      if q.kind.New? && (q.ticker, q.orderId) in reservations {
        DoRelease((q.ticker, q.orderId));
      }
    }

    method DoOnResponse(p: Response) returns (ok: bool)
      requires Valid()
      modifies this
      ensures Valid() && (Contents(), ok) == OnResponse(old(Contents()), p)
    {
      var k := (p.ticker, p.clientOrderId);
      if p.ticker >= ME_MAX_TICKERS {
        return false;
      }
      if k !in reservations {
        return !p.kind.Filled?;
      }
      var held := reservations[k];
      if p.kind.Filled? {
        if p.side != held.side || p.execQty == 0 || p.execQty > held.qty || p.execQty + p.leavesQty != held.qty {
          return false;
        }
        AddPending(held.side, p.ticker, Minus(Pending(Contents(), held.side, p.ticker), p.execQty));
        if p.leavesQty == 0 {
          reservations := reservations - {k};
        } else {
          reservations := reservations[k := held.(qty := p.leavesQty)];
        }
      } else if p.kind.CancelRejected? {
        if p.leavesQty != held.qty {
          return false;
        }
      } else if p.kind.Rejected? && p.reason == DuplicateId {
        return false;
      } else if p.kind.Canceled? || p.kind.Rejected? {
        DoRelease(k);
      }
      ok := true;
    }
  }
}
