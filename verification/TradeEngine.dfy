/** The order side of `TradeEngine`: risk, positions and reconciliation updated in place. */
module TradeEngines {
  import opened Types
  import opened EngineSpec
  import opened RiskSpec
  import opened RiskManagers
  import opened PositionKeepers
  import opened TradeOrders
  import opened LFQueues
  import opened Cursors

  class TradeEngine {
    const clientId: ClientId
    const risk: RiskManager
    const positions: seq<PositionInfo>
    const outgoing: LFQueue<Request>
    var reconciled: bool
    var lastResponseId: nat
    var acceptedRequests: nat
    var rejectedRequests: nat
    var duplicateResponses: nat

    ghost predicate Apart() {
      && |positions| == ME_MAX_TICKERS
      && (forall i, j :: 0 <= i < j < |positions| ==> positions[i] != positions[j])
      && this as object != risk && this as object != outgoing && risk as object != outgoing
      && forall i :: 0 <= i < |positions| ==>
           positions[i] as object != this && positions[i] as object != risk && positions[i] as object != outgoing
    }

    ghost function Positions(): seq<int>
      reads positions
      requires |positions| == ME_MAX_TICKERS
    {
      seq(ME_MAX_TICKERS, i requires 0 <= i < ME_MAX_TICKERS reads positions => positions[i].position)
    }

    ghost function Contents(): Client
      reads this, risk, positions
      requires |positions| == ME_MAX_TICKERS
    {
      Client(clientId, Account(risk.Contents(), Positions()), reconciled, lastResponseId)
    }

    /** Besides the frame: pending totals are sums of reservations, and every limit holds. */
    ghost predicate Valid()
      reads this, risk, positions, outgoing, outgoing.store
    {
      Apart() && risk.Valid() && outgoing.Valid() && AccountInv(Contents().account, risk.limits)
    }

    static method NewPositions() returns (ps: seq<PositionInfo>)
      ensures |ps| == ME_MAX_TICKERS
      ensures forall i :: 0 <= i < |ps| ==> fresh(ps[i]) && ps[i].Contents() == FLAT
      ensures forall i, j :: 0 <= i < j < |ps| ==> ps[i] != ps[j]
    {
      ps := [];
      while |ps| < ME_MAX_TICKERS
        invariant |ps| <= ME_MAX_TICKERS
        invariant forall i :: 0 <= i < |ps| ==> fresh(ps[i]) && ps[i].Contents() == FLAT
        invariant forall i, j :: 0 <= i < j < |ps| ==> ps[i] != ps[j]
      {
        var p := new PositionInfo();
        ps := ps + [p];
      }
    }

    constructor (clientId: ClientId, limits: seq<Limits>, outgoing: LFQueue<Request>)
      requires outgoing.Valid() && |limits| == ME_MAX_TICKERS
      requires forall t :: 0 <= t < ME_MAX_TICKERS ==> limits[t].maxPosition <= QTY_INVALID
      ensures Valid() && this.outgoing == outgoing && risk.limits == limits
      ensures Contents() == Client(clientId, Account(NO_RISK, NO_POSITIONS), true, 0)
    {
      this.clientId, this.outgoing := clientId, outgoing;
      var r := new RiskManager(limits);
      var ps := NewPositions();
      risk, positions := r, ps;
      reconciled, lastResponseId, acceptedRequests, rejectedRequests, duplicateResponses := true, 0, 0, 0, 0;
      new;
      assert Positions() == NO_POSITIONS;
      InitialAccount(limits);
    }

    /** `sendClientRequest`; `x` holds what the session, the market and the strategy's gates say. */
    method SendClientRequest(q: Request, x: Chance) returns (sent: bool)
      requires Valid()
      requires q.ticker < ME_MAX_TICKERS ==> x.totalPnl == positions[q.ticker].totalPnl
      requires x.full == (|outgoing.Contents()| >= outgoing.store.Length)
      modifies this, risk, outgoing, outgoing.store
      ensures Valid()
      ensures (Contents(), sent) == Send(old(Contents()), risk.limits, q, x)
      ensures outgoing.Contents() == if sent then old(outgoing.Contents()) + [q] else old(outgoing.Contents())
      ensures acceptedRequests == old(acceptedRequests) + (if sent then 1 else 0)
      ensures rejectedRequests == old(rejectedRequests) + (if sent then 0 else 1)
    {
      hide Reserve, Rollback, AccountInv, Validate, LFQueue.SlotHolds, Cursor;
      ghost var was := Contents().account;
      if (!x.admitting && q.kind.New?) || Validate(q) != NoReason || q.client != clientId || !reconciled
         || !x.session || (q.kind.New? && !x.ready) {
        rejectedRequests := rejectedRequests + 1;
        return false;
      }
      ValidTicker(q);
      ReserveKeeps(was, risk.limits, q, x.totalPnl);
      var result := risk.DoReserve(q, positions[q.ticker].position, positions[q.ticker].totalPnl);
      RollbackKeeps(Contents().account, risk.limits, q);
      if result != Allowed {
        NotReserved(was.risk, risk.limits[q.ticker], was.positions[q.ticker], x.totalPnl, q);
        rejectedRequests := rejectedRequests + 1;
        return false;
      }
      sent := outgoing.TryPush(q);
      if sent {
        acceptedRequests := acceptedRequests + 1;
      } else {
        risk.DoRollback(q);
        rejectedRequests := rejectedRequests + 1;
      }
    }

    /** `onOrderUpdate`. */
    method OnOrderUpdate(p: Response)
      requires Valid()
      modifies this, risk, positions
      ensures Valid()
      ensures Contents() == TradeOrders.OnOrderUpdate(old(Contents()), p)
    {
      hide AccountInv, OnResponse, AfterFill, LFQueue.SlotHolds, Cursor;
      if p.client != clientId || p.ticker >= ME_MAX_TICKERS {
        reconciled := false;
        return;
      }
      if p.responseId != 0 {
        if p.responseId <= lastResponseId {
          duplicateResponses := duplicateResponses + 1;
          return;
        }
        lastResponseId := p.responseId;
      } else if p.kind.Filled? {
        reconciled := false;
        return;
      }
      ghost var was := old(Contents()).account;
      ResponseKeeps(was, risk.limits, p);
      var ok := risk.DoOnResponse(p);
      if !ok {
        reconciled := false;
        assert Positions() == was.positions;
        return;
      }
      if p.kind.Filled? {
        FilledSide(was, risk.limits, p);
        positions[p.ticker].AddFill(Fill(p.side, p.price, p.execQty));
        MovesPosition(old(positions[p.ticker].Contents()), Fill(p.side, p.price, p.execQty));
        assert Positions() == was.positions[p.ticker := was.positions[p.ticker] + p.execQty * p.side.Value()];
      } else {
        assert Positions() == was.positions;
      }
      if p.kind.State? && p.position != positions[p.ticker].position {
        reconciled := false;
      }
    }
  }

  lemma NotReserved(r: Risk, l: Limits, position: int, pnl: real, q: Request)
    requires Sized(r) && Reserve(r, l, position, pnl, q).1 != Allowed
    ensures Reserve(r, l, position, pnl, q).0 == r
  {
  }

  lemma FilledSide(a: Account, limits: seq<Limits>, p: Response)
    requires AccountInv(a, limits) && p.kind.Filled? && OnResponse(a.risk, p).1
    ensures p.side.Valid()
  {
  }

  lemma MovesPosition(p: Pnl, f: Fill)
    requires f.side.Valid()
    ensures AfterFill(p, f).position == p.position + f.qty * f.side.Value()
  {
    hide CostOf, Realized;
  }
}
