/** `PositionInfo`: a position and its profit and loss, over exact reals. */
module PositionKeepers {
  import opened Types
  import opened PriceBooks

  /** One execution as the position sees it. */
  datatype Fill = Fill(side: Side, price: int, qty: nat)

  /** Position, realized, unrealized and total profit, cost of the open position on either side, volume. */
  datatype Pnl = Pnl(position: int, realPnl: real, unrealPnl: real, totalPnl: real, costBuy: real, costSell: real,
                     volume: nat)

  const FLAT := Pnl(0, 0.0, 0.0, 0.0, 0.0, 0.0, 0)

  function Cost(p: Pnl, side: Side): real { if side.Buy? then p.costBuy else p.costSell }

  function SetCost(p: Pnl, side: Side, c: real): Pnl {
    if side.Buy? then p.(costBuy := c) else p.(costSell := c)
  }

  /** An execution on the side held, or from flat. */
  function Increased(p: Pnl, f: Fill): Pnl {
    SetCost(p, f.side, Cost(p, f.side) + f.price as real * f.qty as real)
      .(position := p.position + SignedQty(f), volume := p.volume + f.qty)
  }

  function SignedQty(f: Fill): int { f.qty * f.side.Value() }

  /** What `q` units are worth at average cost `vwap`. */
  function CostOf(vwap: real, q: int): real { vwap * Abs(q) as real }

  /** What closing `q` units against an average cost realizes. */
  function Realized(q: nat, vwap: real, f: Fill): real {
    q as real * (vwap - f.price as real) * f.side.Value() as real
  }

  /** An execution against the side held, which may carry the position through zero. */
  function Reduced(p: Pnl, f: Fill): Pnl
    requires p.position != 0
  {
    var opp := f.side.Opposite();
    var vwap := Cost(p, opp) / Abs(p.position) as real;
    var now := p.position + SignedQty(f);
    var closed := Min(f.qty, Abs(p.position));
    var r := SetCost(p, opp, CostOf(vwap, now))
      .(position := now, volume := p.volume + f.qty,
        realPnl := p.realPnl + Realized(closed, vwap, f));
    if p.position * now < 0 then SetCost(SetCost(r, f.side, CostOf(f.price as real, now)), opp, 0.0) else r
  }

  /** The position marked at a price. */
  function Marked(p: Pnl, price: real): Pnl {
    var unreal :=
      if p.position > 0 then (price - p.costBuy / Abs(p.position) as real) * Abs(p.position) as real
      else if p.position < 0 then (p.costSell / Abs(p.position) as real - price) * Abs(p.position) as real
      else 0.0;
    p.(unrealPnl := unreal, totalPnl := unreal + p.realPnl)
  }

  /** `addFill`. */
  function AfterFill(p: Pnl, f: Fill): Pnl
    requires f.side.Valid()
  {
    var r := if p.position * f.side.Value() >= 0 then Increased(p, f) else Reduced(p, f);
    Marked(if r.position == 0 then r.(costBuy := 0.0, costSell := 0.0) else r, f.price as real)
  }

  predicate TwoSided(q: BBO) { q.bidPrice != PRICE_INVALID && q.askPrice != PRICE_INVALID }

  function Middle(q: BBO): real { (q.bidPrice as real + q.askPrice as real) * 0.5 }

  /** `updateBBO`: a two-sided quote marks an open position at its middle. */
  function AfterQuote(p: Pnl, q: BBO): Pnl {
    if p.position != 0 && TwoSided(q) then Marked(p, Middle(q)) else p
  }

  /** What a position hears of: executions and quotes, in any order. */
  datatype Input = Executed(fill: Fill) | Quoted(quote: BBO)

  // ------------------------------------------------------------------ what it must come to

  /** What an execution costs; negative for a sale. */
  function Paid(f: Fill): real { (f.side.Value() as real) * (f.qty as real) * (f.price as real) }

  /** Money received minus money paid. */
  function CashFlow(ins: seq<Input>): real {
    if ins == [] then 0.0
    else
      var x := ins[|ins| - 1];
      CashFlow(ins[..|ins| - 1]) - (if x.Executed? then Paid(x.fill) else 0.0)
  }

  function NetQty(ins: seq<Input>): int {
    if ins == [] then 0
    else
      var x := ins[|ins| - 1];
      NetQty(ins[..|ins| - 1]) + (if x.Executed? then SignedQty(x.fill) else 0)
  }

  /** The last price heard: an execution's own, or the middle of a two-sided quote. */
  function LastPrice(ins: seq<Input>): real {
    if ins == [] then 0.0
    else
      match ins[|ins| - 1]
      case Executed(f) => f.price as real
      case Quoted(q) => if TwoSided(q) then Middle(q) else LastPrice(ins[..|ins| - 1])
  }

  predicate Sided(ins: seq<Input>) { forall i :: 0 <= i < |ins| && ins[i].Executed? ==> ins[i].fill.side.Valid() }

  function AfterAll(ins: seq<Input>): Pnl
    requires Sided(ins)
  {
    if ins == [] then FLAT
    else
      match ins[|ins| - 1]
      case Executed(f) => AfterFill(AfterAll(ins[..|ins| - 1]), f)
      case Quoted(q) => AfterQuote(AfterAll(ins[..|ins| - 1]), q)
  }

  /** Only the side held has a cost, and realized profit is the cash so far with the cost of what is held
      added back. */
  ghost predicate Booked(p: Pnl, cash: real) {
    && (p.position <= 0 ==> p.costBuy == 0.0)
    && (p.position >= 0 ==> p.costSell == 0.0)
    && p.realPnl == cash + p.costBuy - p.costSell
  }

  /** Total profit is the cash with the position at the price; what of it is not realized is unrealized. */
  predicate WorthAt(p: Pnl, cash: real, price: real) {
    p.totalPnl == cash + p.position as real * price && p.unrealPnl == p.totalPnl - p.realPnl
  }

  /** The execution moves the position by its signed quantity. */
  predicate Moved(p: Pnl, f: Fill, r: Pnl) {
    r.position == p.position + SignedQty(f) && r.volume == p.volume + f.qty
  }

  lemma Share(c: real, w: nat, q: nat)
    requires 0 < w && q <= w
    ensures (c / w as real) * q as real + (c / w as real) * (w - q) as real == c
  {
    var v := c / w as real;
    assert v * w as real == c;
    assert v * (q as real + (w - q) as real) == v * q as real + v * (w - q) as real;
  }

  /** Marking does not touch what was booked; the total is the cash with the position at the mark. */
  lemma MarkedTotal(p: Pnl, cash: real, price: real)
    requires Booked(p, cash)
    ensures Marked(p, price).totalPnl == cash + p.position as real * price && Booked(Marked(p, price), cash)
  {
    var w := Abs(p.position) as real;
    if p.position > 0 {
      assert p.costBuy / w * w == p.costBuy;
      assert (price - p.costBuy / w) * w == price * w - p.costBuy / w * w;
    } else if p.position < 0 {
      assert p.costSell / w * w == p.costSell;
      assert (p.costSell / w - price) * w == p.costSell / w * w - price * w;
    }
  }

  lemma IncreasedBooked(p: Pnl, f: Fill, cash: real)
    requires Booked(p, cash) && f.side.Valid() && p.position * f.side.Value() >= 0
    ensures Booked(Increased(p, f), cash - Paid(f)) && Moved(p, f, Increased(p, f))
  {
  }

  lemma Distribute(q: real, v: real, price: real, s: real)
    ensures q * (v - price) * s == (v * q) * s - (s * q) * price
  {
  }

  /** Closing part of a position: the closed quantity's share of the cost becomes realized. */
  lemma ReducedBooked(p: Pnl, f: Fill, cash: real)
    requires Booked(p, cash) && f.side.Valid() && p.position * f.side.Value() < 0 && f.qty <= Abs(p.position)
    ensures Booked(Reduced(p, f), cash - Paid(f)) && Moved(p, f, Reduced(p, f))
  {
    var opp := f.side.Opposite();
    Share(Cost(p, opp), Abs(p.position), f.qty);
    var v := Cost(p, opp) / Abs(p.position) as real;
    Distribute(f.qty as real, v, f.price as real, f.side.Value() as real);
    var now := p.position + SignedQty(f);
    assert Abs(now) == Abs(p.position) - f.qty;
    SameSide(p.position, now);
  }

  lemma SameSide(was: int, now: int)
    requires (was > 0 && now >= 0) || (was < 0 && now <= 0)
    ensures was * now >= 0
  {
  }

  lemma OtherSide(was: int, now: int)
    requires (was > 0 && now < 0) || (was < 0 && now > 0)
    ensures was * now < 0
  {
  }

  /** Through zero: all of the old cost is realized, the new side starts at the execution's price. */
  lemma ReversedBooked(p: Pnl, f: Fill, cash: real)
    requires Booked(p, cash) && f.side.Valid() && p.position * f.side.Value() < 0 && f.qty > Abs(p.position)
    ensures Booked(Reduced(p, f), cash - Paid(f)) && Moved(p, f, Reduced(p, f))
  {
    var opp, w := f.side.Opposite(), Abs(p.position);
    Share(Cost(p, opp), w, w);
    var v := Cost(p, opp) / w as real;
    var s, price := f.side.Value() as real, f.price as real;
    Distribute(w as real, v, price, s);
    var now := p.position + SignedQty(f);
    assert Abs(now) == f.qty - w;
    OtherSide(p.position, now);
    assert (s * f.qty as real) * price == (s * w as real) * price + (s * (f.qty - w) as real) * price;
  }

  lemma FillBooked(p: Pnl, f: Fill, cash: real)
    requires Booked(p, cash) && f.side.Valid()
    ensures var r := AfterFill(p, f);
            && Booked(r, cash - Paid(f)) && Moved(p, f, r)
            && WorthAt(r, cash - Paid(f), f.price as real)
  {
    hide Increased, Reduced, Marked, Paid, Booked, WorthAt;
    var now := cash - Paid(f);
    if p.position * f.side.Value() >= 0 {
      IncreasedBooked(p, f, cash);
      FlatBooked(Increased(p, f), now, f.price);
    } else {
      if f.qty <= Abs(p.position) { ReducedBooked(p, f, cash); } else { ReversedBooked(p, f, cash); }
      FlatBooked(Reduced(p, f), now, f.price);
    }
  }

  /** What one unit of the open position cost on average. */
  function Average(p: Pnl): real
    requires p.position != 0
  {
    (if p.position > 0 then p.costBuy else p.costSell) / Abs(p.position) as real
  }

  /** An execution and the average cost. On the side held, or from flat, the cost grows by the execution's own; a
      reduction leaves the average as it was and realizes the difference to it on what is closed; a reversal starts
      at the execution's price. */
  lemma FillAverages(p: Pnl, f: Fill, cash: real)
    requires Booked(p, cash) && f.side.Valid() && f.qty > 0
    ensures var r := AfterFill(p, f); var s := f.side.Value() as real;
            if p.position * f.side.Value() >= 0 then
              && r.position != 0 && Average(r) * Abs(r.position) as real == Cost(p, f.side) + f.price as real * f.qty as real
              && r.realPnl == p.realPnl
            else
              && r.realPnl == p.realPnl + Min(f.qty, Abs(p.position)) as real * (Average(p) - f.price as real) * s
              && (f.qty < Abs(p.position) ==> r.position != 0 && Average(r) == Average(p))
              && (f.qty > Abs(p.position) ==> r.position != 0 && Average(r) == f.price as real)
              && (f.qty == Abs(p.position) ==> r.position == 0 && r.costBuy == 0.0 == r.costSell)
  {
    hide Marked;
    MarkKeeps(Increased(p, f), f.price as real);
    if p.position * f.side.Value() < 0 {
      MarkKeeps(Reduced(p, f), f.price as real);
      MarkKeeps(Reduced(p, f).(costBuy := 0.0, costSell := 0.0), f.price as real);
      ReducedAverage(p, f, cash);
    } else {
      IncreasedAverage(p, f, cash);
    }
  }

  lemma MarkKeeps(p: Pnl, price: real)
    ensures var r := Marked(p, price); r == p.(unrealPnl := r.unrealPnl, totalPnl := r.totalPnl)
  {
  }

  lemma IncreasedAverage(p: Pnl, f: Fill, cash: real)
    requires Booked(p, cash) && f.side.Valid() && f.qty > 0 && p.position * f.side.Value() >= 0
    ensures var r := Increased(p, f);
            r.position != 0 && Average(r) * Abs(r.position) as real == Cost(p, f.side) + f.price as real * f.qty as real
  {
  }

  lemma ReducedRealizes(p: Pnl, f: Fill)
    requires f.side.Valid() && p.position * f.side.Value() < 0
    ensures p.position != 0 && Cost(p, f.side.Opposite()) / Abs(p.position) as real == Average(p)
    ensures Reduced(p, f).realPnl
         == p.realPnl + Min(f.qty, Abs(p.position)) as real * (Average(p) - f.price as real) * f.side.Value() as real
  {
  }

  /** Less than the whole position: its average stays. */
  lemma PartReduced(p: Pnl, f: Fill)
    requires f.side.Valid() && p.position * f.side.Value() < 0 && 0 < f.qty < Abs(p.position)
    ensures var r := Reduced(p, f); r.position != 0 && Average(r) == Average(p)
  {
    hide Realized, CostOf;
    var now := p.position + SignedQty(f);
    var v := Cost(p, f.side.Opposite()) / Abs(p.position) as real;
    SameSide(p.position, now);
    assert CostOf(v, now) / Abs(now) as real == v by { CostAverage(v, now); }
  }

  /** More than the whole position: the new side's average is the execution's price. */
  lemma Overturned(p: Pnl, f: Fill)
    requires f.side.Valid() && p.position * f.side.Value() < 0 && f.qty > Abs(p.position)
    ensures var r := Reduced(p, f); r.position != 0 && Average(r) == f.price as real
  {
    hide Realized, CostOf;
    var now := p.position + SignedQty(f);
    OtherSide(p.position, now);
    assert CostOf(f.price as real, now) / Abs(now) as real == f.price as real by { CostAverage(f.price as real, now); }
  }

  lemma CostAverage(v: real, q: int)
    requires q != 0
    ensures CostOf(v, q) / Abs(q) as real == v
  {
    TimesOver(v, Abs(q));
  }

  lemma ReducedAverage(p: Pnl, f: Fill, cash: real)
    requires Booked(p, cash) && f.side.Valid() && f.qty > 0 && p.position * f.side.Value() < 0
    ensures var r := Reduced(p, f);
            && r.realPnl == p.realPnl + Min(f.qty, Abs(p.position)) as real * (Average(p) - f.price as real) * f.side.Value() as real
            && (f.qty < Abs(p.position) ==> r.position != 0 && Average(r) == Average(p))
            && (f.qty > Abs(p.position) ==> r.position != 0 && Average(r) == f.price as real)
            && (f.qty == Abs(p.position) ==> r.position == 0)
  {
    hide Average, Realized, CostOf;
    ReducedRealizes(p, f);
    if f.qty < Abs(p.position) {
      PartReduced(p, f);
    } else if f.qty > Abs(p.position) {
      Overturned(p, f);
    }
  }

  lemma TimesOver(v: real, q: nat)
    requires q > 0
    ensures v * q as real / q as real == v
  {
  }

  lemma FlatBooked(r: Pnl, cash: real, price: int)
    requires Booked(r, cash)
    ensures var q := if r.position == 0 then r.(costBuy := 0.0, costSell := 0.0) else r;
            && q == r && WorthAt(Marked(q, price as real), cash, price as real)
            && Booked(Marked(q, price as real), cash)
            && Marked(q, price as real).position == r.position && Marked(q, price as real).volume == r.volume
  {
    MarkedTotal(r, cash, price as real);
  }

  /** A two-sided quote revalues an open position at its middle; no quote books anything. */
  lemma QuoteRevalues(p: Pnl, cash: real, price: real, q: BBO)
    requires Booked(p, cash) && WorthAt(p, cash, price)
    ensures var r := AfterQuote(p, q);
            Booked(r, cash) && r.position == p.position && WorthAt(r, cash, if TwoSided(q) then Middle(q) else price)
    ensures var r := AfterQuote(p, q);
            if q.bidPrice == PRICE_INVALID || q.askPrice == PRICE_INVALID then r == p
            else WorthAt(r, cash, (q.bidPrice as real + q.askPrice as real) / 2.0) && r == p.(unrealPnl := r.unrealPnl, totalPnl := r.totalPnl)
  {
    MarkedTotal(p, cash, Middle(q));
  }

  lemma SidedFront(ins: seq<Input>)
    requires Sided(ins) && ins != []
    ensures Sided(ins[..|ins| - 1]) && (ins[|ins| - 1].Executed? ==> ins[|ins| - 1].fill.side.Valid())
  {
  }

  /** What the account of a run of executions and quotes must satisfy. */
  ghost predicate Accounted(p: Pnl, ins: seq<Input>) {
    p.position == NetQty(ins) && Booked(p, CashFlow(ins)) && WorthAt(p, CashFlow(ins), LastPrice(ins))
  }

  lemma FillAccounted(p: Pnl, ins: seq<Input>, f: Fill)
    requires ins != [] && Accounted(p, ins[..|ins| - 1]) && ins[|ins| - 1] == Executed(f) && f.side.Valid()
    ensures Accounted(AfterFill(p, f), ins)
  {
    hide AfterFill, Paid, WorthAt, SignedQty, Booked;
    FillBooked(p, f, CashFlow(ins[..|ins| - 1]));
  }

  lemma QuoteAccounted(p: Pnl, ins: seq<Input>, q: BBO)
    requires ins != [] && Accounted(p, ins[..|ins| - 1]) && ins[|ins| - 1] == Quoted(q)
    ensures Accounted(AfterQuote(p, q), ins)
  {
    hide AfterQuote, WorthAt, Booked, Middle, TwoSided, Paid, SignedQty;
    var before := ins[..|ins| - 1];
    QuoteRevalues(p, CashFlow(before), LastPrice(before), q);
    assert CashFlow(ins) == CashFlow(before) && NetQty(ins) == NetQty(before);
  }

  /** After any executions and quotes, in any order, through reductions, flat and reversals: total profit is the
      net cash flow with the position at the last price heard, and the side not held costs nothing. */
  lemma {:induction false} TotalIsCashAtLastPrice(ins: seq<Input>)
    requires Sided(ins)
    ensures Accounted(AfterAll(ins), ins)
  {
    if ins != [] {
      hide Accounted, AfterFill, AfterQuote, Sided;
      SidedFront(ins);
      var before := ins[..|ins| - 1];
      TotalIsCashAtLastPrice(before);
      match ins[|ins| - 1]
      case Executed(f) => FillAccounted(AfterAll(before), ins, f);
      case Quoted(q) => QuoteAccounted(AfterAll(before), ins, q);
    }
  }

  class PositionInfo {
    var position: int
    var realPnl: real
    var unrealPnl: real
    var totalPnl: real
    var openVwapBuy: real
    var openVwapSell: real
    var volume: nat

    function Contents(): Pnl
      reads this
    {
      Pnl(position, realPnl, unrealPnl, totalPnl, openVwapBuy, openVwapSell, volume)
    }

    constructor ()
      ensures Contents() == FLAT
    {
      position, realPnl, unrealPnl, totalPnl, openVwapBuy, openVwapSell, volume := 0, 0.0, 0.0, 0.0, 0.0, 0.0, 0;
    }

    function Vwap(side: Side): real
      reads this
    {
      if side.Buy? then openVwapBuy else openVwapSell
    }

    method SetVwap(side: Side, v: real)
      modifies `openVwapBuy, `openVwapSell
      ensures Contents() == SetCost(old(Contents()), side, v)
    {
      if side.Buy? { openVwapBuy := v; } else { openVwapSell := v; }
    }

    method Mark(price: real)
      requires position != 0
      modifies `unrealPnl, `totalPnl
      ensures Contents() == Marked(old(Contents()), price)
    {
      if position > 0 {
        unrealPnl := (price - openVwapBuy / Abs(position) as real) * Abs(position) as real;
      } else {
        unrealPnl := (openVwapSell / Abs(position) as real - price) * Abs(position) as real;
      }
      totalPnl := unrealPnl + realPnl;
    }

    method Open(f: Fill)
      modifies this
      ensures Contents() == Increased(old(Contents()), f)
    {
      SetVwap(f.side, Vwap(f.side) + f.price as real * f.qty as real);
      position := position + SignedQty(f);
      volume := volume + f.qty;
    }

    method Reduce(f: Fill)
      requires position != 0
      modifies this
      ensures Contents() == Reduced(old(Contents()), f)
    {
      hide CostOf, Realized;
      var was, opp := position, f.side.Opposite();
      var vwap := Vwap(opp) / Abs(was) as real;
      position := position + SignedQty(f);
      volume := volume + f.qty;
      realPnl := realPnl + Realized(Min(f.qty, Abs(was)), vwap, f);
      SetVwap(opp, CostOf(vwap, position));
      if was * position < 0 {
        SetVwap(f.side, CostOf(f.price as real, position));
        SetVwap(opp, 0.0);
      }
    }

    method AddFill(f: Fill)
      requires f.side.Valid()
      modifies this
      ensures Contents() == AfterFill(old(Contents()), f)
    {
      hide Increased, Reduced;
      if position * f.side.Value() >= 0 { Open(f); } else { Reduce(f); }
      if position == 0 {
        openVwapBuy, openVwapSell := 0.0, 0.0;
        unrealPnl := 0.0;
        totalPnl := unrealPnl + realPnl;
      } else {
        Mark(f.price as real);
      }
    }

    method UpdateBBO(q: BBO)
      modifies this
      ensures Contents() == AfterQuote(old(Contents()), q)
    {
      if position != 0 && TwoSided(q) { Mark(Middle(q)); }
    }
  }
}
