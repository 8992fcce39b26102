/**
 The life of one order as its responses tell it. Every response the book emits agrees with what the
 earlier ones said, and what they say in the end is the order's state in the book.
*/
module OrderLife {
  import opened Types
  import opened PriceBooks
  import opened MatchSpec
  import opened MatchInvariants

  /** An order as its owner may know it: open with a quantity, closed or unknown, or contradicted. */
  datatype View = Gone | Open(side: Side, qty: nat) | Wrong

  function QtyOf(v: View): nat { if v.Open? then v.qty else 0 }

  /** `v` after one more response about the same order. */
  function Hear(v: View, r: Response): View {
    if v.Wrong? then Wrong else
    match r.kind
    case Accepted => if v == Open(r.side, r.leavesQty) then v else Wrong
    case Filled =>
      if v == Open(r.side, r.execQty + r.leavesQty) && r.execQty > 0
      then if r.leavesQty == 0 then Gone else Open(r.side, r.leavesQty)
      else Wrong
    case Canceled => if v == Open(r.side, r.leavesQty) then Gone else Wrong
    case CancelRejected => if v.Gone? && r.leavesQty == 0 then v else Wrong
    case Rejected => if r.reason == DuplicateId then Wrong else Gone
    case State => if r.leavesQty == QtyOf(v) then v else Wrong
    case NoResponse => Wrong
  }

  predicate About(r: Response, t: TickerId, o: Owner) {
    r.ticker == t && r.client == o.client && r.clientOrderId == o.clientOrderId
  }

  /** `v` after the responses of `rs` that are about order `o` of ticker `t`. */
  function HearAll(v: View, rs: seq<Response>, t: TickerId, o: Owner): View
    decreases |rs|
  {
    if rs == [] then v else HearAll(if About(rs[0], t, o) then Hear(v, rs[0]) else v, rs[1..], t, o)
  }

  lemma {:induction false} HearConcat(v: View, a: seq<Response>, c: seq<Response>, t: TickerId, o: Owner)
    ensures HearAll(v, a + c, t, o) == HearAll(HearAll(v, a, t, o), c, t, o)
    decreases |a|
  {
    if a == [] {
      assert a + c == c;
    } else {
      assert (a + c)[1..] == a[1..] + c;
      HearConcat(if About(a[0], t, o) then Hear(v, a[0]) else v, a[1..], c, t, o);
    }
  }

  lemma HearOne(v: View, r: Response, t: TickerId, o: Owner)
    ensures HearAll(v, [r], t, o) == if About(r, t, o) then Hear(v, r) else v
  {
    assert [r][1..] == [];
  }

  lemma HearTwo(v: View, x: Response, y: Response, t: TickerId, o: Owner)
    ensures var w := if About(x, t, o) then Hear(v, x) else v;
            HearAll(v, [x, y], t, o) == if About(y, t, o) then Hear(w, y) else w
  {
    assert [x, y][1..] == [y];
    HearOne(if About(x, t, o) then Hear(v, x) else v, y, t, o);
  }

  /** The order in the book. */
  ghost function LiveIn(b: PriceBook, o: Owner): View {
    var id := OrderOf(b, o);
    if id.Some? then Open(b.orders[id.value].side, b.orders[id.value].qty) else Gone
  }

  lemma LiveIs(b: PriceBook, id: OrderId)
    requires OwnersDiffer(b) && id in b.orders
    ensures LiveIn(b, b.orders[id].owner) == Open(b.orders[id].side, b.orders[id].qty)
  {
  }

  ghost predicate Absent(b: PriceBook, o: Owner) {
    forall id :: id in b.orders ==> b.orders[id].owner != o
  }

  /** A taker is open with what is left of it; everyone else is as in the book. */
  ghost function DuringMatch(b: PriceBook, t: Taker, leaves: nat, o: Owner): View {
    if o == t.owner then if leaves == 0 then Gone else Open(t.side, leaves) else LiveIn(b, o)
  }

  lemma LiveAfterSetQty(b: PriceBook, id: OrderId, qty: nat, o: Owner)
    requires OwnersDiffer(b) && id in b.orders
    ensures OwnersDiffer(SetQty(b, id, qty))
    ensures LiveIn(SetQty(b, id, qty), o) == if o == b.orders[id].owner then Open(b.orders[id].side, qty) else LiveIn(b, o)
  {
    var b' := SetQty(b, id, qty);
    if OrderOf(b, o).Some? { LiveIs(b', OrderOf(b, o).value); }
    LiveIs(b', id);
  }

  lemma LiveAfterDelete(b: PriceBook, id: OrderId, o: Owner)
    requires OwnersDiffer(b) && id in b.orders
    ensures OwnersDiffer(Delete(b, id))
    ensures LiveIn(Delete(b, id), o) == if o == b.orders[id].owner then Gone else LiveIn(b, o)
  {
    var b' := Delete(b, id);
    if OrderOf(b, o).Some? && o != b.orders[id].owner { LiveIs(b', OrderOf(b, o).value); }
  }

  lemma LiveAfterAppend(b: PriceBook, x: Order, o: Owner)
    requires OwnersDiffer(b) && Absent(b, x.owner) && x.id !in b.orders
    ensures OwnersDiffer(Append(b, x))
    ensures LiveIn(Append(b, x), o) == if o == x.owner then Open(x.side, x.qty) else LiveIn(b, o)
  {
    var b' := Append(b, x);
    LiveIs(b', x.id);
    if OrderOf(b, o).Some? && o != x.owner { LiveIs(b', OrderOf(b, o).value); }
  }

  /** The book after an execution, as each owner sees it. */
  lemma FillLeaves(b: PriceBook, t: Taker, maker: OrderId, leaves: nat, o: Owner)
    requires Sound(b) && OwnersDiffer(b) && Absent(b, t.owner) && maker in b.orders
    ensures var f := Fill(b, t, maker, leaves); var m := b.orders[maker]; var rest := m.qty - Min(leaves, m.qty);
            && OwnersDiffer(f.book) && Absent(f.book, t.owner)
            && LiveIn(b, m.owner) == Open(m.side, m.qty) && m.owner != t.owner
            && LiveIn(f.book, o) == if o == m.owner then (if rest == 0 then Gone else Open(m.side, rest)) else LiveIn(b, o)
  {
    hide LiveIn, OwnersDiffer, Sound;
    var m := b.orders[maker];
    var rest := m.qty - Min(leaves, m.qty);
    LiveIs(b, maker);
    if rest == 0 { LiveAfterDelete(b, maker, o); } else { LiveAfterSetQty(b, maker, rest, o); }
  }

  lemma FillHears(b: PriceBook, t: Taker, maker: OrderId, leaves: nat, o: Owner)
    requires Sound(b) && OwnersDiffer(b) && Absent(b, t.owner) && maker in b.orders && leaves > 0
    ensures var f := Fill(b, t, maker, leaves);
            && OwnersDiffer(f.book) && Absent(f.book, t.owner)
            && HearAll(DuringMatch(b, t, leaves, o), f.responses, t.ticker, o) == DuringMatch(f.book, t, f.leaves, o)
  {
    hide LiveIn, HearAll, OwnersDiffer, Absent, Wf, Delete, SetQty;
    var f := Fill(b, t, maker, leaves);
    FillLeaves(b, t, maker, leaves, o);
    HearTwo(DuringMatch(b, t, leaves, o), f.responses[0], f.responses[1], t.ticker, o);
  }

  lemma {:induction false} MatchHears(b: PriceBook, t: Taker, leaves: nat, o: Owner)
    requires Sound(b) && OwnersDiffer(b) && Absent(b, t.owner)
    ensures var m := MatchAll(b, t, leaves);
            && OwnersDiffer(m.book) && Absent(m.book, t.owner)
            && HearAll(DuringMatch(b, t, leaves, o), m.responses, t.ticker, o) == DuringMatch(m.book, t, m.leaves, o)
    decreases leaves
  {
    if leaves > 0 && NextMaker(b, t).Some? {
      var maker := NextMaker(b, t).value;
      FillSound(b, t, maker, leaves);
      FillHears(b, t, maker, leaves, o);
      hide Fill, DuringMatch, Absent, OwnersDiffer, Sound;
      var f := Fill(b, t, maker, leaves);
      MatchHears(f.book, t, f.leaves, o);
      HearConcat(DuringMatch(b, t, leaves, o), f.responses, MatchAll(f.book, t, f.leaves).responses, t.ticker, o);
    }
  }

  lemma NotUsedIsAbsent(b: Book, o: Owner)
    requires BookInv(b) && o !in b.used
    ensures Absent(b.resting, o) && LiveIn(b.resting, o) == Gone
  {
    forall id | id in b.resting.orders ensures b.resting.orders[id].owner != o { assert InBounds(b, id); }
  }

  /** What the owner knows when it has asked for an order that the book has not yet seen. */
  function Asked(o: Owner, to: Owner, side: Side, qty: nat, otherwise: View): View {
    if o == to then Open(side, qty) else otherwise
  }

  /** Whatever is asked: the responses to a new order lead its owner, and the owner of every order it trades
      with, from what they knew to what the book holds. Only a reused id breaks this. */
  lemma AddHears(b: Book, me: TickerId, to: Owner, side: Side, price: int, qty: nat, o: Owner)
    requires BookInv(b) && to !in b.used
    ensures var s := AddOrder(b, me, to, me, side, price, qty);
            HearAll(Asked(o, to, side, qty, LiveIn(b.resting, o)), s.responses, me, o) == LiveIn(s.book.resting, o)
  {
    hide MatchAll, Rest, Sound, Wf, AllAscending, Uncrossed, LiveIn, HearAll;
    NotUsedIsAbsent(b, to);
    var v := Asked(o, to, side, qty, LiveIn(b.resting, o));
    var s := AddOrder(b, me, to, me, side, price, qty);
    if AddReason(b, me, to, me, side, price, qty) != NoReason {
      HearOne(v, s.responses[0], me, o);
    } else {
      var t := Taker(to, me, side, price, b.nextId);
      MatchHears(b.resting, t, qty, o);
      RoomForRest(b, me, t, qty);
      var m := MatchAll(b.resting, t, qty);
      RestHears(m, t, o);
      HearConcat(v, [s.responses[0]], m.responses, me, o);
      HearOne(v, s.responses[0], me, o);
    }
  }

  lemma RestHears(m: Matched, t: Taker, o: Owner)
    requires Sound(m.book) && OwnersDiffer(m.book) && Absent(m.book, t.owner) && t.id !in m.book.orders
    ensures Rest(m, t).responses == m.responses
    ensures LiveIn(Rest(m, t).book, o) == DuringMatch(m.book, t, m.leaves, o)
  {
    if m.leaves > 0 {
      var k := (t.side, t.price);
      assert k in m.book.fifo ==> QueueWf(m.book, k);
      LiveAfterAppend(m.book, Order(t.owner, t.id, t.side, t.price, m.leaves, NextPriority(m.book, k)), o);
    }
  }

  /** A cancel reports the quantity that was open; a rejected one is always about a closed order. */
  lemma CancelHears(b: Book, me: TickerId, to: Owner, o: Owner)
    requires BookInv(b) && to.client < ME_MAX_NUM_CLIENTS
    ensures var s := CancelOf(b, me, to, me);
            HearAll(LiveIn(b.resting, o), s.responses, me, o) == LiveIn(s.book.resting, o)
  {
    var s := CancelOf(b, me, to, me);
    HearOne(LiveIn(b.resting, o), s.responses[0], me, o);
    if OrderOf(b.resting, to).Some? {
      LiveAfterDelete(b.resting, OrderOf(b.resting, to).value, o);
    }
  }

  // ------------------------------------------------------------------ queries

  /** The leaves a query reports from a remembered response. */
  function Recalled(r: Response): nat { if r.kind.Canceled? then 0 else r.leavesQty }

  /** The history holds exactly the accepted orders, each with what is open of it. */
  ghost predicate Recalls(h: map<Owner, Response>, t: TickerId, o: Owner, v: View) {
    !v.Wrong? && o in h && Recalled(h[o]) == QtyOf(v) && About(h[o], t, o)
  }

  ghost predicate HistoryOk(b: Book, me: TickerId) {
    && b.history.Keys == b.used
    && (forall o :: o in b.used ==> Recalls(b.history, me, o, LiveIn(b.resting, o)))
  }

  /** Executions only ever add to the history what the owners hear. */
  predicate Executions(rs: seq<Response>, t: TickerId) {
    forall i :: 0 <= i < |rs| ==> rs[i].kind.Filled? && rs[i].ticker == t && rs[i].client < ME_MAX_NUM_CLIENTS
  }

  lemma {:induction false} ExecutionsRecalled(h: map<Owner, Response>, v: View, rs: seq<Response>, t: TickerId, o: Owner)
    requires Executions(rs, t) && Recalls(h, t, o, v) && !HearAll(v, rs, t, o).Wrong?
    ensures Recalls(RememberAll(h, rs), t, o, HearAll(v, rs, t, o))
    decreases |rs|
  {
    if rs != [] {
      var front, last := rs[..|rs| - 1], rs[|rs| - 1];
      assert rs == front + [last];
      HearConcat(v, front, [last], t, o);
      HearOne(HearAll(v, front, t, o), last, t, o);
      hide HearAll;
      if HearAll(v, front, t, o).Wrong? { HearOne(Wrong, last, t, o); assert false; }
      ExecutionsRecalled(h, v, front, t, o);
    }
  }

  lemma {:induction false} ExecutionsKeys(h: map<Owner, Response>, rs: seq<Response>, t: TickerId, used: set<Owner>)
    requires Executions(rs, t) && h.Keys == used
    requires forall i :: 0 <= i < |rs| ==> Owner(rs[i].client, rs[i].clientOrderId) in used
    ensures RememberAll(h, rs).Keys == used
  {
    if rs != [] {
      ExecutionsKeys(h, rs[..|rs| - 1], t, used);
      assert Owner(rs[|rs| - 1].client, rs[|rs| - 1].clientOrderId) in used;
    }
  }

  /** Every response of a match is an execution of the taker or of an order of the book. */
  lemma {:induction false} MatchExecutes(b: PriceBook, t: Taker, leaves: nat, used: set<Owner>)
    requires Sound(b) && t.owner in used && forall id :: id in b.orders ==> b.orders[id].owner in used
    requires forall o :: o in used ==> o.client < ME_MAX_NUM_CLIENTS
    ensures var rs := MatchAll(b, t, leaves).responses;
            && Executions(rs, t.ticker)
            && forall i :: 0 <= i < |rs| ==> Owner(rs[i].client, rs[i].clientOrderId) in used
    decreases leaves
  {
    if leaves > 0 && NextMaker(b, t).Some? {
      var maker := NextMaker(b, t).value;
      FillSound(b, t, maker, leaves);
      var f := Fill(b, t, maker, leaves);
      FillExecutes(b, t, maker, leaves, used);
      hide Sound, Fill;
      MatchExecutes(f.book, t, f.leaves, used);
    }
  }

  lemma FillExecutes(b: PriceBook, t: Taker, maker: OrderId, leaves: nat, used: set<Owner>)
    requires maker in b.orders && t.owner in used && forall id :: id in b.orders ==> b.orders[id].owner in used
    requires forall o :: o in used ==> o.client < ME_MAX_NUM_CLIENTS
    ensures var f := Fill(b, t, maker, leaves);
            && (forall id :: id in f.book.orders ==> f.book.orders[id].owner in used)
            && |f.responses| == 2 && Executions(f.responses, t.ticker)
            && forall i :: 0 <= i < 2 ==> Owner(f.responses[i].client, f.responses[i].clientOrderId) in used
  {
  }

  lemma AddRecalls(b: Book, me: TickerId, to: Owner, ticker: TickerId, side: Side, price: int, qty: nat)
    requires BookInv(b) && HistoryOk(b, me)
    ensures HistoryOk(AddOrder(b, me, to, ticker, side, price, qty).book, me)
  {
    hide MatchAll, Rest, BookInv, Recalls, AddReason, LiveIn, Sound;
    if AddReason(b, me, to, ticker, side, price, qty) == NoReason {
      var t := Taker(to, me, side, price, b.nextId);
      RightTicker(b, me, to, ticker, side, price, qty);
      var h := Remember(b.history, AcceptedResponse(to, me, b.nextId, side, price, qty));
      TakenKeys(b, me, t, qty, h);
      RememberOneMore(b.history, AcceptedResponse(to, me, b.nextId, side, price, qty),
                      MatchAll(b.resting, t, qty).responses);
      forall o | o in b.used + {to}
        ensures Recalls(RememberAll(h, MatchAll(b.resting, t, qty).responses), me, o,
                        LiveIn(Rest(MatchAll(b.resting, t, qty), t).book, o))
      {
        TakenRecalls(b, me, t, qty, h, o);
      }
    }
  }

  lemma RightTicker(b: Book, me: TickerId, to: Owner, ticker: TickerId, side: Side, price: int, qty: nat)
    requires BookInv(b) && AddReason(b, me, to, ticker, side, price, qty) == NoReason
    ensures ticker == me && Sound(b.resting) && to.client < ME_MAX_NUM_CLIENTS
    ensures Sound(MatchAll(b.resting, Taker(to, me, side, price, b.nextId), qty).book)
    ensures Rest(MatchAll(b.resting, Taker(to, me, side, price, b.nextId), qty), Taker(to, me, side, price, b.nextId)).responses
            == MatchAll(b.resting, Taker(to, me, side, price, b.nextId), qty).responses
  {
    hide MatchAll;
    MatchSound(b.resting, Taker(to, me, side, price, b.nextId), qty);
  }

  lemma TakenKeys(b: Book, me: TickerId, t: Taker, qty: nat, h: map<Owner, Response>)
    requires BookInv(b) && HistoryOk(b, me) && t.ticker == me && t.owner.client < ME_MAX_NUM_CLIENTS
    requires h == Remember(b.history, AcceptedResponse(t.owner, me, b.nextId, t.side, t.price, qty))
    ensures Sound(b.resting)
    ensures RememberAll(h, MatchAll(b.resting, t, qty).responses).Keys == b.used + {t.owner}
  {
    hide MatchAll, Wf, AllAscending, Uncrossed, InBounds;
    forall id | id in b.resting.orders ensures b.resting.orders[id].owner in b.used + {t.owner} { KnownOwner(b, id); }
    MatchExecutes(b.resting, t, qty, b.used + {t.owner});
    ExecutionsKeys(h, MatchAll(b.resting, t, qty).responses, me, b.used + {t.owner});
  }

  /** What the history after the acceptance and the executions of `t` holds of one order. */
  lemma TakenRecalls(b: Book, me: TickerId, t: Taker, qty: nat, h: map<Owner, Response>, o: Owner)
    requires BookInv(b) && HistoryOk(b, me) && t.ticker == me && t.id == b.nextId && o in b.used + {t.owner}
    requires AddReason(b, me, t.owner, me, t.side, t.price, qty) == NoReason && t.owner.client < ME_MAX_NUM_CLIENTS
    requires h == Remember(b.history, AcceptedResponse(t.owner, me, b.nextId, t.side, t.price, qty))
    ensures Sound(b.resting) && Sound(MatchAll(b.resting, t, qty).book)
    ensures var m := MatchAll(b.resting, t, qty);
            Recalls(RememberAll(h, m.responses), me, o, LiveIn(Rest(m, t).book, o))
  {
    hide MatchAll, Rest, Sound, Wf, AllAscending, Uncrossed, LiveIn, HearAll, Absent, Thinned, InBounds, AddReason;
    NotUsedNow(b, me, t, qty);
    NotUsedIsAbsent(b, t.owner);
    RoomForRest(b, me, t, qty);
    var m := MatchAll(b.resting, t, qty);
    forall id | id in b.resting.orders ensures b.resting.orders[id].owner in b.used + {t.owner} { KnownOwner(b, id); }
    MatchExecutes(b.resting, t, qty, b.used + {t.owner});
    MatchHears(b.resting, t, qty, o);
    RestHears(m, t, o);
    NeverWrong(m.book, t, m.leaves, o);
    ExecutionsRecalled(h, DuringMatch(b.resting, t, qty, o), m.responses, me, o);
  }

  lemma NotUsedNow(b: Book, me: TickerId, t: Taker, qty: nat)
    requires AddReason(b, me, t.owner, me, t.side, t.price, qty) == NoReason
    ensures t.owner !in b.used && 0 < qty
  {
  }

  lemma KnownOwner(b: Book, id: OrderId)
    requires BookInv(b) && id in b.resting.orders
    ensures b.resting.orders[id].owner in b.used
  {
    assert InBounds(b, id);
  }

  lemma RememberOneMore(h: map<Owner, Response>, r: Response, rs: seq<Response>)
    ensures RememberAll(h, [r] + rs) == RememberAll(Remember(h, r), rs)
  {
    RememberConcat(h, [r], rs);
    assert [r][..0] == [];
    assert RememberAll(h, [r]) == Remember(RememberAll(h, []), r);
  }

  lemma NeverWrong(b: PriceBook, t: Taker, leaves: nat, o: Owner)
    ensures !DuringMatch(b, t, leaves, o).Wrong?
  {
  }

  lemma CancelRecallsOne(b: Book, me: TickerId, id: OrderId, r: Response, o: Owner)
    requires BookInv(b) && HistoryOk(b, me) && o in b.used && id in b.resting.orders && r.kind.Canceled?
    requires About(r, me, b.resting.orders[id].owner) && r.client < ME_MAX_NUM_CLIENTS
    ensures Recalls(Remember(b.history, r), me, o, LiveIn(Delete(b.resting, id), o))
  {
    LiveAfterDelete(b.resting, id, o);
    assert Recalls(b.history, me, o, LiveIn(b.resting, o));
    hide LiveIn, Delete, BookInv, OwnersDiffer, HistoryOk;
  }

  lemma CancelRecalls(b: Book, me: TickerId, to: Owner, ticker: TickerId)
    requires BookInv(b) && HistoryOk(b, me)
    ensures HistoryOk(CancelOf(b, me, to, ticker).book, me)
  {
    hide Recalls, LiveIn, Sound, AllAscending, Uncrossed, OwnersDiffer;
    var s := CancelOf(b, me, to, ticker);
    if s.book != b {
      var id := OrderOf(b.resting, to).value;
      KnownOwner(b, id);
      forall o | o in b.used ensures Recalls(s.book.history, me, o, LiveIn(s.book.resting, o)) {
        CancelRecallsOne(b, me, id, s.responses[0], o);
      }
    }
  }

  /** A query of any accepted order reports exactly what is open of it in the book, and zero when it is
      filled or canceled; of any other it is rejected. */
  lemma QueryReports(b: Book, me: TickerId, o: Owner)
    requires BookInv(b) && HistoryOk(b, me) && o.client < ME_MAX_NUM_CLIENTS && o.clientOrderId != 0
    ensures |QueryOf(b, me, o)| == 1
    ensures var r := QueryOf(b, me, o)[0];
            && About(r, me, o)
            && (o in b.used ==> r.kind.State? && r.leavesQty == QtyOf(LiveIn(b.resting, o)))
            && (o !in b.used ==> r.kind.Rejected? && r.reason == InvalidId && LiveIn(b.resting, o) == Gone)
  {
    if o in b.used { assert Recalls(b.history, me, o, LiveIn(b.resting, o)); } else { NotUsedIsAbsent(b, o); }
  }

  // ------------------------------------------------------------------ conservation

  /** What a response does to the open quantity: accepted adds, executed and canceled subtract. */
  function Change(r: Response): int {
    match r.kind
    case Accepted => r.leavesQty
    case Filled => 0 - r.execQty
    case Canceled => 0 - r.leavesQty
    case _ => 0
  }

  /** Accepted less executed less canceled quantity of one order. */
  function Ledger(rs: seq<Response>, t: TickerId, o: Owner): int {
    if rs == [] then 0
    else (if About(rs[0], t, o) then Change(rs[0]) else 0) + Ledger(rs[1..], t, o)
  }

  lemma {:induction false} LedgerConcat(a: seq<Response>, c: seq<Response>, t: TickerId, o: Owner)
    ensures Ledger(a + c, t, o) == Ledger(a, t, o) + Ledger(c, t, o)
    decreases |a|
  {
    if a == [] {
      assert a + c == c;
    } else {
      assert (a + c)[1..] == a[1..] + c;
      LedgerConcat(a[1..], c, t, o);
    }
  }

  lemma LedgerOne(r: Response, t: TickerId, o: Owner)
    ensures Ledger([r], t, o) == if About(r, t, o) then Change(r) else 0
  {
    assert [r][1..] == [];
  }

  lemma {:induction false} ExecutionsBalance(v: View, rs: seq<Response>, t: TickerId, o: Owner)
    requires Executions(rs, t) && !HearAll(v, rs, t, o).Wrong?
    ensures QtyOf(HearAll(v, rs, t, o)) == QtyOf(v) + Ledger(rs, t, o)
    decreases |rs|
  {
    if rs != [] {
      var w := if About(rs[0], t, o) then Hear(v, rs[0]) else v;
      if w.Wrong? { StaysWrong(rs[1..], t, o); assert false; }
      ExecutionsBalance(w, rs[1..], t, o);
    }
  }

  lemma {:induction false} StaysWrong(rs: seq<Response>, t: TickerId, o: Owner)
    ensures HearAll(Wrong, rs, t, o).Wrong?
    decreases |rs|
  {
    if rs != [] { StaysWrong(rs[1..], t, o); }
  }

  /** Nothing is lost: of every order, the quantity accepted less what was executed and canceled is what the
      book gained. */
  lemma AddBalances(b: Book, me: TickerId, to: Owner, ticker: TickerId, side: Side, price: int, qty: nat, o: Owner)
    requires BookInv(b)
    ensures var s := AddOrder(b, me, to, ticker, side, price, qty);
            QtyOf(LiveIn(s.book.resting, o)) == QtyOf(LiveIn(b.resting, o)) + Ledger(s.responses, me, o)
  {
    hide MatchAll, Rest, Sound, Wf, AllAscending, Uncrossed, LiveIn, HearAll, Absent, InBounds;
    var s := AddOrder(b, me, to, ticker, side, price, qty);
    if AddReason(b, me, to, ticker, side, price, qty) != NoReason {
      LedgerOne(s.responses[0], me, o);
    } else {
      var t := Taker(to, me, side, price, b.nextId);
      RightTicker(b, me, to, ticker, side, price, qty);
      NotUsedIsAbsent(b, to);
      forall id | id in b.resting.orders ensures b.resting.orders[id].owner in b.used + {to} { KnownOwner(b, id); }
      MatchExecutes(b.resting, t, qty, b.used + {to});
      MatchHears(b.resting, t, qty, o);
      RoomForRest(b, me, t, qty);
      var m := MatchAll(b.resting, t, qty);
      RestHears(m, t, o);
      NeverWrong(m.book, t, m.leaves, o);
      ExecutionsBalance(DuringMatch(b.resting, t, qty, o), m.responses, me, o);
      LedgerConcat([s.responses[0]], m.responses, me, o);
      LedgerOne(s.responses[0], me, o);
    }
  }

  lemma CancelBalances(b: Book, me: TickerId, to: Owner, o: Owner)
    requires BookInv(b)
    ensures var s := CancelOf(b, me, to, me);
            QtyOf(LiveIn(s.book.resting, o)) == QtyOf(LiveIn(b.resting, o)) + Ledger(s.responses, me, o)
  {
    var s := CancelOf(b, me, to, me);
    LedgerOne(s.responses[0], me, o);
    if s.book != b { LiveAfterDelete(b.resting, OrderOf(b.resting, to).value, o); }
  }

  lemma QueryBalances(b: Book, me: TickerId, to: Owner, o: Owner)
    requires HistoryOk(b, me)
    ensures Ledger(QueryOf(b, me, to), me, o) == 0
  {
    var rs := QueryOf(b, me, to);
    if rs != [] { LedgerOne(rs[0], me, o); }
  }
}
