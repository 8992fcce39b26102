/** `FIFOSequencer`: rounds of stable sorting and partial publication, over any pattern of a full queue. */
module SequencerSpec {
  import opened Types

  /** A request and the time it was received. */
  datatype Timed = Timed(time: int, request: Request)

  const ME_MAX_PENDING_REQUESTS: nat := 1024

  /** `x` after everything that is not later. */
  function Insert(s: seq<Timed>, x: Timed): (r: seq<Timed>)
    ensures |r| == |s| + 1
  {
    if s == [] || s[|s| - 1].time <= x.time then s + [x] else Insert(s[..|s| - 1], x) + [s[|s| - 1]]
  }

  /** `std::stable_sort` by receive time. */
  function SortStable(s: seq<Timed>): (r: seq<Timed>)
    ensures |r| == |s|
  {
    if s == [] then [] else Insert(SortStable(s[..|s| - 1]), s[|s| - 1])
  }

  predicate InOrder(s: seq<Timed>) { forall i, j :: 0 <= i < j < |s| ==> s[i].time <= s[j].time }

  lemma {:induction false} InsertPermutes(s: seq<Timed>, x: Timed)
    ensures multiset(Insert(s, x)) == multiset(s) + multiset{x}
  {
    if s != [] && s[|s| - 1].time > x.time {
      InsertPermutes(s[..|s| - 1], x);
      assert s == s[..|s| - 1] + [s[|s| - 1]];
    }
  }

  lemma InOrderMore(s: seq<Timed>, y: Timed)
    requires InOrder(s) && forall z :: z in s ==> z.time <= y.time
    ensures InOrder(s + [y])
  {
  }

  lemma {:induction false} InsertOrders(s: seq<Timed>, x: Timed)
    requires InOrder(s)
    ensures InOrder(Insert(s, x))
  {
    if s != [] && s[|s| - 1].time > x.time {
      var front, last := s[..|s| - 1], s[|s| - 1];
      InsertOrders(front, x);
      InsertPermutes(front, x);
      forall z | z in Insert(front, x) ensures z.time <= last.time {
        assert z in multiset(Insert(front, x));
      }
      InOrderMore(Insert(front, x), last);
    } else {
      InOrderMore(s, x);
    }
  }

  /** Sorting permutes and orders. */
  lemma {:induction false} SortOrders(s: seq<Timed>)
    ensures InOrder(SortStable(s)) && multiset(SortStable(s)) == multiset(s)
  {
    if s != [] {
      SortOrders(s[..|s| - 1]);
      InsertOrders(SortStable(s[..|s| - 1]), s[|s| - 1]);
      InsertPermutes(SortStable(s[..|s| - 1]), s[|s| - 1]);
      assert s == s[..|s| - 1] + [s[|s| - 1]];
    }
  }

  /** The requests of one client, in order. */
  function Of(s: seq<Timed>, c: ClientId): seq<Timed> {
    if s == [] then [] else Of(s[..|s| - 1], c) + (if s[|s| - 1].request.client == c then [s[|s| - 1]] else [])
  }

  lemma {:induction false} OfConcat(a: seq<Timed>, b: seq<Timed>, c: ClientId)
    ensures Of(a + b, c) == Of(a, c) + Of(b, c)
    decreases |b|
  {
    if b == [] {
      assert a + b == a;
    } else {
      assert (a + b)[..|a + b| - 1] == a + b[..|b| - 1];
      OfConcat(a, b[..|b| - 1], c);
    }
  }

  /** No request of `c` is later than `x`. */
  predicate NoneLater(s: seq<Timed>, c: ClientId, x: Timed) {
    forall i :: 0 <= i < |s| && s[i].request.client == c ==> s[i].time <= x.time
  }

  lemma {:induction false} InsertKeepsOthers(s: seq<Timed>, x: Timed, c: ClientId)
    requires x.request.client == c ==> NoneLater(s, c, x)
    ensures Of(Insert(s, x), c) == Of(s + [x], c)
  {
    if s != [] && s[|s| - 1].time > x.time {
      var front, last := s[..|s| - 1], s[|s| - 1];
      InsertKeepsOthers(front, x, c);
      assert (s + [x])[..|s|] == s && (front + [x])[..|front|] == front;
      assert (Insert(front, x) + [last])[..|s|] == Insert(front, x);
    }
  }

  /** The receive times of `c` never decrease. */
  ghost predicate Punctual(s: seq<Timed>, c: ClientId) { InOrder(Of(s, c)) }

  lemma {:induction false} OfMembers(s: seq<Timed>, c: ClientId)
    ensures forall x :: x in Of(s, c) <==> x in s && x.request.client == c
  {
    if s != [] {
      OfMembers(s[..|s| - 1], c);
      assert s == s[..|s| - 1] + [s[|s| - 1]];
    }
  }

  /** Sorting does not reorder a client whose receive times never decrease. */
  lemma {:induction false} SortKeepsClient(s: seq<Timed>, c: ClientId)
    requires Punctual(s, c)
    ensures Of(SortStable(s), c) == Of(s, c)
  {
    if s != [] {
      var front, x := s[..|s| - 1], s[|s| - 1];
      assert s == front + [x];
      FrontPunctual(front, x, c);
      SortKeepsClient(front, c);
      var t := SortStable(front);
      if x.request.client == c {
        forall i | 0 <= i < |t| && t[i].request.client == c ensures t[i].time <= x.time {
          OfMembers(t, c);
          assert t[i] in Of(front, c);
          LastIsLatest(front, x, c, t[i]);
        }
      }
      InsertKeepsOthers(t, x, c);
      assert (t + [x])[..|t|] == t;
    }
  }

  lemma FrontPunctual(front: seq<Timed>, x: Timed, c: ClientId)
    requires Punctual(front + [x], c)
    ensures Punctual(front, c)
  {
    assert (front + [x])[..|front|] == front;
    assert Of(front + [x], c)[..|Of(front, c)|] == Of(front, c);
    forall i, j | 0 <= i < j < |Of(front, c)| ensures Of(front, c)[i].time <= Of(front, c)[j].time {
      assert Of(front + [x], c)[i].time <= Of(front + [x], c)[j].time;
    }
  }

  lemma LastIsLatest(front: seq<Timed>, x: Timed, c: ClientId, y: Timed)
    requires Punctual(front + [x], c) && x.request.client == c && y in Of(front, c)
    ensures y.time <= x.time
  {
    assert (front + [x])[..|front|] == front;
    var i :| 0 <= i < |Of(front, c)| && Of(front, c)[i] == y;
    var all := Of(front + [x], c);
    assert all == Of(front, c) + [x] && all[i] == y && all[|Of(front, c)|] == x;
  }

  // ------------------------------------------------------------------ rounds

  /** Requests accepted so far, those published, those waiting. */
  datatype Sequencer = Sequencer(accepted: seq<Timed>, published: seq<Timed>, pending: seq<Timed>)

  const NOTHING := Sequencer([], [], [])

  /** A request arrives, and is refused if there is no room; or a round publishes as many as the queue takes. */
  datatype Act = Arrive(item: Timed) | Round(room: nat)

  function Publish(s: Sequencer, room: nat): Sequencer {
    var sorted := SortStable(s.pending);
    var k := Min(room, |sorted|);
    s.(published := s.published + sorted[..k], pending := sorted[k..])
  }

  function Do(s: Sequencer, a: Act): Sequencer {
    match a
    case Arrive(x) =>
      if |s.pending| >= ME_MAX_PENDING_REQUESTS then s
      else s.(accepted := s.accepted + [x], pending := s.pending + [x])
    case Round(room) => Publish(s, room)
  }

  function DoAll(s: Sequencer, xs: seq<Act>): Sequencer {
    if xs == [] then s else Do(DoAll(s, xs[..|xs| - 1]), xs[|xs| - 1])
  }

  lemma SplitSort(s: Sequencer, room: nat)
    ensures var k := Min(room, |SortStable(s.pending)|);
            SortStable(s.pending)[..k] + SortStable(s.pending)[k..] == SortStable(s.pending)
  {
  }

  /** Under any pattern of full queues nothing is lost or repeated, and at most the capacity waits. */
  lemma {:induction false} PublishedPlusPending(xs: seq<Act>)
    ensures var s := DoAll(NOTHING, xs);
            multiset(s.published) + multiset(s.pending) == multiset(s.accepted) && |s.pending| <= ME_MAX_PENDING_REQUESTS
  {
    if xs != [] {
      PublishedPlusPending(xs[..|xs| - 1]);
      var s := DoAll(NOTHING, xs[..|xs| - 1]);
      match xs[|xs| - 1]
      case Arrive(x) =>
      case Round(room) =>
        SortOrders(s.pending);
        SplitSort(s, room);
        var k := Min(room, |SortStable(s.pending)|);
        assert multiset(SortStable(s.pending)[..k]) + multiset(SortStable(s.pending)[k..]) == multiset(s.pending) by {
          assert multiset(SortStable(s.pending)[..k] + SortStable(s.pending)[k..]) == multiset(s.pending);
        }
    }
  }

  /** What was published of a client and what waits of it, together, are what it sent, in order. */
  ghost predicate InArrivalOrder(s: Sequencer, c: ClientId) {
    Of(s.published + s.pending, c) == Of(s.accepted, c)
  }

  lemma AcceptedGrows(s: Sequencer, a: Act, c: ClientId)
    requires Punctual(Do(s, a).accepted, c)
    ensures Punctual(s.accepted, c)
  {
    if a.Arrive? && Do(s, a) != s { FrontPunctual(s.accepted, a.item, c); }
  }

  lemma ActOrders(s: Sequencer, a: Act, c: ClientId)
    requires InArrivalOrder(s, c) && Punctual(s.accepted, c)
    ensures InArrivalOrder(Do(s, a), c)
  {
    OfConcat(s.published, s.pending, c);
    match a
    case Arrive(x) =>
      assert s.published + (s.pending + [x]) == (s.published + s.pending) + [x];
      OfConcat(s.published + s.pending, [x], c);
      OfConcat(s.accepted, [x], c);
    case Round(room) =>
      var sorted := SortStable(s.pending);
      var k := Min(room, |sorted|);
      SplitSort(s, room);
      PendingPunctual(s, c);
      SortKeepsClient(s.pending, c);
      assert (s.published + sorted[..k]) + sorted[k..] == s.published + sorted;
      OfConcat(s.published, sorted, c);
  }

  lemma PendingPunctual(s: Sequencer, c: ClientId)
    requires Of(s.accepted, c) == Of(s.published, c) + Of(s.pending, c) && Punctual(s.accepted, c)
    ensures Punctual(s.pending, c)
  {
    var n := |Of(s.published, c)|;
    forall i, j | 0 <= i < j < |Of(s.pending, c)| ensures Of(s.pending, c)[i].time <= Of(s.pending, c)[j].time {
      assert Of(s.accepted, c)[n + i].time <= Of(s.accepted, c)[n + j].time;
    }
  }

  /** Across all rounds and full queues, a client whose receive times never decrease has its requests
      published in the order it sent them. */
  lemma {:induction false} ArrivalOrderKept(xs: seq<Act>, c: ClientId)
    requires Punctual(DoAll(NOTHING, xs).accepted, c)
    ensures InArrivalOrder(DoAll(NOTHING, xs), c)
    ensures Of(DoAll(NOTHING, xs).published, c) <= Of(DoAll(NOTHING, xs).accepted, c)
  {
    hide Punctual, Do;
    if xs != [] {
      var s := DoAll(NOTHING, xs[..|xs| - 1]);
      AcceptedGrows(s, xs[|xs| - 1], c);
      ArrivalOrderKept(xs[..|xs| - 1], c);
      ActOrders(s, xs[|xs| - 1], c);
    }
    OfConcat(DoAll(NOTHING, xs).published, DoAll(NOTHING, xs).pending, c);
  }

  // ------------------------------------------------------------------ and what each act must do

  /** The requests received at one time, in order. */
  function AtTime(s: seq<Timed>, t: int): seq<Timed> {
    if s == [] then [] else AtTime(s[..|s| - 1], t) + (if s[|s| - 1].time == t then [s[|s| - 1]] else [])
  }

  lemma AtTimeMore(s: seq<Timed>, x: Timed, t: int)
    ensures AtTime(s + [x], t) == AtTime(s, t) + (if x.time == t then [x] else [])
  {
    assert (s + [x])[..|s|] == s;
  }

  lemma {:induction false} InsertKeepsTies(s: seq<Timed>, x: Timed, t: int)
    ensures AtTime(Insert(s, x), t) == AtTime(s, t) + (if x.time == t then [x] else [])
    decreases |s|
  {
    hide AtTime;
    AtTimeMore(s, x, t);
    if s != [] && s[|s| - 1].time > x.time {
      var front, last := s[..|s| - 1], s[|s| - 1];
      assert s == front + [last];
      InsertKeepsTies(front, x, t);
      AtTimeMore(front, last, t);
      AtTimeMore(Insert(front, x), last, t);
      var none: seq<Timed> := [];
      assert AtTime(front, t) + none == AtTime(front, t);
    }
  }

  /** Sorting keeps the order of arrival among requests of the same time, whoever sent them. */
  lemma {:induction false} SortKeepsTies(s: seq<Timed>, t: int)
    ensures AtTime(SortStable(s), t) == AtTime(s, t)
    decreases |s|
  {
    if s != [] {
      var front := s[..|s| - 1];
      SortKeepsTies(front, t);
      InsertKeepsTies(SortStable(front), s[|s| - 1], t);
    }
  }

  /** After any history: an arrival is accepted, as the last to wait, exactly when fewer than the capacity wait. */
  lemma AcceptedExactlyWhen(xs: seq<Act>, x: Timed)
    ensures var s, s' := DoAll(NOTHING, xs), DoAll(NOTHING, xs + [Arrive(x)]);
            if |s.pending| < ME_MAX_PENDING_REQUESTS
            then s' == Sequencer(s.accepted + [x], s.published, s.pending + [x])
            else s' == s
  {
    assert (xs + [Arrive(x)])[..|xs|] == xs;
  }

  /** A round publishes as many as wait and as the queue takes, neither more nor fewer, and none before one that was
      received earlier, or at the same time and accepted earlier. */
  lemma RoundPublishes(xs: seq<Act>, room: nat)
    ensures var s, s' := DoAll(NOTHING, xs), DoAll(NOTHING, xs + [Round(room)]);
            && s'.accepted == s.accepted && |s'.pending| == |s.pending| - Min(room, |s.pending|)
            && s.published <= s'.published && |s'.published| == |s.published| + Min(room, |s.pending|)
            && var now := s'.published[|s.published|..];
               && InOrder(now + s'.pending) && multiset(now + s'.pending) == multiset(s.pending)
               && forall t :: AtTime(now + s'.pending, t) == AtTime(s.pending, t)
  {
    assert (xs + [Round(room)])[..|xs|] == xs;
    var s, s' := DoAll(NOTHING, xs), DoAll(NOTHING, xs + [Round(room)]);
    var sorted := SortStable(s.pending);
    SortOrders(s.pending);
    SplitSort(s, room);
    assert s'.published[|s.published|..] + s'.pending == sorted;
    forall t ensures AtTime(sorted, t) == AtTime(s.pending, t) { SortKeepsTies(s.pending, t); }
  }
}
