/** `common/book_hash.h`: an order book's checksum, over its orders sorted by ticker and order id. */
module BookHashes {
  import opened Types

  predicate KeyLess(a: Event, b: Event) {
    a.ticker < b.ticker || (a.ticker == b.ticker && a.orderId < b.orderId)
  }

  function Insert(e: Event, s: seq<Event>): seq<Event> {
    if s == [] || KeyLess(e, s[0]) then [e] + s else [s[0]] + Insert(e, s[1..])
  }

  function Sorted(s: seq<Event>): seq<Event> {
    if s == [] then [] else Insert(s[0], Sorted(s[1..]))
  }

  const FNV_OFFSET: nat := 14695981039346656037
  const FNV_PRIME: nat := 1099511628211

  function Xor(a: nat, b: nat): nat
    decreases a + b
  {
    if a == 0 then b else if b == 0 then a
    else 2 * Xor(a / 2, b / 2) + (if a % 2 == b % 2 then 0 else 1)
  }

  /** One byte: exclusive or into the hash, then multiply in 64 bits. */
  function MixByte(hash: nat, b: nat): nat { (Xor(hash, b) * FNV_PRIME) % TWO_64 }

  function Byte(word: nat, shift: nat): nat
    requires shift > 0
  {
    word / shift % 256
  }

  /** The eight bytes of the 64-bit pattern of a value, most significant first. */
  function Bytes(value: int): seq<nat> {
    var w := value % TWO_64;
    [Byte(w, 0x100_0000_0000_0000), Byte(w, 0x1_0000_0000_0000), Byte(w, 0x100_0000_0000),
     Byte(w, 0x1_0000_0000), Byte(w, 0x100_0000), Byte(w, 0x1_0000), Byte(w, 0x100), Byte(w, 1)]
  }

  function MixBytes(hash: nat, bytes: seq<nat>): nat
    decreases |bytes|
  {
    if bytes == [] then hash else MixBytes(MixByte(hash, bytes[0]), bytes[1..])
  }

  function Mix(hash: nat, value: int): nat { MixBytes(hash, Bytes(value)) }

  function MixOrder(h: nat, o: Event): nat {
    Mix(Mix(Mix(Mix(Mix(Mix(h, o.ticker), o.orderId), o.side.Value()), o.price), o.qty), o.priority)
  }

  function Fold(h: nat, s: seq<Event>): nat
    decreases |s|
  {
    if s == [] then h else Fold(MixOrder(h, s[0]), s[1..])
  }

  function BookHash(orders: seq<Event>): nat { Fold(FNV_OFFSET, Sorted(orders)) }

  ghost predicate Ordered(s: seq<Event>) {
    forall i, j :: 0 <= i < j < |s| ==> KeyLess(s[i], s[j])
  }

  ghost predicate KeysDiffer(s: seq<Event>) {
    forall i, j :: 0 <= i < j < |s| ==> s[i].ticker != s[j].ticker || s[i].orderId != s[j].orderId
  }

  lemma {:induction false} InsertFacts(e: Event, s: seq<Event>)
    requires Ordered(s) && forall i :: 0 <= i < |s| ==> s[i].ticker != e.ticker || s[i].orderId != e.orderId
    ensures Ordered(Insert(e, s)) && multiset(Insert(e, s)) == multiset(s) + multiset{e}
  {
    if s != [] && !KeyLess(e, s[0]) {
      InsertFacts(e, s[1..]);
      var r := Insert(e, s[1..]);
      assert s == [s[0]] + s[1..];
      forall j | 0 <= j < |r| ensures KeyLess(s[0], r[j]) {
        assert r[j] in multiset(r);
        if r[j] != e {
          assert r[j] in multiset(s[1..]);
          var i :| 0 <= i < |s[1..]| && s[1..][i] == r[j];
        }
      }
    }
  }

  lemma {:induction false} SortedFacts(s: seq<Event>)
    requires KeysDiffer(s)
    ensures Ordered(Sorted(s)) && multiset(Sorted(s)) == multiset(s)
  {
    if s != [] {
      SortedFacts(s[1..]);
      assert s == [s[0]] + s[1..];
      var r := Sorted(s[1..]);
      forall j | 0 <= j < |r| ensures r[j].ticker != s[0].ticker || r[j].orderId != s[0].orderId {
        assert r[j] in multiset(r);
        assert r[j] in multiset(s[1..]);
        var i :| 0 <= i < |s[1..]| && s[1..][i] == r[j];
      }
      InsertFacts(s[0], r);
    }
  }

  lemma FirstIsLeast(a: seq<Event>, b: seq<Event>)
    requires Ordered(a) && Ordered(b) && a != [] && b != [] && multiset(a) == multiset(b)
    ensures a[0] == b[0]
  {
    assert a[0] in multiset(b) && b[0] in multiset(a);
    var i: nat :| i < |b| && b[i] == a[0];
    var j: nat :| j < |a| && a[j] == b[0];
    FromFirst(b, i);
    FromFirst(a, j);
  }

  lemma FromFirst(s: seq<Event>, i: nat)
    requires Ordered(s) && i < |s|
    ensures s[i] == s[0] || KeyLess(s[0], s[i])
  {
  }

  lemma RestSame(a: seq<Event>, b: seq<Event>)
    requires a != [] && b != [] && a[0] == b[0] && multiset(a) == multiset(b)
    ensures multiset(a[1..]) == multiset(b[1..])
  {
    assert a == [a[0]] + a[1..] && b == [b[0]] + b[1..];
    assert multiset(a[1..]) == multiset(a) - multiset{a[0]};
    assert multiset(b[1..]) == multiset(b) - multiset{b[0]};
  }

  lemma OrderedRest(a: seq<Event>)
    requires Ordered(a) && a != []
    ensures Ordered(a[1..])
  {
  }

  lemma {:induction false} OrderedUnique(a: seq<Event>, b: seq<Event>)
    requires Ordered(a) && Ordered(b) && multiset(a) == multiset(b)
    ensures a == b
    decreases |a|
  {
    hide Ordered, KeyLess;
    assert |a| == |multiset(a)| && |b| == |multiset(b)|;
    if a != [] {
      FirstIsLeast(a, b);
      RestSame(a, b);
      OrderedRest(a);
      OrderedRest(b);
      OrderedUnique(a[1..], b[1..]);
      assert a == [a[0]] + a[1..] && b == [b[0]] + b[1..];
    }
  }

  /** The checksum does not depend on the order in which the orders are listed. */
  lemma HashOfSet(a: seq<Event>, b: seq<Event>)
    requires KeysDiffer(a) && KeysDiffer(b) && multiset(a) == multiset(b)
    ensures BookHash(a) == BookHash(b)
  {
    SortedFacts(a);
    SortedFacts(b);
    OrderedUnique(Sorted(a), Sorted(b));
  }
}
