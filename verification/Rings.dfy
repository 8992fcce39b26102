/**
 Circular doubly linked rings whose nodes live in a fixed pool. A pointer is the slot number of its
 target, `NULL` the null pointer; a pool's live objects form a map from slots to nodes. Price levels
 and the orders of one level are both kept in such rings.
*/
module Rings {
  type Slot = nat
  type Store<T> = map<Slot, Node<T>>

  const NULL := -1

  datatype Node<T> = Node(val: T, prev: int, next: int)

  function NextIndex(i: nat, n: nat): nat
    requires i < n
  {
    if i + 1 == n then 0 else i + 1
  }

  function PrevIndex(i: nat, n: nat): nat
    requires i < n
  {
    if i == 0 then n - 1 else i - 1
  }

  ghost predicate Distinct<X(!new)>(s: seq<X>) {
    forall i, j :: 0 <= i < j < |s| ==> s[i] != s[j]
  }

  ghost predicate LinkedAt<T>(st: Store<T>, s: seq<Slot>, i: nat)
    requires i < |s|
  {
    && s[i] in st
    && st[s[i]].next == s[NextIndex(i, |s|)]
    && st[s[i]].prev == s[PrevIndex(i, |s|)]
  }

  /** The nodes of `s`, in this order, form one ring. */
  ghost predicate IsRing<T>(st: Store<T>, s: seq<Slot>) {
    && Distinct(s)
    && (forall i :: 0 <= i < |s| ==> LinkedAt(st, s, i))
  }

  function SetPrev<T>(st: Store<T>, x: Slot, p: int): Store<T>
    requires x in st
  {
    st[x := st[x].(prev := p)]
  }

  function SetNext<T>(st: Store<T>, x: Slot, p: int): Store<T>
    requires x in st
  {
    st[x := st[x].(next := p)]
  }

  ghost predicate LinksInto<T>(st: Store<T>, x: Slot) {
    x in st && st[x].prev >= 0 && st[x].prev in st && st[x].next >= 0 && st[x].next in st
  }

  /** The four pointer writes that put node `x` before node `target`. */
  function LinkBefore<T>(st: Store<T>, x: Slot, target: Slot): Store<T>
    requires x in st && LinksInto(st, target) && x != target && st[target].prev != x
  {
    var s1 := SetPrev(st, x, st[target].prev);
    var s2 := SetNext(s1, x, target);
    var s3 := SetNext(s2, s2[target].prev, x);
    SetPrev(s3, target, x)
  }

  /** The two pointer writes that take node `x` out of its ring. */
  function Unlink<T>(st: Store<T>, x: Slot): Store<T>
    requires LinksInto(st, x)
  {
    SetPrev(SetNext(st, st[x].prev, st[x].next), st[x].next, st[x].prev)
  }

  function InsertAt<X>(s: seq<X>, k: nat, x: X): seq<X>
    requires k <= |s|
  {
    s[..k] + [x] + s[k..]
  }

  function RemoveAt<X>(s: seq<X>, k: nat): seq<X>
    requires k < |s|
  {
    s[..k] + s[k + 1..]
  }

  /** Links changed, payloads did not, and nodes outside `touched` did not change at all. */
  ghost predicate SameBut<T>(st: Store<T>, st': Store<T>, touched: seq<Slot>) {
    && st'.Keys == st.Keys
    && (forall y :: y in st ==> st'[y].val == st[y].val)
    && (forall y :: y in st && y !in touched ==> st'[y] == st[y])
  }

  lemma RingLinks<T>(st: Store<T>, s: seq<Slot>, k: nat)
    requires IsRing(st, s) && k < |s|
    ensures LinksInto(st, s[k])
    ensures st[s[k]].prev == s[PrevIndex(k, |s|)] && st[s[k]].next == s[NextIndex(k, |s|)]
  {
    assert LinkedAt(st, s, k) && LinkedAt(st, s, PrevIndex(k, |s|)) && LinkedAt(st, s, NextIndex(k, |s|));
  }

  lemma InsertAtIndex<X(!new)>(s: seq<X>, k: nat, x: X)
    requires k <= |s|
    ensures var r := InsertAt(s, k, x);
            && |r| == |s| + 1
            && r[k] == x
            && (forall i :: 0 <= i < |r| && i != k ==> r[i] == s[if i < k then i else i - 1])
            && (Distinct(s) && x !in s ==> Distinct(r))
  {
  }

  lemma RemoveAtIndex<X(!new)>(s: seq<X>, k: nat)
    requires k < |s|
    ensures var r := RemoveAt(s, k);
            && |r| == |s| - 1
            && (forall i :: 0 <= i < |r| ==> r[i] == s[if i < k then i else i + 1])
            && (Distinct(s) ==> Distinct(r) && s[k] !in r)
  {
  }

  lemma LinkBeforeRing<T>(st: Store<T>, s: seq<Slot>, k: nat, x: Slot)
    requires IsRing(st, s) && s != [] && k <= |s| && x in st && x !in s
    ensures var target := s[if k == |s| then 0 else k];
            && LinksInto(st, target) && x != target && st[target].prev != x
            && IsRing(LinkBefore(st, x, target), InsertAt(s, k, x))
            && SameBut(st, LinkBefore(st, x, target), s + [x])
  {
    var t := if k == |s| then 0 else k;
    RingLinks(st, s, t);
    InsertAtIndex(s, k, x);
    var st', s' := LinkBefore(st, x, s[t]), InsertAt(s, k, x);
    forall i | 0 <= i < |s'| ensures LinkedAt(st', s', i) {
      if i != k {
        assert LinkedAt(st, s, if i < k then i else i - 1);
      }
    }
  }

  lemma UnlinkRing<T>(st: Store<T>, s: seq<Slot>, k: nat)
    requires IsRing(st, s) && k < |s| && |s| > 1
    ensures LinksInto(st, s[k])
    ensures IsRing(Unlink(st, s[k]), RemoveAt(s, k))
    ensures SameBut(st, Unlink(st, s[k]), RemoveAt(s, k))
  {
    RingLinks(st, s, k);
    RemoveAtIndex(s, k);
    var st', s' := Unlink(st, s[k]), RemoveAt(s, k);
    forall i | 0 <= i < |s'| ensures LinkedAt(st', s', i) {
      assert LinkedAt(st, s, if i < k then i else i + 1);
    }
  }

  /** A ring is untouched by changes elsewhere in the pool. */
  lemma RingFrame<T>(st: Store<T>, st': Store<T>, s: seq<Slot>)
    requires IsRing(st, s)
    requires forall y :: y in s && y in st ==> y in st' && st'[y].prev == st[y].prev && st'[y].next == st[y].next
    ensures IsRing(st', s)
  {
    forall i | 0 <= i < |s| ensures LinkedAt(st', s, i) {
      assert LinkedAt(st, s, i);
    }
  }

  lemma WriteThenDrop<T>(st: Store<T>, x: Slot, n: Node<T>)
    ensures st[x := n] - {x} == st - {x}
    ensures x !in st ==> st[x := n] - {x} == st
  {
  }
}
