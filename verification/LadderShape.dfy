/**
 What it means for the pool contents, the best-level pointers and the (side, price) index to represent
 a plain price-time book, and that each relinking keeps it so.
*/
module LadderShape {
  import opened Types
  import opened Rings
  import opened PriceBooks

  /** `MEOrdersAtPrice` / `MarketOrdersAtPrice`, without the ring links. */
  datatype Level = Level(side: Side, price: int, first: Slot)

  function LevelKey(l: Level): Key { (l.side, l.price) }

  ghost predicate OnSide(levels: Store<Level>, v: Slot, side: Side) {
    v in levels && levels[v].val.side == side
  }

  ghost predicate BetterLevel(levels: Store<Level>, v: Slot, w: Slot, side: Side) {
    v in levels && w in levels && Better(side, levels[v].val.price, levels[w].val.price)
  }

  /** One side: a ring of levels from the best price to the worst, entered at the best. */
  ghost predicate SideRing(levels: Store<Level>, ring: seq<Slot>, best: int, side: Side) {
    && IsRing(levels, ring)
    && best == (if ring == [] then NULL else ring[0])
    && (forall i :: 0 <= i < |ring| ==> OnSide(levels, ring[i], side))
    && (forall i, j :: 0 <= i < j < |ring| ==> BetterLevel(levels, ring[i], ring[j], side))
  }

  /** The index names exactly the levels of the pool, each under its side and price. */
  ghost predicate IndexOk(levels: Store<Level>, index: map<Key, Slot>) {
    && (forall v :: v in levels ==> LevelKey(levels[v].val) in index && index[LevelKey(levels[v].val)] == v)
    && (forall k :: k in index ==> k.0.Valid() && index[k] in levels && LevelKey(levels[index[k]].val) == k)
  }

  datatype Sides = Sides(bids: seq<Slot>, asks: seq<Slot>) {
    function Of(side: Side): seq<Slot> { if side.Buy? then bids else asks }

    function Set(side: Side, ring: seq<Slot>): Sides {
      if side.Buy? then this.(bids := ring) else this.(asks := ring)
    }
  }

  datatype Heads = Heads(bids: int, asks: int) {
    function Of(side: Side): int { if side.Buy? then bids else asks }

    function Set(side: Side, best: int): Heads {
      if side.Buy? then this.(bids := best) else this.(asks := best)
    }
  }

  ghost predicate LevelsOk(levels: Store<Level>, index: map<Key, Slot>, heads: Heads, sides: Sides) {
    && SideRing(levels, sides.bids, heads.bids, Buy)
    && SideRing(levels, sides.asks, heads.asks, Sell)
    && IndexOk(levels, index)
    && OnRings(levels, sides)
  }

  lemma SideFrame(levels: Store<Level>, levels': Store<Level>, ring: seq<Slot>, best: int, side: Side)
    requires SideRing(levels, ring, best, side)
    requires forall v :: v in ring && v in levels ==>
                           v in levels' && levels'[v].val.side == levels[v].val.side
                           && levels'[v].val.price == levels[v].val.price
                           && levels'[v].prev == levels[v].prev && levels'[v].next == levels[v].next
    ensures SideRing(levels', ring, best, side)
  {
    RingFrame(levels, levels', ring);
    forall i | 0 <= i < |ring| ensures OnSide(levels', ring[i], side) {
      assert OnSide(levels, ring[i], side);
    }
    forall i, j | 0 <= i < j < |ring| ensures BetterLevel(levels', ring[i], ring[j], side) {
      assert BetterLevel(levels, ring[i], ring[j], side);
    }
  }

  /** The links after node `v` is put into a ring at position `p`; a lone node points at itself. */
  function Linked<T>(st: Store<T>, ring: seq<Slot>, p: nat, v: Slot): Store<T>
    requires p <= |ring| && v in st
    requires ring != [] ==> var t := ring[if p == |ring| then 0 else p];
                            LinksInto(st, t) && v != t && st[t].prev != v
  {
    if ring == [] then SetPrev(SetNext(st, v, v), v, v)
    else LinkBefore(st, v, ring[if p == |ring| then 0 else p])
  }

  lemma LinkedRing<T>(st: Store<T>, ring: seq<Slot>, p: nat, v: Slot)
    requires v in st && IsRing(st - {v}, ring) && p <= |ring|
    ensures ring != [] ==> var t := ring[if p == |ring| then 0 else p];
                           LinksInto(st, t) && v != t && st[t].prev != v
    ensures IsRing(Linked(st, ring, p, v), InsertAt(ring, p, v))
    ensures SameBut(st, Linked(st, ring, p, v), ring + [v])
    ensures v !in ring
  {
    forall i | 0 <= i < |ring| ensures ring[i] != v {
      assert LinkedAt(st - {v}, ring, i);
    }
    RingFrame(st - {v}, st, ring);
    if ring == [] {
      var st' := Linked(st, ring, p, v);
      assert InsertAt(ring, p, v) == [v];
      assert LinkedAt(st', [v], 0);
    } else {
      LinkBeforeRing(st, ring, p, v);
    }
  }

  lemma SideInsert(levels: Store<Level>, ring: seq<Slot>, best: int, side: Side, p: nat, v: Slot)
    requires v in levels && SideRing(levels - {v}, ring, best, side) && p <= |ring|
    requires levels[v].val.side == side
    requires forall i :: 0 <= i < p ==> BetterLevel(levels, ring[i], v, side)
    requires forall i :: p <= i < |ring| ==> BetterLevel(levels, v, ring[i], side)
    ensures ring != [] ==> var t := ring[if p == |ring| then 0 else p];
                           LinksInto(levels, t) && v != t && levels[t].prev != v
    ensures SideRing(Linked(levels, ring, p, v), InsertAt(ring, p, v),
                     if p == 0 then v else best, side)
  {
    LinkedRing(levels, ring, p, v);
    InsertAtIndex(ring, p, v);
    var levels', ring' := Linked(levels, ring, p, v), InsertAt(ring, p, v);
    hide Linked, InsertAt, IsRing;
    forall i | 0 <= i < |ring'| ensures OnSide(levels', ring'[i], side) {
      if i != p { assert OnSide(levels - {v}, ring[if i < p then i else i - 1], side); }
    }
    forall i, j | 0 <= i < j < |ring'| ensures BetterLevel(levels', ring'[i], ring'[j], side) {
      if i != p && j != p {
        assert BetterLevel(levels - {v}, ring[if i < p then i else i - 1],
                           ring[if j < p then j else j - 1], side);
      }
    }
  }

  lemma IndexInsert(levels: Store<Level>, levels': Store<Level>, index: map<Key, Slot>, v: Slot)
    requires v in levels && IndexOk(levels - {v}, index)
    requires levels[v].val.side.Valid() && LevelKey(levels[v].val) !in index
    requires levels'.Keys == levels.Keys && forall w :: w in levels ==> levels'[w].val == levels[w].val
    ensures IndexOk(levels', index[LevelKey(levels[v].val) := v])
  {
    forall w | w in levels' && w != v
      ensures LevelKey(levels'[w].val) in index && index[LevelKey(levels'[w].val)] == w
    {
      assert w in levels - {v};
    }
  }

  /** Every level is on the ring of its side. */
  ghost predicate OnRings(levels: Store<Level>, sides: Sides) {
    forall v :: v in levels ==> v in sides.Of(levels[v].val.side)
  }

  lemma OnRingsInsert(levels: Store<Level>, levels': Store<Level>, sides: Sides, p: nat, v: Slot)
    requires v in levels && OnRings(levels - {v}, sides) && p <= |sides.Of(levels[v].val.side)|
    requires levels'.Keys == levels.Keys && forall w :: w in levels ==> levels'[w].val == levels[w].val
    requires levels[v].val.side.Valid()
    ensures OnRings(levels', sides.Set(levels[v].val.side, InsertAt(sides.Of(levels[v].val.side), p, v)))
  {
    var side := levels[v].val.side;
    var ring := sides.Of(side);
    InsertAtIndex(ring, p, v);
    forall w | w in levels' ensures w in sides.Set(side, InsertAt(ring, p, v)).Of(levels'[w].val.side) {
      if w == v {
        assert InsertAt(ring, p, v)[p] == v;
      } else {
        assert w in levels - {v};
        if w in ring {
          var i :| 0 <= i < |ring| && ring[i] == w;
          assert InsertAt(ring, p, v)[if i < p then i else i + 1] == w;
        }
      }
    }
  }

  lemma OtherSide(levels: Store<Level>, levels': Store<Level>, ring: seq<Slot>, best: int, side: Side,
                  touched: seq<Slot>)
    requires SideRing(levels, ring, best, side)
    requires forall w :: w in levels && w !in touched ==> w in levels' && levels'[w] == levels[w]
    requires forall w :: w in touched && w in levels ==> levels[w].val.side != side
    ensures SideRing(levels', ring, best, side)
  {
    forall w | w in ring && w in levels ensures w in levels' && levels'[w] == levels[w] {
      SideOfMember(levels, ring, best, side, w);
    }
    SideFrame(levels, levels', ring, best, side);
  }

  lemma LevelInsert(levels: Store<Level>, index: map<Key, Slot>, heads: Heads, sides: Sides, p: nat, v: Slot)
    requires v in levels && LevelsOk(levels - {v}, index, heads, sides)
    requires var l := levels[v].val;
             && l.side.Valid() && LevelKey(l) !in index && p <= |sides.Of(l.side)|
             && (forall i :: 0 <= i < p ==> BetterLevel(levels, sides.Of(l.side)[i], v, l.side))
             && (forall i :: p <= i < |sides.Of(l.side)| ==> BetterLevel(levels, v, sides.Of(l.side)[i], l.side))
    ensures var l := levels[v].val; var ring := sides.Of(l.side);
            && (ring != [] ==> var t := ring[if p == |ring| then 0 else p];
                               LinksInto(levels, t) && v != t && levels[t].prev != v)
            && LevelsOk(Linked(levels, ring, p, v), index[LevelKey(l) := v],
                        heads.Set(l.side, if p == 0 then v else heads.Of(l.side)),
                        sides.Set(l.side, InsertAt(ring, p, v)))
            && SameBut(levels, Linked(levels, ring, p, v), ring + [v])
  {
    var side := levels[v].val.side;
    var ring, best := sides.Of(side), heads.Of(side);
    SideInsert(levels, ring, best, side, p, v);
    LinkedRing(levels, ring, p, v);
    var levels' := Linked(levels, ring, p, v);
    hide Linked, IsRing;
    forall w | w in ring + [v] && w in levels - {v} ensures levels[w].val.side == side {
      SideOfMember(levels - {v}, ring, best, side, w);
    }
    OtherSide(levels - {v}, levels', sides.Of(side.Opposite()), heads.Of(side.Opposite()), side.Opposite(), ring + [v]);
    IndexInsert(levels, levels', index, v);
    OnRingsInsert(levels, levels', sides, p, v);
  }

  lemma SideOfMember(levels: Store<Level>, ring: seq<Slot>, best: int, side: Side, w: Slot)
    requires SideRing(levels, ring, best, side) && w in ring
    ensures w in levels && levels[w].val.side == side
  {
    var i :| 0 <= i < |ring| && ring[i] == w;
    assert OnSide(levels, ring[i], side);
  }

  /** The pool after node `v` left its ring and went back to the free stack. */
  function Unlinked<T>(st: Store<T>, ring: seq<Slot>, v: Slot): Store<T>
    requires |ring| > 1 ==> LinksInto(st, v)
  {
    (if |ring| > 1 then Unlink(st, v) else st) - {v}
  }

  lemma UnlinkedRing<T>(st: Store<T>, ring: seq<Slot>, p: nat)
    requires IsRing(st, ring) && p < |ring|
    ensures ring[p] in st && (|ring| > 1 ==> LinksInto(st, ring[p]))
    ensures var st' := Unlinked(st, ring, ring[p]);
            && IsRing(st', RemoveAt(ring, p))
            && st'.Keys == st.Keys - {ring[p]}
            && (forall w :: w in st' ==> st'[w].val == st[w].val)
            && (forall w :: w in st && w !in ring ==> w in st' && st'[w] == st[w])
  {
    assert LinkedAt(st, ring, p);
    RemoveAtIndex(ring, p);
    if |ring| > 1 {
      RingLinks(st, ring, p);
      UnlinkRing(st, ring, p);
      RingFrame(Unlink(st, ring[p]), Unlinked(st, ring, ring[p]), RemoveAt(ring, p));
    }
  }

  lemma SideRemove(levels: Store<Level>, ring: seq<Slot>, best: int, side: Side, p: nat)
    requires SideRing(levels, ring, best, side) && p < |ring|
    ensures ring[p] in levels && (|ring| > 1 ==> LinksInto(levels, ring[p]))
    ensures SideRing(Unlinked(levels, ring, ring[p]), RemoveAt(ring, p),
                     if |ring| == 1 then NULL else if ring[p] == best then levels[ring[p]].next else best, side)
  {
    UnlinkedRing(levels, ring, p);
    RemoveAtIndex(ring, p);
    assert LinkedAt(levels, ring, p);
    var levels', ring' := Unlinked(levels, ring, ring[p]), RemoveAt(ring, p);
    hide Unlinked, RemoveAt, IsRing;
    forall i | 0 <= i < |ring'| ensures OnSide(levels', ring'[i], side) {
      assert OnSide(levels, ring[if i < p then i else i + 1], side);
    }
    forall i, j | 0 <= i < j < |ring'| ensures BetterLevel(levels', ring'[i], ring'[j], side) {
      assert BetterLevel(levels, ring[if i < p then i else i + 1], ring[if j < p then j else j + 1], side);
    }
  }

  lemma IndexRemove(levels: Store<Level>, levels': Store<Level>, index: map<Key, Slot>, v: Slot)
    requires v in levels && IndexOk(levels, index)
    requires levels'.Keys == levels.Keys - {v} && forall w :: w in levels' ==> levels'[w].val == levels[w].val
    ensures IndexOk(levels', index - {LevelKey(levels[v].val)})
  {
  }

  lemma OnRingsRemove(levels: Store<Level>, levels': Store<Level>, sides: Sides, side: Side, p: nat)
    requires OnRings(levels, sides) && p < |sides.Of(side)| && sides.Of(side)[p] in levels && side.Valid()
    requires forall w :: w in levels ==> levels[w].val.side.Valid()
    requires levels'.Keys == levels.Keys - {sides.Of(side)[p]}
    requires forall w :: w in levels' ==> levels'[w].val == levels[w].val
    ensures OnRings(levels', sides.Set(side, RemoveAt(sides.Of(side), p)))
  {
    var ring := sides.Of(side);
    RemoveAtIndex(ring, p);
    forall w | w in levels' ensures w in sides.Set(side, RemoveAt(ring, p)).Of(levels'[w].val.side) {
      assert w in sides.Of(levels[w].val.side);
      if levels[w].val.side == side {
        var i :| 0 <= i < |ring| && ring[i] == w;
        assert RemoveAt(ring, p)[if i < p then i else i - 1] == w;
      }
    }
  }

  lemma LevelRemove(levels: Store<Level>, index: map<Key, Slot>, heads: Heads, sides: Sides, side: Side, p: nat)
    requires LevelsOk(levels, index, heads, sides) && side.Valid() && p < |sides.Of(side)|
    ensures var ring := sides.Of(side); var v := ring[p];
            && v in levels && (|ring| > 1 ==> LinksInto(levels, v))
            && LevelsOk(Unlinked(levels, ring, v), index - {LevelKey(levels[v].val)},
                        heads.Set(side, if |ring| == 1 then NULL
                                        else if v == heads.Of(side) then levels[v].next else heads.Of(side)),
                        sides.Set(side, RemoveAt(ring, p)))
            && Unlinked(levels, ring, v).Keys == levels.Keys - {v}
            && (forall w :: w in levels && w != v ==> Unlinked(levels, ring, v)[w].val == levels[w].val)
  {
    var ring, best := sides.Of(side), heads.Of(side);
    SideRemove(levels, ring, best, side, p);
    UnlinkedRing(levels, ring, p);
    var levels' := Unlinked(levels, ring, ring[p]);
    assert OnSide(levels, ring[p], side);
    hide Unlinked, IsRing;
    forall w | w in ring && w in levels ensures levels[w].val.side == side {
      SideOfMember(levels, ring, best, side, w);
    }
    OtherSide(levels, levels', sides.Of(side.Opposite()), heads.Of(side.Opposite()), side.Opposite(), ring);
    IndexRemove(levels, levels', index, ring[p]);
    forall w | w in levels ensures levels[w].val.side.Valid() {
      assert LevelKey(levels[w].val) in index;
    }
    OnRingsRemove(levels, levels', sides, side, p);
  }

  /** What a walk along a side's ring reads at position `i`, while node `v` waits to be inserted. */
  lemma WalkStep(levels: Store<Level>, ring: seq<Slot>, best: int, side: Side, v: Slot, i: nat)
    requires v in levels && SideRing(levels - {v}, ring, best, side) && i < |ring|
    ensures best == ring[0] && ring[i] in levels && ring[i] != v && levels[ring[i]].val.side == side
    ensures levels[ring[i]].next == ring[NextIndex(i, |ring|)] && levels[ring[i]].prev == ring[PrevIndex(i, |ring|)]
    ensures i > 0 ==> ring[i] != best
  {
    assert OnSide(levels - {v}, ring[i], side);
    RingLinks(levels - {v}, ring, i);
  }

  /** In a sorted ring, two neighbours of the gap decide for all. */
  lemma SplitAt(levels: Store<Level>, ring: seq<Slot>, best: int, side: Side, v: Slot, p: nat)
    requires v in levels && SideRing(levels - {v}, ring, best, side) && p <= |ring|
    requires p > 0 ==> BetterLevel(levels, ring[p - 1], v, side)
    requires p < |ring| ==> BetterLevel(levels, v, ring[p], side)
    ensures forall i :: 0 <= i < p ==> BetterLevel(levels, ring[i], v, side)
    ensures forall i :: p <= i < |ring| ==> BetterLevel(levels, v, ring[i], side)
  {
    forall i | 0 <= i < p ensures BetterLevel(levels, ring[i], v, side) {
      if i < p - 1 { assert BetterLevel(levels - {v}, ring[i], ring[p - 1], side); }
    }
    forall i | p <= i < |ring| ensures BetterLevel(levels, v, ring[i], side) {
      if p < i { assert BetterLevel(levels - {v}, ring[p], ring[i], side); }
    }
  }

  /** Levels of one side have different prices. */
  lemma PriceDiffers(levels: Store<Level>, index: map<Key, Slot>, v: Slot, w: Slot)
    requires v in levels && IndexOk(levels - {v}, index) && LevelKey(levels[v].val) !in index
    requires w in levels && w != v && levels[w].val.side == levels[v].val.side
    ensures levels[w].val.price != levels[v].val.price
  {
    assert w in levels - {v};
  }

  /** A side has no best level exactly when it has no level. */
  lemma HeadOf(levels: Store<Level>, index: map<Key, Slot>, heads: Heads, sides: Sides, side: Side)
    requires LevelsOk(levels, index, heads, sides) && side.Valid()
    ensures heads.Of(side) == NULL <==> sides.Of(side) == []
    ensures SideRing(levels, sides.Of(side), heads.Of(side), side)
  {
  }

  lemma IndexOf(levels: Store<Level>, index: map<Key, Slot>, heads: Heads, sides: Sides)
    requires LevelsOk(levels, index, heads, sides)
    ensures IndexOk(levels, index) && OnRings(levels, sides)
    ensures SideRing(levels, sides.bids, heads.bids, Buy) && SideRing(levels, sides.asks, heads.asks, Sell)
  {
  }

  /** Where the level under `k` stands in the ring of its side; it is alone iff it links to itself. */
  lemma PlaceOf(levels: Store<Level>, index: map<Key, Slot>, heads: Heads, sides: Sides, k: Key) returns (p: nat)
    requires LevelsOk(levels, index, heads, sides) && k in index
    ensures k.0.Valid() && index[k] in levels && LevelKey(levels[index[k]].val) == k
    ensures p < |sides.Of(k.0)| && sides.Of(k.0)[p] == index[k]
    ensures levels[index[k]].next == index[k] <==> |sides.Of(k.0)| == 1
    ensures |sides.Of(k.0)| > 1 ==> LinksInto(levels, index[k]) && levels[index[k]].prev != index[k]
  {
    var ring := sides.Of(k.0);
    assert index[k] in ring;
    p :| 0 <= p < |ring| && ring[p] == index[k];
    assert SideRing(levels, ring, heads.Of(k.0), k.0);
    RingLinks(levels, ring, p);
  }

  lemma LinkTarget(levels: Store<Level>, ring: seq<Slot>, best: int, side: Side, p: nat, v: Slot)
    requires v in levels && SideRing(levels - {v}, ring, best, side) && p <= |ring| && ring != []
    ensures var t := ring[if p == |ring| then 0 else p];
            LinksInto(levels, t) && v != t && levels[t].prev != v
  {
    LinkedRing(levels, ring, p, v);
  }

  lemma IndexFrame(levels: Store<Level>, levels': Store<Level>, index: map<Key, Slot>, sides: Sides)
    requires IndexOk(levels, index) && OnRings(levels, sides) && levels'.Keys == levels.Keys
    requires forall w :: w in levels ==> LevelKey(levels'[w].val) == LevelKey(levels[w].val)
    ensures IndexOk(levels', index) && OnRings(levels', sides)
  {
  }

  /** Which order a level's queue starts with does not matter to the ring of levels. */
  lemma LevelFirst(levels: Store<Level>, index: map<Key, Slot>, heads: Heads, sides: Sides, v: Slot, first: Slot)
    requires LevelsOk(levels, index, heads, sides) && v in levels
    ensures LevelsOk(levels[v := levels[v].(val := levels[v].val.(first := first))], index, heads, sides)
  {
    hide SideRing, IndexOk, OnRings;
    var levels' := levels[v := levels[v].(val := levels[v].val.(first := first))];
    SideFrame(levels, levels', sides.bids, heads.bids, Buy);
    SideFrame(levels, levels', sides.asks, heads.asks, Sell);
    IndexFrame(levels, levels', index, sides);
  }
}
