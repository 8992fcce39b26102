/** What the checksum notices: orders that differ in a single byte of a single field never have the same checksum. */
module HashDetects {
  import opened Types
  import opened BookHashes
  import Cursors

  // ------------------------------------------------------------------ one step of the hash loses nothing

  lemma XorZero(a: nat)
    ensures Xor(0, a) == a == Xor(a, 0)
  {
  }

  lemma XorStep(a: nat, b: nat)
    requires a > 0 && b > 0
    ensures Xor(a, b) == 2 * Xor(a / 2, b / 2) + (if a % 2 == b % 2 then 0 else 1)
  {
  }

  lemma XorBit(a: nat, b: nat)
    ensures Xor(a, b) % 2 == (if a % 2 == b % 2 then 0 else 1) && Xor(a, b) / 2 == Xor(a / 2, b / 2)
  {
    hide Xor;
    if a == 0 {
      XorZero(b);
      XorZero(b / 2);
    } else if b == 0 {
      XorZero(a);
      XorZero(a / 2);
    } else {
      XorStep(a, b);
      Halves(Xor(a / 2, b / 2), if a % 2 == b % 2 then 0 else 1);
    }
  }

  lemma Halves(q: nat, r: nat)
    requires r < 2
    ensures (2 * q + r) % 2 == r && (2 * q + r) / 2 == q
  {
  }

  lemma {:induction false} XorCancels(a: nat, b: nat, c: nat)
    requires Xor(a, c) == Xor(b, c)
    ensures a == b
    decreases a + b + c
  {
    hide Xor;
    XorBit(a, c);
    XorBit(b, c);
    if a + b + c > 0 { XorCancels(a / 2, b / 2, c / 2); }
  }

  lemma {:induction false} XorSwaps(a: nat, b: nat)
    ensures Xor(a, b) == Xor(b, a)
    decreases a + b
  {
    hide Xor;
    XorBit(a, b);
    XorBit(b, a);
    if a + b > 0 { XorSwaps(a / 2, b / 2); }
  }

  lemma {:induction false} XorWithin(a: nat, b: nat, n: nat)
    requires a < Power(n) && b < Power(n)
    ensures Xor(a, b) < Power(n)
    decreases n
  {
    hide Xor;
    XorBit(a, b);
    if n > 0 { XorWithin(a / 2, b / 2, n - 1); } else { XorNothing(); }
  }

  lemma XorNothing()
    ensures Xor(0, 0) == 0
  {
  }

  function Power(n: nat): nat { if n == 0 then 1 else 2 * Power(n - 1) }

  lemma Power64()
    ensures Power(64) == TWO_64
  {
    assert Power(8) == 256;
    assert Power(16) == 0x1_0000;
    assert Power(24) == 0x100_0000;
    assert Power(32) == 0x1_0000_0000;
    assert Power(40) == 0x100_0000_0000;
    assert Power(48) == 0x1_0000_0000_0000;
    assert Power(56) == 0x100_0000_0000_0000;
  }

  /** The inverse of the prime modulo two to the power of 64. */
  const INVERSE: int := 14886173955864302971
  const QUOTIENT: int := 887285111055

  lemma InverseIs()
    ensures FNV_PRIME * INVERSE == 1 + QUOTIENT * TWO_64
  {
  }

  /** Multiplying by the prime in 64 bits is one to one. */
  lemma TimesPrime(x: nat, y: nat)
    requires x < TWO_64 && y < TWO_64 && (x * FNV_PRIME) % TWO_64 == (y * FNV_PRIME) % TWO_64
    ensures x == y
  {
    var q := x * FNV_PRIME / TWO_64 - y * FNV_PRIME / TWO_64;
    assert (x - y) * FNV_PRIME == q * TWO_64;
    InverseIs();
    assert (x - y) * (FNV_PRIME * INVERSE) == (x - y) * FNV_PRIME * INVERSE == q * TWO_64 * INVERSE;
    assert x - y == (q * INVERSE - (x - y) * QUOTIENT) * TWO_64;
    Cursors.Multiples(q * INVERSE - (x - y) * QUOTIENT, TWO_64);
  }

  lemma MixByteKeeps(h: nat, b: nat)
    ensures MixByte(h, b) < TWO_64
  {
    hide Xor;
  }

  /** After the same byte different hashes stay different, and so do equal hashes after different bytes. */
  lemma MixByteOneToOne(h: nat, g: nat, b: nat, c: nat)
    requires h < TWO_64 && g < TWO_64 && b < 256 && c < 256 && MixByte(h, b) == MixByte(g, c)
    ensures b == c ==> h == g
    ensures h == g ==> b == c
  {
    hide Xor;
    Power64();
    XorWithin(h, b, 64);
    XorWithin(g, c, 64);
    TimesPrime(Xor(h, b), Xor(g, c));
    if b == c { XorCancels(h, g, b); }
    if h == g {
      XorSwaps(h, b);
      XorSwaps(g, c);
      XorCancels(b, c, h);
    }
  }

  // ------------------------------------------------------------------ all bytes of a book

  predicate AreBytes(s: seq<nat>) { forall i :: 0 <= i < |s| ==> s[i] < 256 }

  lemma {:induction false} MixConcat(h: nat, a: seq<nat>, b: seq<nat>)
    ensures MixBytes(h, a + b) == MixBytes(MixBytes(h, a), b)
    decreases |a|
  {
    hide MixByte;
    if a == [] {
      assert a + b == b;
    } else {
      assert (a + b)[1..] == a[1..] + b;
      MixConcat(MixByte(h, a[0]), a[1..], b);
    }
  }

  lemma {:induction false} MixWithin(h: nat, s: seq<nat>)
    requires h < TWO_64
    ensures MixBytes(h, s) < TWO_64
    decreases |s|
  {
    hide MixByte;
    if s != [] {
      MixByteKeeps(h, s[0]);
      MixWithin(MixByte(h, s[0]), s[1..]);
    }
  }

  /** The same bytes keep different hashes apart. */
  lemma {:induction false} MixApart(h: nat, g: nat, s: seq<nat>)
    requires h < TWO_64 && g < TWO_64 && h != g && AreBytes(s)
    ensures MixBytes(h, s) != MixBytes(g, s)
    decreases |s|
  {
    hide MixByte;
    if s != [] {
      if MixByte(h, s[0]) == MixByte(g, s[0]) { MixByteOneToOne(h, g, s[0], s[0]); }
      MixByteKeeps(h, s[0]);
      MixByteKeeps(g, s[0]);
      MixApart(MixByte(h, s[0]), MixByte(g, s[0]), s[1..]);
    }
  }

  /** Two byte strings that differ in exactly one place. */
  predicate OneDiffers(a: seq<nat>, b: seq<nat>, i: nat) {
    |a| == |b| && i < |a| && a[..i] == b[..i] && a[i] != b[i] && a[i + 1..] == b[i + 1..]
  }

  lemma OnePlace(a: seq<nat>, b: seq<nat>, i: nat)
    requires OneDiffers(a, b, i)
    ensures a == a[..i] + [a[i]] + a[i + 1..] && b == a[..i] + [b[i]] + a[i + 1..]
  {
  }

  lemma MixOne(h: nat, b: nat)
    ensures MixBytes(h, [b]) == MixByte(h, b)
  {
    hide MixByte;
    assert [b][1..] == [];
  }

  lemma OneByteMixed(h: nat, a: seq<nat>, b: seq<nat>, i: nat)
    requires h < TWO_64 && AreBytes(a) && AreBytes(b) && OneDiffers(a, b, i)
    ensures MixBytes(h, a) != MixBytes(h, b)
  {
    hide MixByte, MixBytes;
    var front, x, y, tail := a[..i], a[i], b[i], a[i + 1..];
    var m := MixBytes(h, front);
    OnePlace(a, b, i);
    MixWithin(h, front);
    MixConcat(h, front + [x], tail);
    MixConcat(h, front + [y], tail);
    MixConcat(h, front, [x]);
    MixConcat(h, front, [y]);
    MixOne(m, x);
    MixOne(m, y);
    if MixByte(m, x) == MixByte(m, y) { MixByteOneToOne(m, m, x, y); }
    MixByteKeeps(m, x);
    MixByteKeeps(m, y);
    MixApart(MixByte(m, x), MixByte(m, y), tail);
  }

  /** An order's fields, eight bytes each. */
  function OrderBytes(o: Event): seq<nat> {
    Bytes(o.ticker) + Bytes(o.orderId) + Bytes(o.side.Value()) + Bytes(o.price) + Bytes(o.qty) + Bytes(o.priority)
  }

  function AllBytes(s: seq<Event>): seq<nat> {
    if s == [] then [] else OrderBytes(s[0]) + AllBytes(s[1..])
  }

  lemma OrderMixed(h: nat, o: Event)
    ensures MixOrder(h, o) == MixBytes(h, OrderBytes(o))
  {
    hide MixBytes, Bytes;
    var a, b, c, d, e, f := Bytes(o.ticker), Bytes(o.orderId), Bytes(o.side.Value()), Bytes(o.price), Bytes(o.qty), Bytes(o.priority);
    MixConcat(h, a + b + c + d + e, f);
    MixConcat(h, a + b + c + d, e);
    MixConcat(h, a + b + c, d);
    MixConcat(h, a + b, c);
    MixConcat(h, a, b);
  }

  lemma {:induction false} FoldIsMix(h: nat, s: seq<Event>)
    ensures Fold(h, s) == MixBytes(h, AllBytes(s))
    decreases |s|
  {
    hide MixOrder, OrderBytes, MixBytes;
    if s == [] {
      MixNothing(h);
    } else {
      OrderMixed(h, s[0]);
      FoldIsMix(MixOrder(h, s[0]), s[1..]);
      MixConcat(h, OrderBytes(s[0]), AllBytes(s[1..]));
    }
  }

  lemma MixNothing(h: nat)
    ensures MixBytes(h, []) == h
  {
  }

  lemma WordBytes(v: int)
    ensures AreBytes(Bytes(v))
  {
  }

  lemma {:induction false} AllAreBytes(s: seq<Event>)
    ensures AreBytes(AllBytes(s))
  {
    hide Bytes;
    if s != [] {
      AllAreBytes(s[1..]);
      WordBytes(s[0].ticker);
      WordBytes(s[0].orderId);
      WordBytes(s[0].side.Value());
      WordBytes(s[0].price);
      WordBytes(s[0].qty);
      WordBytes(s[0].priority);
    }
  }

  /** Two books, in the order of the checksum, whose fields differ in exactly one byte have different checksums. */
  lemma OneByteDetected(a: seq<Event>, b: seq<Event>, i: nat)
    requires OneDiffers(AllBytes(Sorted(a)), AllBytes(Sorted(b)), i)
    ensures BookHash(a) != BookHash(b)
  {
    hide AllBytes, OneDiffers, MixBytes, Sorted;
    FoldIsMix(FNV_OFFSET, Sorted(a));
    FoldIsMix(FNV_OFFSET, Sorted(b));
    AllAreBytes(Sorted(a));
    AllAreBytes(Sorted(b));
    OneByteMixed(FNV_OFFSET, AllBytes(Sorted(a)), AllBytes(Sorted(b)), i);
  }
}
