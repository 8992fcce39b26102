/** Arithmetic of queue cursors, which run modulo twice the capacity while slots run modulo the capacity. */
module Cursors {
  lemma Multiples(d: int, m: nat)
    ensures d >= 1 ==> d * m >= m
    ensures d <= -1 ==> d * m <= 0 - m
  {
  }

  /** A remainder found is the remainder. */
  lemma ModIs(x: int, q: int, m: nat)
    requires m > 0 && 0 <= x - q * m < m
    ensures x % m == x - q * m
  {
    var d := x / m - q;
    assert d * m == (x / m) * m - q * m;
    assert x == (x / m) * m + x % m;
    Multiples(d, m);
  }

  /** The cursor after `k` operations. */
  function Cursor(k: nat, n: nat): (r: nat)
    requires n > 0
    ensures r < 2 * n
  {
    k % (2 * n)
  }

  function Next(c: nat, n: nat): nat
    requires n > 0
  {
    (c + 1) % (2 * n)
  }

  function Distance(tail: nat, head: nat, n: nat): nat
    requires n > 0
  {
    (tail - head) % (2 * n)
  }

  lemma NextMod(k: nat, m: nat)
    requires m > 0
    ensures (k % m + 1) % m == (k + 1) % m
  {
    var q, r := k / m, k % m;
    assert k == q * m + r;
    if r == m - 1 {
      assert (q + 1) * m == q * m + m;
      ModIs(k + 1, q + 1, m);
      ModIs(r + 1, 1, m);
    } else {
      ModIs(k + 1, q, m);
      ModIs(r + 1, 0, m);
    }
  }

  lemma NextIs(k: nat, n: nat)
    requires n > 0
    ensures Next(Cursor(k, n), n) == Cursor(k + 1, n)
  {
    NextMod(k, 2 * n);
  }

  /** Two cursors at most a capacity apart tell their distance exactly; in particular empty and full differ. */
  lemma DistanceIs(tail: nat, head: nat, n: nat)
    requires n > 0 && head <= tail <= head + n
    ensures Distance(Cursor(tail, n), Cursor(head, n), n) == tail - head
    ensures Cursor(tail, n) == Cursor(head, n) <==> tail == head
  {
    var m := 2 * n;
    var x := Cursor(tail, n) - Cursor(head, n);
    var q := head / m - tail / m;
    assert tail == (tail / m) * m + tail % m && head == (head / m) * m + head % m;
    assert q * m == (head / m) * m - (tail / m) * m;
    assert x - q * m == tail - head;
    ModIs(x, q, m);
  }

  /** A cursor and its counter name the same slot. */
  lemma SlotIs(k: nat, n: nat)
    requires n > 0
    ensures Cursor(k, n) % n == k % n
  {
    var q := k / (2 * n);
    var r := k % (2 * n);
    assert k == q * (2 * n) + r;
    assert (2 * q) * n == q * (2 * n);
    if r < n {
      ModIs(k, 2 * q, n);
    } else {
      assert (2 * q + 1) * n == (2 * q) * n + n;
      ModIs(k, 2 * q + 1, n);
      ModIs(r, 1, n);
    }
  }

  /** Counters less than a capacity apart use different slots. */
  lemma SlotsDiffer(a: nat, b: nat, n: nat)
    requires n > 0 && a < b < a + n
    ensures a % n != b % n
  {
    var d := b / n - a / n;
    assert d * n == (b / n) * n - (a / n) * n;
    Multiples(d, n);
  }
}
