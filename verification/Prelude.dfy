/** Option, and the few facts about powers of two and division the other modules share. */
module Prelude {

  datatype Option<+T> = None | Some(value: T)

  type Byte = b: nat | b < 256

  function Min(a: int, b: int): int {
    if a <= b then a else b
  }

  function Pow2(n: nat): (p: nat)
    ensures p >= 1
  {
    if n == 0 then 1 else 2 * Pow2(n - 1)
  }

  /** The sequence lists the set in ascending order, each element once. */
  predicate Lists(at: seq<int>, s: set<int>) {
    && (forall j, k :: 0 <= j < k < |at| ==> at[j] < at[k])
    && (forall k :: 0 <= k < |at| ==> at[k] in s)
    && (forall i <- s :: i in at)
  }

  lemma ListsOneMore(at: seq<int>, s: set<int>, n: int)
    requires Lists(at, s) && forall i <- s :: i < n
    ensures Lists(at + [n], s + {n})
  {
  }

  lemma {:induction false} Pow2Add(m: nat, n: nat)
    ensures Pow2(m + n) == Pow2(m) * Pow2(n)
    decreases m
  {
    if m > 0 {
      Pow2Add(m - 1, n);
      assert m + n - 1 == (m - 1) + n;
    }
  }

  /** The quotient and remainder of x are the only q and r with x == q * d + r and 0 <= r < d. */
  lemma DivModUnique(x: int, d: int, q: int, r: int)
    requires d > 0 && x == q * d + r && 0 <= r < d
    ensures x / d == q && x % d == r
  {
    var q', r' := x / d, x % d;
    assert x == q' * d + r';
    if q' > q {
      MulAtLeast(q' - q, d);
      assert false;
    } else if q' < q {
      MulAtLeast(q - q', d);
      assert false;
    }
  }

  lemma AddMultiple(x: int, m: int, d: int)
    requires d > 0
    ensures (x + m * d) / d == x / d + m
  {
    var q, r := x / d, x % d;
    assert x == q * d + r;
    assert x + m * d == (q + m) * d + r;
    DivModUnique(x + m * d, d, q + m, r);
  }

  lemma MulAtLeast(k: int, d: int)
    requires k >= 1 && d > 0
    ensures k * d >= d
  {
    assert k * d == d + (k - 1) * d;
  }

  lemma MulMono(a: int, b: int, c: nat)
    requires a <= b
    ensures a * c <= b * c
  {
    assert b * c == a * c + (b - a) * c;
  }

  lemma DivFloor(x: nat, d: nat)
    requires d > 0
    ensures x / d >= 0 && (x / d) * d <= x && x % d == x - (x / d) * d
  {
    assert x == (x / d) * d + x % d;
  }

  /** A block of size s starting at a multiple of s below k * s ends by k * s. */
  lemma BlockBelow(x: nat, s: nat, k: nat)
    requires s > 0 && x < k * s
    ensures x - x % s + s <= k * s
  {
    DivFloor(x, s);
    var q := x / s;
    if q >= k {
      MulMono(k, q, s);
      assert false;
    }
    assert k * s == q * s + (k - q) * s;
    MulAtLeast(k - q, s);
  }

  /** Rounding down to a multiple of d picks out the block of d numbers that x lies in. */
  lemma SameBlock(x: int, y: int, d: int)
    requires d > 0
    ensures x / d == y / d <==> x - x % d <= y < x - x % d + d
  {
    var b := x - x % d;
    assert b == (x / d) * d;
    if b <= y < b + d {
      DivModUnique(y, d, x / d, y - b);
    }
    if x / d == y / d {
      assert y == (y / d) * d + y % d;
    }
  }
}
