/** Small arithmetic and counting facts used throughout: extrema, subset sizes, positions on a ring. */
module Basics {
  function Min(a: int, b: int): int {
    if a <= b then a else b
  }

  function Max(a: int, b: int): int {
    if a >= b then a else b
  }

  /** The last n of a sequence, or all of it. */
  function Newest<T>(s: seq<T>, n: nat): seq<T> {
    if |s| <= n then s else s[|s| - n..]
  }

  lemma SubsetSize<T>(a: set<T>, b: set<T>)
    requires a <= b
    ensures |a| <= |b|
    ensures a != b ==> |a| < |b|
  {
    assert b == a + (b - a);
  }

  /** p mod m for a position less than two turns round. */
  function Wrap(p: nat, m: nat): nat {
    if p < m then p else p - m
  }

  lemma AtLeast(d: int, m: nat)
    requires d >= 1
    ensures d * m >= m
  {
    assert d * m == (d - 1) * m + m;
    NonNegative(d - 1, m);
  }

  lemma NonNegative(a: nat, m: nat)
    ensures a * m >= 0
  {
  }

  lemma ModUnique(x: nat, q: nat, r: nat, m: nat)
    requires r < m && x == q * m + r
    ensures x % m == r
  {
    var d := x / m - q;
    assert x == (x / m) * m + x % m;
    assert d * m == (x / m) * m - q * m;
    if d >= 1 {
      AtLeast(d, m);
    } else if d <= -1 {
      assert (-d) * m == q * m - (x / m) * m;
      AtLeast(-d, m);
    }
  }

  lemma ModSmall(p: nat, m: nat)
    requires p < 2 * m
    ensures p % m == Wrap(p, m)
  {
    if p < m { ModUnique(p, 0, p, m); } else { ModUnique(p, 1, p - m, m); }
  }

  lemma ModSucc(x: nat, m: nat)
    requires m > 0
    ensures (x + 1) % m == Wrap(x % m + 1, m)
  {
    var q, r := x / m, x % m;
    assert x == q * m + r;
    if r + 1 < m {
      ModUnique(x + 1, q, r + 1, m);
    } else {
      assert x + 1 == (q + 1) * m;
      ModUnique(x + 1, q + 1, 0, m);
    }
  }

  /** A position moved on by k. */
  function Advance(p: nat, k: nat, m: nat): (r: nat)
    requires m > 0
    ensures r < m
    ensures p + k < 2 * m ==> r == Wrap(p + k, m)
  {
    if p + k < 2 * m then ModSmall(p + k, m); (p + k) % m else (p + k) % m
  }

  lemma AdvanceNone(p: nat, m: nat)
    requires p < m
    ensures Advance(p, 0, m) == p
  {
  }

  lemma AdvanceMore(p: nat, k: nat, m: nat)
    requires m > 0
    ensures Advance(p, k + 1, m) == Wrap(Advance(p, k, m) + 1, m)
  {
    ModSucc(p + k, m);
  }
}
