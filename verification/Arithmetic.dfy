/** Powers of sixteen, and division facts that the solver does not find by itself. */
module Arithmetic {

  function Pow16(k: nat): (r: nat)
    ensures r > 0
  {
    if k == 0 then 1 else 16 * Pow16(k - 1)
  }

  function Smaller(a: int, b: int): int { if a < b then a else b }

  lemma Below(m: nat, n: nat, q: nat, r: nat)
    requires q < n && r < m
    ensures m * q + r < m * n
  {
    assert m * (q + 1) <= m * n;
  }

  /** A multiple of d that is smaller than d either way is zero. */
  lemma Multiple(d: int, k: int, r: int)
    requires d > 0 && d * k == r && -d < r < d
    ensures k == 0
  {
    if k >= 1 {
      Grows(d, k);
      assert false;
    } else if k <= -1 {
      Grows(d, -k);
      assert false;
    }
  }

  lemma Grows(d: int, k: int)
    requires d > 0 && k >= 1
    ensures d * k >= d
    ensures d * -k == -(d * k)
  {
  }

  lemma DivUnique(a: nat, d: nat, q: nat, r: nat)
    requires d > 0 && a == d * q + r && r < d
    ensures a / d == q && a % d == r
  {
    var q', r' := a / d, a % d;
    assert (d as int) * ((q as int) - q') == (r' as int) - r;
    Multiple(d as int, (q as int) - q', (r' as int) - r);
  }

  lemma Scale(p: nat, a: nat, b: nat)
    requires a <= b
    ensures p * a <= p * b
  {
  }

  lemma LessFactor(p: nat, a: nat, b: nat)
    requires p * a < p * b
    ensures a < b
  {
    if a >= b {
      Scale(p, b, a);
      assert false;
    }
  }

  lemma QuotientAtMost(w: nat, d: nat)
    requires d > 0
    ensures 0 <= w / d <= w
  {
    if w / d > 0 { assert d * (w / d) >= w / d; }
  }
}
