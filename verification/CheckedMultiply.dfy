/** `checked_multiply` and `overflowCheck` of CLI11.hpp for integer types, given by their limits. */
module CheckedMultiply {
  import opened Arithmetic

  /** A signed two's complement type, or an unsigned one. */
  predicate IsIntegerType(lo: int, hi: int) {
    hi >= 1 && (lo == 0 || lo == -hi - 1)
  }

  /** `std::abs`, which has no result for the least value of a signed type. */
  function Abs(a: int, lo: int, hi: int): (r: int)
    requires IsIntegerType(lo, hi) && lo <= a <= hi && (lo < 0 ==> a != lo)
    ensures 0 <= r <= hi && (r == a || r == -a)
  {
    if a < 0 then -a else a
  }

  /** C++ division truncates toward zero. The operands and the quotient are values of the type. */
  function Quotient(n: int, d: int, lo: int, hi: int): (r: int)
    requires IsIntegerType(lo, hi) && lo <= n <= hi && 0 < d <= hi
    ensures lo <= r <= hi
  {
    if n >= 0 then QuotientAtMost(n, d); n / d else QuotientAtMost(-n, d); -((-n) / d)
  }

  /** The negation of an absolute value is a value of a signed type. */
  function Negated(b: int, lo: int, hi: int): (r: int)
    requires IsIntegerType(lo, hi) && lo < 0 && 0 <= b <= hi
    ensures lo <= r <= 0
  {
    -b
  }

  /** n / d is less than b exactly when d * b is more than n. */
  lemma QuotientBelow(n: nat, d: nat, b: nat)
    requires d > 0
    ensures n / d < b <==> n < d * b
  {
    var q, r := n / d, n % d;
    assert n == d * q + r;
    if q < b {
      Scale(d, q + 1, b);
    } else {
      Scale(d, b, q);
    }
  }

  function OverflowCheckSigned(a: int, b: int, lo: int, hi: int): bool
    requires IsIntegerType(lo, hi) && lo < 0 && lo < a <= hi && lo < b <= hi && a != 0
  {
    if (a > 0) == (b > 0) then Quotient(hi, Abs(a, lo, hi), lo, hi) < Abs(b, lo, hi)
    else Quotient(lo, Abs(a, lo, hi), lo, hi) > Negated(Abs(b, lo, hi), lo, hi)
  }

  function OverflowCheckUnsigned(a: int, b: int, hi: int): bool
    requires 0 < a <= hi && 0 <= b <= hi
  {
    Quotient(hi, a, 0, hi) < b
  }

  lemma ProductOfAbs(a: int, b: int, x: int, y: int)
    requires (x == a || x == -a) && (y == b || y == -b) && x > 0 && y > 0
    ensures a * b == if (a > 0) == (b > 0) then x * y else -(x * y)
  {
  }

  lemma SignedExact(a: int, b: int, lo: int, hi: int)
    requires IsIntegerType(lo, hi) && lo < 0 && lo < a <= hi && lo < b <= hi && a != 0 && b != 0
    ensures OverflowCheckSigned(a, b, lo, hi) <==> !(lo <= a * b <= hi)
  {
    var x, y := Abs(a, lo, hi), Abs(b, lo, hi);
    ProductOfAbs(a, b, x, y);
    if (a > 0) == (b > 0) {
      QuotientBelow(hi, x, y);
    } else {
      QuotientBelow(-lo, x, y);
    }
  }

  /** The multiplication succeeds exactly when the mathematical product fits the type; then the product is stored,
      and otherwise the operand stays. No intermediate result leaves the type. */
  method Multiply(a: int, b: int, lo: int, hi: int) returns (ok: bool, product: int)
    requires IsIntegerType(lo, hi) && lo <= a <= hi && lo <= b <= hi
    ensures ok <==> lo <= a * b <= hi
    ensures product == if ok then a * b else a
  {
    if a == 0 || b == 0 || a == 1 || b == 1 { return true, a * b; }
    if a == lo || b == lo {
      LeastOverflows(a, b, lo, hi);
      return false, a;
    }
    var over;
    if lo < 0 {
      SignedExact(a, b, lo, hi);
      over := OverflowCheckSigned(a, b, lo, hi);
    } else {
      QuotientBelow(hi, a, b);
      ProductOfAbs(a, b, a, b);
      over := OverflowCheckUnsigned(a, b, hi);
    }
    if over { return false, a; }
    return true, a * b;
  }

  /** The least value times anything but 0 and 1 does not fit. */
  lemma LeastOverflows(a: int, b: int, lo: int, hi: int)
    requires IsIntegerType(lo, hi) && lo <= a <= hi && lo <= b <= hi
    requires (a == lo || b == lo) && a != 0 && b != 0 && a != 1 && b != 1
    ensures !(lo <= a * b <= hi)
  {
    var c := if a == lo then b else a;
    assert a * b == lo * c;
    if c > 1 { LeastTimes(lo, c); } else { LeastTimes(lo, -c); }
  }

  lemma LeastTimes(lo: int, c: int)
    requires lo < 0 && c >= 1
    ensures lo * c <= lo && (c >= 2 ==> lo * c < lo) && lo * -c == -(lo * c)
  {
    if c >= 2 { assert lo * c == lo * (c - 1) + lo && lo * (c - 1) < 0; }
  }
}
