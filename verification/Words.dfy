/** 32-bit unsigned words as integers below 2^32, with the wrap-around of C++ written out,
    and the facts that make each operation of a hash step reversible. */
module Words {
  import opened Arithmetic

  const M: int := 0x1_0000_0000

  type Word = x: int | 0 <= x < 0x1_0000_0000

  function Pow2(n: nat): (r: nat)
    ensures r > 0
  {
    if n == 0 then 1 else 2 * Pow2(n - 1)
  }

  function Add(a: int, b: int): Word { (a + b) % 0x1_0000_0000 }

  function Mul(a: int, b: int): Word { (a * b) % 0x1_0000_0000 }

  /** Bitwise exclusive or, least significant bit first. */
  function XorNat(a: nat, b: nat): nat
    decreases a + b
  {
    if a == 0 then b else if b == 0 then a
    else 2 * XorNat(a / 2, b / 2) + (if a % 2 == b % 2 then 0 else 1)
  }

  lemma XorBound(a: nat, b: nat, n: nat)
    requires a < Pow2(n) && b < Pow2(n)
    ensures XorNat(a, b) < Pow2(n)
  {
    if n > 0 && a != 0 && b != 0 { XorBound(a / 2, b / 2, n - 1); }
  }

  lemma Pow2Of32()
    ensures Pow2(32) == 0x1_0000_0000
  {
    assert Pow2(8) == 256;
    assert Pow2(16) == 65536 by { assert Pow2(12) == 4096; }
    assert Pow2(24) == 16777216 by { assert Pow2(20) == 1048576; }
    assert Pow2(28) == 268435456;
  }

  function Xor(a: Word, b: Word): Word {
    Pow2Of32();
    XorBound(a, b, 32);
    XorNat(a, b)
  }

  lemma {:induction false} XorSelf(a: nat)
    ensures XorNat(a, a) == 0
  {
    if a != 0 { XorSelf(a / 2); }
  }

  lemma {:induction false} XorStep(a: nat, b: nat)
    ensures XorNat(a, b) / 2 == XorNat(a / 2, b / 2)
    ensures XorNat(a, b) % 2 == (if a % 2 == b % 2 then 0 else 1)
  {
  }

  lemma {:induction false} XorAssoc(a: nat, b: nat, c: nat)
    ensures XorNat(XorNat(a, b), c) == XorNat(a, XorNat(b, c))
    decreases a + b + c
  {
    if a != 0 && b != 0 && c != 0 {
      XorAssoc(a / 2, b / 2, c / 2);
      XorAssocHalves(a, b, c);
      XorAssocParity(a, b, c);
    }
  }

  lemma {:induction false} XorAssocHalves(a: nat, b: nat, c: nat)
    requires XorNat(XorNat(a / 2, b / 2), c / 2) == XorNat(a / 2, XorNat(b / 2, c / 2))
    ensures XorNat(XorNat(a, b), c) / 2 == XorNat(a, XorNat(b, c)) / 2
  {
    XorStep(a, b); XorStep(b, c);
    XorStep(XorNat(a, b), c); XorStep(a, XorNat(b, c));
  }

  lemma {:induction false} XorAssocParity(a: nat, b: nat, c: nat)
    ensures XorNat(XorNat(a, b), c) % 2 == XorNat(a, XorNat(b, c)) % 2
  {
    XorStep(a, b); XorStep(b, c);
    XorStep(XorNat(a, b), c); XorStep(a, XorNat(b, c));
  }

  /** Exclusive or with the same word twice changes nothing. */
  lemma XorUndo(a: Word, b: Word)
    ensures Xor(Xor(a, b), b) == a
  {
    XorAssoc(a, b, b); XorSelf(b);
  }

  lemma {:induction false} XorCommutes(a: nat, b: nat)
    ensures XorNat(a, b) == XorNat(b, a)
    decreases a + b
  {
    if a != 0 && b != 0 { XorCommutes(a / 2, b / 2); }
  }

  // ---------------------------------------------------------------------
  // Shifts and rotations. A right shift by n divides by 2^n.
  // ---------------------------------------------------------------------

  /** Right shift: n halvings. */
  function Shr(a: nat, n: nat): (r: nat)
    ensures r <= a
  {
    if n == 0 then a else Shr(a / 2, n - 1)
  }

  /** Exclusive or acts on the high parts separately. */
  lemma {:induction false} XorShift(a: nat, b: nat, n: nat)
    ensures Shr(XorNat(a, b), n) == XorNat(Shr(a, n), Shr(b, n))
    decreases n
  {
    if n > 0 {
      XorStep(a, b);
      XorShift(a / 2, b / 2, n - 1);
    }
  }

  lemma {:induction false} ShrAdd(a: nat, m: nat, n: nat)
    ensures Shr(Shr(a, m), n) == Shr(a, m + n)
    decreases m
  {
    if m > 0 { ShrAdd(a / 2, m - 1, n); }
  }

  lemma {:induction false} ShrOut(a: nat, n: nat)
    requires a < Pow2(n)
    ensures Shr(a, n) == 0
    decreases n
  {
    if n > 0 { ShrOut(a / 2, n - 1); }
  }

  /** A right shift by n is the division by 2^n. */
  lemma {:induction false} ShrDivides(a: nat, n: nat)
    ensures Shr(a, n) == a / Pow2(n)
    decreases n
  {
    if n > 0 {
      ShrDivides(a / 2, n - 1);
      HalveThenDivide(a, Pow2(n - 1));
    }
  }

  lemma HalveThenDivide(a: nat, p: nat)
    requires p > 0
    ensures a / (2 * p) == a / 2 / p
  {
    var q, r := a / 2 / p, (a / 2) % p;
    assert a / 2 == p * q + r;
    assert (2 * p) * q == 2 * (p * q);
    DivUnique(a, 2 * p, q, 2 * r + a % 2);
  }

  /** `(val >> s) | (val << (32 - s))`: the two halves share no bit, so `|` is `+`. */
  function Rotate32(val: Word, s: nat): Word
    requires s <= 32
  {
    Pow2Product(s);
    RotateBound(val, Pow2(s), Pow2(32 - s));
    val / Pow2(s) + (val % Pow2(s)) * Pow2(32 - s)
  }

  lemma {:induction false} Pow2Product(s: nat)
    requires s <= 32
    ensures Pow2(s) * Pow2(32 - s) == 0x1_0000_0000
  {
    if s == 0 {
      Pow2Of32();
    } else {
      Pow2Product(s - 1);
      assert Pow2(33 - s) == 2 * Pow2(32 - s);
      Reassociate(Pow2(s - 1), Pow2(32 - s));
    }
  }

  lemma Reassociate(a: nat, b: nat)
    ensures (2 * a) * b == a * (2 * b)
  {
  }

  lemma RotateBound(val: Word, p: nat, q: nat)
    requires p > 0 && q > 0 && p * q == 0x1_0000_0000
    ensures val / p < q
    ensures 0 <= val / p + (val % p) * q < 0x1_0000_0000
    ensures (val / p + (val % p) * q) / q == val % p
    ensures (val / p + (val % p) * q) % q == val / p
    ensures (val % p) + (val / p) * p == val
  {
    var hi, lo := val / p, val % p;
    assert val == p * hi + lo;
    LessFactor(p, hi, q);
    Below(q, p, lo, hi);
    DivUnique(hi + lo * q, q, lo, hi);
  }

  /** Rotating by s and then by 32 - s is the identity. */
  lemma RotateBack(val: Word, s: nat)
    requires s <= 32
    ensures Rotate32(Rotate32(val, s), 32 - s) == val
  {
    Pow2Product(s);
    var p, q := Pow2(s), Pow2(32 - s);
    RotateBound(val, p, q);
    var r := Rotate32(val, s);
    assert r == val / p + (val % p) * q;
    assert Rotate32(r, 32 - s) == r / q + (r % q) * Pow2(32 - (32 - s));
  }

  // ---------------------------------------------------------------------
  // Multiplication by an odd constant, and x ^ (x >> n)
  // ---------------------------------------------------------------------

  /** When c * d is 1 modulo 2^32, multiplying by d undoes multiplying by c. */
  lemma MulUndo(x: Word, c: nat, d: nat, k: nat)
    requires c * d == 0x1_0000_0000 * k + 1
    ensures Mul(Mul(x, c), d) == x
  {
    var q := x * c / 0x1_0000_0000;
    var y := Mul(x, c);
    assert x * c == 0x1_0000_0000 * q + y;
    assert y * d == 0x1_0000_0000 * (x * k - q * d) + x by { MulUndoTerms(x, c, d, k, q, y); }
    ModUnique(y * d, x * k - q * d, x);
  }

  lemma MulUndoTerms(x: int, c: int, d: int, k: int, q: int, y: int)
    requires c * d == 0x1_0000_0000 * k + 1
    requires x * c == 0x1_0000_0000 * q + y
    ensures y * d == 0x1_0000_0000 * (x * k - q * d) + x
  {
    calc {
      y * d;
      (x * c - 0x1_0000_0000 * q) * d;
      (x * c) * d - 0x1_0000_0000 * (q * d);
      x * (c * d) - 0x1_0000_0000 * (q * d);
      x * (0x1_0000_0000 * k + 1) - 0x1_0000_0000 * (q * d);
      0x1_0000_0000 * (x * k) + x - 0x1_0000_0000 * (q * d);
    }
  }

  lemma ModUnique(n: int, q: int, r: Word)
    requires n == 0x1_0000_0000 * q + r
    ensures n % 0x1_0000_0000 == r
  {
  }

  /** `h ^= h >> n`. */
  function XorShr(h: Word, n: nat): Word {
    Xor(h, Shr(h, n))
  }
}
