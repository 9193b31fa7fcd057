/** What the asset-identifier hash gives on particular texts, one for each length class, and two texts on which it is the
    same: each word operation as arithmetic on its digits, and then the numbers. */
module AssetHashValues {
  import opened Arithmetic
  import opened AssetHash
  import opened AssetHashTells
  import opened Words

  // ---------------------------------------------------------------------
  // The word operations in closed form
  // ---------------------------------------------------------------------

  /** Exclusive or of one bit. */
  function Xor1(x: nat, y: nat): nat { if x % 2 == y % 2 then 0 else 1 }

  /** The bits of a hexadecimal digit. */
  predicate Bit0(x: nat) { x == 1 || x == 3 || x == 5 || x == 7 || x == 9 || x == 11 || x == 13 || x == 15 }
  predicate Bit1(x: nat) { 2 <= x < 4 || 6 <= x < 8 || 10 <= x < 12 || 14 <= x }
  predicate Bit2(x: nat) { 4 <= x < 8 || 12 <= x }
  predicate Bit3(x: nat) { 8 <= x }

  /** Exclusive or of two digits. */
  function Xor4(x: nat, y: nat): nat {
    (if Bit0(x) != Bit0(y) then 1 else 0) + (if Bit1(x) != Bit1(y) then 2 else 0)
    + (if Bit2(x) != Bit2(y) then 4 else 0) + (if Bit3(x) != Bit3(y) then 8 else 0)
  }

  lemma DigitBits(x: nat)
    requires x < 16
    ensures x % 2 == (if Bit0(x) then 1 else 0) && x / 2 % 2 == (if Bit1(x) then 1 else 0)
    ensures x / 4 % 2 == (if Bit2(x) then 1 else 0) && x / 8 % 2 == (if Bit3(x) then 1 else 0)
  {
  }

  lemma XorBit(a: nat, b: nat)
    ensures XorNat(a, b) == 2 * XorNat(a / 2, b / 2) + Xor1(a, b)
  {
    XorStep(a, b);
  }

  /** Four bits more. */
  lemma XorNibble(a: nat, b: nat, x: nat, y: nat)
    requires x < 16 && y < 16
    ensures XorNat(16 * a + x, 16 * b + y) == 16 * XorNat(a, b) + Xor4(x, y)
  {
    hide XorNat, Xor1, Xor4;
    XorBit(16 * a + x, 16 * b + y);
    XorBit(8 * a + x / 2, 8 * b + y / 2);
    XorBit(4 * a + x / 4, 4 * b + y / 4);
    XorBit(2 * a + x / 8, 2 * b + y / 8);
    Halves(a, x);
    Halves(b, y);
    BitsOf(a, x, b, y);
    BitwiseDigit(x, y);
  }

  lemma BitwiseDigit(x: nat, y: nat)
    requires x < 16 && y < 16
    ensures Xor4(x, y) == Xor1(x, y) + 2 * Xor1(x / 2, y / 2) + 4 * Xor1(x / 4, y / 4) + 8 * Xor1(x / 8, y / 8)
  {
    hide Bit0, Bit1, Bit2, Bit3;
    DigitBits(x);
    DigitBits(y);
  }

  lemma Halves(a: nat, x: nat)
    requires x < 16
    ensures (16 * a + x) / 2 == 8 * a + x / 2 && (8 * a + x / 2) / 2 == 4 * a + x / 4
    ensures (4 * a + x / 4) / 2 == 2 * a + x / 8 && (2 * a + x / 8) / 2 == a
  {
  }

  lemma BitsOf(a: nat, x: nat, b: nat, y: nat)
    requires x < 16 && y < 16
    ensures Xor1(16 * a + x, 16 * b + y) == Xor1(x, y) && Xor1(8 * a + x / 2, 8 * b + y / 2) == Xor1(x / 2, y / 2)
    ensures Xor1(4 * a + x / 4, 4 * b + y / 4) == Xor1(x / 4, y / 4) && Xor1(2 * a + x / 8, 2 * b + y / 8) == Xor1(x / 8, y / 8)
  {
    Even(8 * a, x); Even(8 * b, y);
    Even(4 * a, x / 2); Even(4 * b, y / 2);
    Even(2 * a, x / 4); Even(2 * b, y / 4);
    Even(a, x / 8); Even(b, y / 8);
  }

  lemma Even(a: nat, x: nat)
    ensures (2 * a + x) % 2 == x % 2
  {
  }

  /** The word with these hexadecimal digits, the most significant first. */
  function Hex(d7: nat, d6: nat, d5: nat, d4: nat, d3: nat, d2: nat, d1: nat, d0: nat): nat {
    16 * (16 * (16 * (16 * (16 * (16 * (16 * d7 + d6) + d5) + d4) + d3) + d2) + d1) + d0
  }

  /** Digit by digit. */
  lemma XorIs(a: Word, b: Word, a7: nat, a6: nat, a5: nat, a4: nat, a3: nat, a2: nat, a1: nat, a0: nat,
              b7: nat, b6: nat, b5: nat, b4: nat, b3: nat, b2: nat, b1: nat, b0: nat)
    requires a7 < 16 && a6 < 16 && a5 < 16 && a4 < 16 && a3 < 16 && a2 < 16 && a1 < 16 && a0 < 16
    requires b7 < 16 && b6 < 16 && b5 < 16 && b4 < 16 && b3 < 16 && b2 < 16 && b1 < 16 && b0 < 16
    requires a == Hex(a7, a6, a5, a4, a3, a2, a1, a0) && b == Hex(b7, b6, b5, b4, b3, b2, b1, b0)
    ensures Xor(a, b) == Hex(Xor4(a7, b7), Xor4(a6, b6), Xor4(a5, b5), Xor4(a4, b4), Xor4(a3, b3), Xor4(a2, b2), Xor4(a1, b1), Xor4(a0, b0))
  {
    hide XorNat, Xor4;
    XorSelf(0);
    XorNibble(0, 0, a7, b7);
    var a', b' := a7, b7;
    XorNibble(a', b', a6, b6); a', b' := 16 * a' + a6, 16 * b' + b6;
    XorNibble(a', b', a5, b5); a', b' := 16 * a' + a5, 16 * b' + b5;
    XorNibble(a', b', a4, b4); a', b' := 16 * a' + a4, 16 * b' + b4;
    XorNibble(a', b', a3, b3); a', b' := 16 * a' + a3, 16 * b' + b3;
    XorNibble(a', b', a2, b2); a', b' := 16 * a' + a2, 16 * b' + b2;
    XorNibble(a', b', a1, b1); a', b' := 16 * a' + a1, 16 * b' + b1;
    XorNibble(a', b', a0, b0);
  }

  lemma Powers()
    ensures Pow2(8) == 0x100 && Pow2(11) == 0x800 && Pow2(13) == 0x2000 && Pow2(14) == 0x4000 && Pow2(15) == 0x8000
    ensures Pow2(16) == 0x1_0000 && Pow2(17) == 0x2_0000 && Pow2(18) == 0x4_0000 && Pow2(19) == 0x8_0000 && Pow2(21) == 0x20_0000
  {
    assert Pow2(8) == 0x100;
    assert Pow2(12) == 0x1000;
    assert Pow2(16) == 0x1_0000;
    assert Pow2(20) == 0x10_0000;
  }

  lemma RotateIs(x: Word)
    ensures Rotate32(x, 11) == x / 0x800 + x % 0x800 * 0x20_0000
    ensures Rotate32(x, 17) == x / 0x2_0000 + x % 0x2_0000 * 0x8000
    ensures Rotate32(x, 18) == x / 0x4_0000 + x % 0x4_0000 * 0x4000
    ensures Rotate32(x, 19) == x / 0x8_0000 + x % 0x8_0000 * 0x2000
  {
    hide Pow2;
    Powers();
  }

  lemma ShrIs(x: Word)
    ensures Shr(x, 13) == x / 0x2000 && Shr(x, 16) == x / 0x1_0000
  {
    hide Pow2, Shr;
    Powers();
    ShrDivides(x, 13);
    ShrDivides(x, 16);
  }

  /** The steps of `Scramble`: k and l count the wraps, hi and lo are the parts that the rotation exchanges. */
  lemma ScrambleIs(a: Word, k: nat, hi: nat, lo: nat, l: nat, s: Word)
    requires hi < 0x8000 && lo < 0x2_0000 && a * C1 == k * M + hi * 0x2_0000 + lo && (hi + lo * 0x8000) * C2 == l * M + s
    ensures Scramble(a) == s
  {
    hide Rotate32;
    var m := hi * 0x2_0000 + lo;
    ModUnique(a * C1, k, m);
    DivUnique(m, 0x2_0000, hi, lo);
    RotateIs(m);
    ModUnique((hi + lo * 0x8000) * C2, l, s);
  }

  lemma MixIs18(x: Word, hi: nat, lo: nat, k: nat, o: Word)
    requires x == hi * 0x4_0000 + lo && lo < 0x4_0000 && (hi + lo * 0x4000) * 5 + ADDEND == k * M + o
    ensures Mix(x, 18) == o
  {
    hide Rotate32;
    DivUnique(x, 0x4_0000, hi, lo);
    RotateIs(x);
    FiveAndAddend(hi + lo * 0x4000, k, o);
  }

  lemma MixIs19(x: Word, hi: nat, lo: nat, k: nat, o: Word)
    requires x == hi * 0x8_0000 + lo && lo < 0x8_0000 && (hi + lo * 0x2000) * 5 + ADDEND == k * M + o
    ensures Mix(x, 19) == o
  {
    hide Rotate32;
    DivUnique(x, 0x8_0000, hi, lo);
    RotateIs(x);
    FiveAndAddend(hi + lo * 0x2000, k, o);
  }

  lemma FiveAndAddend(q: nat, k: nat, o: Word)
    requires q * 5 + ADDEND == k * M + o
    ensures Add(Mul(q, 5), ADDEND) == o
  {
    var c := q * 5 / M;
    ModUnique(Mul(q, 5) + ADDEND, k - c, o);
  }

  lemma TurnIs11(x: Word, hi: nat, lo: nat, k: nat, o: Word)
    requires x == hi * 0x800 + lo && lo < 0x800 && (hi + lo * 0x20_0000) * C1 == k * M + o
    ensures Turn(x, 11) == o
  {
    hide Rotate32;
    DivUnique(x, 0x800, hi, lo);
    RotateIs(x);
    ModUnique((hi + lo * 0x20_0000) * C1, k, o);
  }

  lemma TurnIs17(x: Word, hi: nat, lo: nat, k: nat, o: Word)
    requires x == hi * 0x2_0000 + lo && lo < 0x2_0000 && (hi + lo * 0x8000) * C1 == k * M + o
    ensures Turn(x, 17) == o
  {
    hide Rotate32;
    DivUnique(x, 0x2_0000, hi, lo);
    RotateIs(x);
    ModUnique((hi + lo * 0x8000) * C1, k, o);
  }

  lemma TurnIs19(x: Word, hi: nat, lo: nat, k: nat, o: Word)
    requires x == hi * 0x8_0000 + lo && lo < 0x8_0000 && (hi + lo * 0x2000) * C1 == k * M + o
    ensures Turn(x, 19) == o
  {
    hide Rotate32;
    DivUnique(x, 0x8_0000, hi, lo);
    RotateIs(x);
    ModUnique((hi + lo * 0x2000) * C1, k, o);
  }

  /** A shift right that is exclusive-ored in, and then a multiplication. */
  lemma ShiftIs16(h: Word, hi: nat, lo: nat, x: Word)
    requires h == hi * 0x1_0000 + lo && lo < 0x1_0000 && Xor(h, hi) == x
    ensures XorShr(h, 16) == x
  {
    hide Xor, Shr;
    DivUnique(h, 0x1_0000, hi, lo);
    ShrIs(h);
  }

  lemma ShiftIs13(h: Word, hi: nat, lo: nat, x: Word)
    requires h == hi * 0x2000 + lo && lo < 0x2000 && Xor(h, hi) == x
    ensures XorShr(h, 13) == x
  {
    hide Xor, Shr;
    DivUnique(h, 0x2000, hi, lo);
    ShrIs(h);
  }

  lemma MulIs(a: Word, b: Word, k: nat, r: Word)
    requires a * b == k * M + r
    ensures Mul(a, b) == r
  {
    ModUnique(a * b, k, r);
  }

  lemma AddIs(a: Word, b: Word, k: nat, r: Word)
    requires a + b == k * M + r
    ensures Add(a, b) == r
  {
    ModUnique(a + b, k, r);
  }

  lemma SwapIs(x: Word, b3: Byte, b2: Byte, b1: Byte, b0: Byte)
    requires x == b3 * 0x100_0000 + b2 * 0x1_0000 + b1 * 0x100 + b0
    ensures Bswap32(x) == b0 * 0x100_0000 + b1 * 0x1_0000 + b2 * 0x100 + b3
  {
    DivUnique(x, 0x100_0000, b3, b2 * 0x1_0000 + b1 * 0x100 + b0);
    DivUnique(x, 0x1_0000, b3 * 0x100 + b2, b1 * 0x100 + b0);
    DivUnique(x, 0x100, b3 * 0x1_0000 + b2 * 0x100 + b1, b0);
  }

  /** One turn of the loop over at most four bytes. */
  lemma LoopIs(s: seq<Byte>, i: nat, b: Word, c: Word, k: int, b': Word, c': Word)
    requires i < |s| && ShortLoop(s, i) == (b, c)
    requires b * C1 + Signed(s[i]) == k * M + b' && Xor(c, b') == c'
    ensures ShortLoop(s, i + 1) == (b', c')
  {
    hide Xor;
    var q := b * C1 / M;
    ModUnique(Mul(b, C1) + Signed(s[i]), k - q, b');
  }

  lemma LoopStart(s: seq<Byte>)
    ensures ShortLoop(s, 0) == (0, 9)
  {
  }

  lemma TurnsF(f: Word, b: Block)
    ensures StepF(f, b) == Add(Turn(Add(f, b.w1), 19), Scramble(b.w0))
  {
    hide Scramble;
  }

  lemma RunTwo(st: AssetHash.State, b: Block, c: Block)
    ensures Run(st, [b, c]) == Step(Step(st, b), c)
  {
    hide Step;
    assert Run(st, []) == st;
    assert [b, c][..1] == [b] && [b][..0] == [];
  }

  lemma BlockInside(front: seq<Byte>, mid: seq<Byte>, back: seq<Byte>)
    requires |mid| == 20
    ensures BlockAt(front + mid + back, |front|) == BlockAt(mid, 0)
  {
  }

  lemma TwoBlocks(s: seq<Byte>)
    requires |s| >= 40
    ensures Blocks(s, 2) == [BlockAt(s, 0), BlockAt(s, 20)]
  {
    hide BlockAt;
    assert Blocks(s, 0) == [];
    assert Blocks(s, 1) == [BlockAt(s, 0)];
    assert [BlockAt(s, 0)] + [BlockAt(s, 20)] == [BlockAt(s, 0), BlockAt(s, 20)];
  }

  // ---------------------------------------------------------------------
  // Up to four bytes: "abc"
  // ---------------------------------------------------------------------

  lemma AbcXor1()
    ensures Xor(0x00000009, 0x00000061) == 0x00000068
  {
    hide Xor;
    XorIs(0x00000009, 0x00000061, 0, 0, 0, 0, 0, 0, 0, 9, 0, 0, 0, 0, 0, 0, 6, 1);
  }

  lemma AbcXor2()
    ensures Xor(0x00000068, 0x87ef2c13) == 0x87ef2c7b
  {
    hide Xor;
    XorIs(0x00000068, 0x87ef2c13, 0, 0, 0, 0, 0, 0, 6, 8, 8, 7, 14, 15, 2, 12, 1, 3);
  }

  lemma AbcXor3()
    ensures Xor(0x87ef2c7b, 0x65264966) == 0xe2c9651d
  {
    hide Xor;
    XorIs(0x87ef2c7b, 0x65264966, 8, 7, 14, 15, 2, 12, 7, 11, 6, 5, 2, 6, 4, 9, 6, 6);
  }

  lemma AbcLoop()
    ensures ShortLoop([97, 98, 99], 3) == (0x65264966, 0xe2c9651d)
  {
    hide Xor, ShortLoop;
    var s: seq<Byte> := [97, 98, 99];
    assert ShortLoop(s, 0) == (0, 9) by { LoopStart(s); }
    AbcXor1(); LoopIs(s, 0, 0x00000000, 0x00000009, 0, 0x00000061, 0x00000068); AbcXor2();
    LoopIs(s, 1, 0x00000061, 0x00000068, 77, 0x87ef2c13, 0x87ef2c7b); AbcXor3();
    LoopIs(s, 2, 0x87ef2c13, 0x87ef2c7b, 1822856396, 0x65264966, 0xe2c9651d);
  }

  lemma AbcMur4()
    ensures Mur(0x00000003, 0xe2c9651d) == 0x109b458d
  {
    hide Xor, Mix, Scramble;
    ScrambleIs(0x00000003, 0x00000002, 0x000032ed, 0x000087f3, 0x074f3cc6, 0x1467cf17);
    XorIs(0xe2c9651d, 0x1467cf17, 14, 2, 12, 9, 6, 5, 1, 13, 1, 4, 6, 7, 12, 15, 1, 7);
    MixIs19(0xf6aeaa0a, 0x00001ed5, 0x0006aa0a, 5, 0x109b458d);
  }

  lemma AbcMur5()
    ensures Mur(0x65264966, 0x109b458d) == 0x13884ed5
  {
    hide Xor, Mix, Scramble;
    ScrambleIs(0x65264966, 0x50d90206, 0x0000287c, 0x00002746, 0x021c946b, 0x7b75eb34);
    XorIs(0x109b458d, 0x7b75eb34, 1, 0, 9, 11, 4, 5, 8, 13, 7, 11, 7, 5, 14, 11, 3, 4);
    MixIs19(0x6beeaeb9, 0x00000d7d, 0x0006aeb9, 5, 0x13884ed5);
  }

  lemma AbcShift6()
    ensures XorShr(0x13884ed5, 16) == 0x13885d5d
  {
    hide Xor, XorShr;
    XorIs(0x13884ed5, 0x00001388, 1, 3, 8, 8, 4, 14, 13, 5, 0, 0, 0, 0, 1, 3, 8, 8);
    ShiftIs16(0x13884ed5, 0x00001388, 0x00004ed5, 0x13885d5d);
  }

  lemma AbcShift7()
    ensures XorShr(0xc90967df, 13) == 0xc90f2f94
  {
    hide Xor, XorShr;
    XorIs(0xc90967df, 0x0006484b, 12, 9, 0, 9, 6, 7, 13, 15, 0, 0, 0, 6, 4, 8, 4, 11);
    ShiftIs13(0xc90967df, 0x0006484b, 0x000007df, 0xc90f2f94);
  }

  lemma AbcShift8()
    ensures XorShr(0x2f6371a4, 16) == 0x2f635ec7
  {
    hide Xor, XorShr;
    XorIs(0x2f6371a4, 0x00002f63, 2, 15, 6, 3, 7, 1, 10, 4, 0, 0, 0, 0, 2, 15, 6, 3);
    ShiftIs16(0x2f6371a4, 0x00002f63, 0x000071a4, 0x2f635ec7);
  }

  lemma AbcFmix9()
    ensures Fmix(0x13884ed5) == 0x2f635ec7
  {
    hide Mul, XorShr;
    AbcShift6(); MulIs(0x13885d5d, 0x85ebca6b, 0x0a37d620, 0xc90967df); AbcShift7();
    MulIs(0xc90f2f94, 0xc2b2ae35, 0x98e9d76f, 0x2f6371a4); AbcShift8();
  }

  lemma AbcValue()
    ensures Hash0to4([97, 98, 99]) == 0x2f635ec7 && Hash([97, 98, 99]) == 0x17b1af63
  {
    hide Mur, Fmix, ShortLoop;
    AbcLoop();
    AbcMur4(); AbcMur5(); AbcFmix9();
  }

  // ---------------------------------------------------------------------
  // Two texts of four bytes with one hash
  // ---------------------------------------------------------------------

  lemma LeftXor1()
    ensures Xor(0x00000009, 0xffffffa3) == 0xffffffaa
  {
    hide Xor;
    XorIs(0x00000009, 0xffffffa3, 0, 0, 0, 0, 0, 0, 0, 9, 15, 15, 15, 15, 15, 15, 10, 3);
  }

  lemma LeftXor2()
    ensures Xor(0xffffffaa, 0xaa89896c) == 0x557676c6
  {
    hide Xor;
    XorIs(0xffffffaa, 0xaa89896c, 15, 15, 15, 15, 15, 15, 10, 10, 10, 10, 8, 9, 8, 9, 6, 12);
  }

  lemma LeftXor3()
    ensures Xor(0x557676c6, 0x035476fa) == 0x5622003c
  {
    hide Xor;
    XorIs(0x557676c6, 0x035476fa, 5, 5, 7, 6, 7, 6, 12, 6, 0, 3, 5, 4, 7, 6, 15, 10);
  }

  lemma LeftXor4()
    ensures Xor(0x5622003c, 0x8cef971c) == 0xdacd9720
  {
    hide Xor;
    XorIs(0x5622003c, 0x8cef971c, 5, 6, 2, 2, 0, 0, 3, 12, 8, 12, 14, 15, 9, 7, 1, 12);
  }

  lemma LeftLoop()
    ensures ShortLoop([163, 217, 206, 2], 4) == (0x8cef971c, 0xdacd9720)
  {
    hide Xor, ShortLoop;
    var s: seq<Byte> := [163, 217, 206, 2];
    assert ShortLoop(s, 0) == (0, 9) by { LoopStart(s); }
    LeftXor1(); LoopIs(s, 0, 0x00000000, 0x00000009, -1, 0xffffffa3, 0xffffffaa); LeftXor2();
    LoopIs(s, 1, 0xffffffa3, 0xffffffaa, 3432918278, 0xaa89896c, 0x557676c6); LeftXor3();
    LoopIs(s, 2, 0xaa89896c, 0x557676c6, 2286876821, 0x035476fa, 0x5622003c); LeftXor4();
    LoopIs(s, 3, 0x035476fa, 0x5622003c, 44653959, 0x8cef971c, 0xdacd9720);
  }

  lemma LeftMur5()
    ensures Mur(0x00000004, 0xdacd9720) == 0xb5497b47
  {
    hide Xor, Mix, Scramble;
    ScrambleIs(0x00000004, 0x00000003, 0x0000193c, 0x0000b544, 0x09bef71c, 0x3cf1e974);
    XorIs(0xdacd9720, 0x3cf1e974, 13, 10, 12, 13, 9, 7, 2, 0, 3, 12, 15, 1, 14, 9, 7, 4);
    MixIs19(0xe63c7e54, 0x00001cc7, 0x00047e54, 3, 0xb5497b47);
  }

  lemma LeftXor6()
    ensures Xor(0xb5497b47, 0x26090aa9) == 0x934071ee
  {
    hide Xor;
    XorIs(0xb5497b47, 0x26090aa9, 11, 5, 4, 9, 7, 11, 4, 7, 2, 6, 0, 9, 0, 10, 10, 9);
  }

  lemma RightXor1()
    ensures Xor(0x00000009, 0xffffffe4) == 0xffffffed
  {
    hide Xor;
    XorIs(0x00000009, 0xffffffe4, 0, 0, 0, 0, 0, 0, 0, 9, 15, 15, 15, 15, 15, 15, 14, 4);
  }

  lemma RightXor2()
    ensures Xor(0xffffffed, 0x9eb30afd) == 0x614cf510
  {
    hide Xor;
    XorIs(0xffffffed, 0x9eb30afd, 15, 15, 15, 15, 15, 15, 14, 13, 9, 14, 11, 3, 0, 10, 15, 13);
  }

  lemma RightXor3()
    ensures Xor(0x614cf510, 0x13baf2db) == 0x72f607cb
  {
    hide Xor;
    XorIs(0x614cf510, 0x13baf2db, 6, 1, 4, 12, 15, 5, 1, 0, 1, 3, 11, 10, 15, 2, 13, 11);
  }

  lemma RightXor4()
    ensures Xor(0x72f607cb, 0x8201564d) == 0xf0f75186
  {
    hide Xor;
    XorIs(0x72f607cb, 0x8201564d, 7, 2, 15, 6, 0, 7, 12, 11, 8, 2, 0, 1, 5, 6, 4, 13);
  }

  lemma RightLoop()
    ensures ShortLoop([228, 217, 206, 2], 4) == (0x8201564d, 0xf0f75186)
  {
    hide Xor, ShortLoop;
    var s: seq<Byte> := [228, 217, 206, 2];
    assert ShortLoop(s, 0) == (0, 9) by { LoopStart(s); }
    RightXor1(); LoopIs(s, 0, 0x00000000, 0x00000009, -1, 0xffffffe4, 0xffffffed); RightXor2();
    LoopIs(s, 1, 0xffffffe4, 0xffffffed, 3432918330, 0x9eb30afd, 0x614cf510); RightXor3();
    LoopIs(s, 2, 0x9eb30afd, 0x614cf510, 2128132954, 0x13baf2db, 0x72f607cb); RightXor4();
    LoopIs(s, 3, 0x13baf2db, 0x72f607cb, 264579686, 0x8201564d, 0xf0f75186);
  }

  lemma RightMur5()
    ensures Mur(0x00000004, 0xf0f75186) == 0x19ec2ae4
  {
    hide Xor, Mix, Scramble;
    ScrambleIs(0x00000004, 0x00000003, 0x0000193c, 0x0000b544, 0x09bef71c, 0x3cf1e974);
    XorIs(0xf0f75186, 0x3cf1e974, 15, 0, 15, 7, 5, 1, 8, 6, 3, 12, 15, 1, 14, 9, 7, 4);
    MixIs19(0xcc06b8f2, 0x00001980, 0x0006b8f2, 5, 0x19ec2ae4);
  }

  lemma RightXor6()
    ensures Xor(0x19ec2ae4, 0x8aac5b0a) == 0x934071ee
  {
    hide Xor;
    XorIs(0x19ec2ae4, 0x8aac5b0a, 1, 9, 14, 12, 2, 10, 14, 4, 8, 10, 10, 12, 5, 11, 0, 10);
  }

  lemma LeftWord()
    ensures Xor(Mur(4, 0xdacd9720), Scramble(0x8cef971c)) == 0x934071ee
  {
    hide Mur, Xor, Scramble;
    LeftMur5(); ScrambleIs(0x8cef971c, 0x70a6013c, 0x00002453, 0x0000bbdc, 0x0a19ba12, 0x26090aa9); LeftXor6();
  }

  lemma RightWord()
    ensures Xor(Mur(4, 0xf0f75186), Scramble(0x8201564d)) == 0x934071ee
  {
    hide Mur, Xor, Scramble;
    RightMur5(); ScrambleIs(0x8201564d, 0x67e9649b, 0x00007f0e, 0x0001d75d, 0x1957ef81, 0x8aac5b0a); RightXor6();
  }

  /** Two texts of four bytes that differ in the first one and have the same value. */
  lemma FirstByteLost()
    ensures Hash0to4([163, 217, 206, 2]) == Hash0to4([228, 217, 206, 2])
    ensures Hash([163, 217, 206, 2]) == Hash([228, 217, 206, 2])
  {
    hide Mur, Xor, Scramble, ShortLoop, Hash0to4;
    LeftLoop(); RightLoop();
    LeftWord(); RightWord();
    Hash0to4Exactly([163, 217, 206, 2], [228, 217, 206, 2]);
  }

  // ---------------------------------------------------------------------
  // 5 to 12 bytes: "publisher"
  // ---------------------------------------------------------------------

  lemma PublisherMur1()
    ensures Mur(0x6c627579, 0x0000002d) == 0x9c8f21f2
  {
    hide Xor, Mix, Scramble;
    ScrambleIs(0x6c627579, 0x56a16d90, 0x0000433d, 0x00017049, 0x13cd2283, 0xbdb2bd07);
    XorIs(0x0000002d, 0xbdb2bd07, 0, 0, 0, 0, 0, 0, 2, 13, 11, 13, 11, 2, 11, 13, 0, 7);
    MixIs19(0xbdb2bd2a, 0x000017b6, 0x0002bd2a, 2, 0x9c8f21f2);
  }

  lemma PublisherMur2()
    ensures Mur(0x726568a0, 0x9c8f21f2) == 0xeb09b6b1
  {
    hide Xor, Mix, Scramble;
    ScrambleIs(0x726568a0, 0x5b6f7e36, 0x00000c1d, 0x00003aa0, 0x0326ec9f, 0xd9c3f5a7);
    XorIs(0x9c8f21f2, 0xd9c3f5a7, 9, 12, 8, 15, 2, 1, 15, 2, 13, 9, 12, 3, 15, 5, 10, 7);
    MixIs19(0x454cd455, 0x000008a9, 0x0004d455, 3, 0xeb09b6b1);
  }

  lemma PublisherMur3()
    ensures Mur(0x65687372, 0xeb09b6b1) == 0xbc5eeeee
  {
    hide Xor, Mix, Scramble;
    ScrambleIs(0x65687372, 0x510de469, 0x00004559, 0x00019112, 0x159064ab, 0x871d3f1b);
    XorIs(0xeb09b6b1, 0x871d3f1b, 14, 11, 0, 9, 11, 6, 11, 1, 8, 7, 1, 13, 3, 15, 1, 11);
    MixIs19(0x6c1489aa, 0x00000d82, 0x000489aa, 3, 0xbc5eeeee);
  }

  lemma PublisherShift4()
    ensures XorShr(0xbc5eeeee, 16) == 0xbc5e52b0
  {
    hide Xor, XorShr;
    XorIs(0xbc5eeeee, 0x0000bc5e, 11, 12, 5, 14, 14, 14, 14, 14, 0, 0, 0, 0, 11, 12, 5, 14);
    ShiftIs16(0xbc5eeeee, 0x0000bc5e, 0x0000eeee, 0xbc5e52b0);
  }

  lemma PublisherShift5()
    ensures XorShr(0x803b6f90, 13) == 0x803f6e4b
  {
    hide Xor, XorShr;
    XorIs(0x803b6f90, 0x000401db, 8, 0, 3, 11, 6, 15, 9, 0, 0, 0, 0, 4, 0, 1, 13, 11);
    ShiftIs13(0x803b6f90, 0x000401db, 0x00000f90, 0x803f6e4b);
  }

  lemma PublisherShift6()
    ensures XorShr(0x303ecf87, 16) == 0x303effb9
  {
    hide Xor, XorShr;
    XorIs(0x303ecf87, 0x0000303e, 3, 0, 3, 14, 12, 15, 8, 7, 0, 0, 0, 0, 3, 0, 3, 14);
    ShiftIs16(0x303ecf87, 0x0000303e, 0x0000cf87, 0x303effb9);
  }

  lemma PublisherFmix7()
    ensures Fmix(0xbc5eeeee) == 0x303effb9
  {
    hide Mul, XorShr;
    PublisherShift4(); MulIs(0xbc5e52b0, 0x85ebca6b, 0x628a807c, 0x803b6f90); PublisherShift5();
    MulIs(0x803f6e4b, 0xc2b2ae35, 0x618994f5, 0x303ecf87); PublisherShift6();
  }

  lemma PublisherValue()
    ensures Hash5to12([112, 117, 98, 108, 105, 115, 104, 101, 114]) == 0x303effb9
    ensures Hash([112, 117, 98, 108, 105, 115, 104, 101, 114]) == 0x181f7fdc
  {
    hide Mur, Fmix;
    var s: seq<Byte> := [112, 117, 98, 108, 105, 115, 104, 101, 114];
    assert Load32(s, 0) == 0x6c627570 && Load32(s, 5) == 0x72656873 && Load32(s, 4) == 0x65687369;
    PublisherMur1(); PublisherMur2(); PublisherMur3(); PublisherFmix7();
  }

  // ---------------------------------------------------------------------
  // 13 to 24 bytes: "507f1f77bcf86cd799439011"
  // ---------------------------------------------------------------------

  lemma IdMur1()
    ensures Mur(0x38666362, 0x00000018) == 0xf74e1cd8
  {
    hide Xor, Mix, Scramble;
    ScrambleIs(0x38666362, 0x2d14705f, 0x0000232c, 0x0001ac02, 0x17032618, 0x4f234e44);
    XorIs(0x00000018, 0x4f234e44, 0, 0, 0, 0, 0, 0, 1, 8, 4, 15, 2, 3, 4, 14, 4, 4);
    MixIs19(0x4f234e5c, 0x000009e4, 0x00034e5c, 2, 0xf74e1cd8);
  }

  lemma IdMur2()
    ensures Mur(0x37376631, 0xf74e1cd8) == 0xbc3c2703
  {
    hide Xor, Mix, Scramble;
    ScrambleIs(0x37376631, 0x2c224366, 0x000029dd, 0x0001f281, 0x1acd772d, 0x65d74ae7);
    XorIs(0xf74e1cd8, 0x65d74ae7, 15, 7, 4, 14, 1, 12, 13, 8, 6, 5, 13, 7, 4, 10, 14, 7);
    MixIs19(0x9299563f, 0x00001253, 0x0001563f, 1, 0xbc3c2703);
  }

  lemma IdMur3()
    ensures Mur(0x33343939, 0xbc3c2703) == 0x1782e7f1
  {
    hide Xor, Mix, Scramble;
    ScrambleIs(0x33343939, 0x28ed40e5, 0x00000f61, 0x00012009, 0x0f7c8baa, 0x7b7469b3);
    XorIs(0xbc3c2703, 0x7b7469b3, 11, 12, 3, 12, 2, 7, 0, 3, 7, 11, 7, 4, 6, 9, 11, 3);
    MixIs19(0xc7484eb0, 0x000018e9, 0x00004eb0, 1, 0x1782e7f1);
  }

  lemma IdMur4()
    ensures Mur(0x37646336, 0x1782e7f1) == 0x18d9d176
  {
    hide Xor, Mix, Scramble;
    ScrambleIs(0x37646336, 0x2c4638d2, 0x000037c3, 0x0001e216, 0x19eb7e3d, 0xb4d163f9);
    XorIs(0x1782e7f1, 0xb4d163f9, 1, 7, 8, 2, 14, 7, 15, 1, 11, 4, 13, 1, 6, 3, 15, 9);
    MixIs19(0xa3538408, 0x0000146a, 0x00038408, 3, 0x18d9d176);
  }

  lemma IdMur5()
    ensures Mur(0x66373035, 0x18d9d176) == 0x6321027c
  {
    hide Xor, Mix, Scramble;
    ScrambleIs(0x66373035, 0x51b32292, 0x000003d2, 0x000191c5, 0x1599fd64, 0xe91a2b96);
    XorIs(0x18d9d176, 0xe91a2b96, 1, 8, 13, 9, 13, 1, 7, 6, 14, 9, 1, 10, 2, 11, 9, 6);
    MixIs19(0xf1c3fae0, 0x00001e38, 0x0003fae0, 3, 0x6321027c);
  }

  lemma IdMur6()
    ensures Mur(0x31313039, 0x6321027c) == 0x0e85f836
  {
    hide Xor, Mix, Scramble;
    ScrambleIs(0x31313039, 0x2751977e, 0x0000329c, 0x00004709, 0x03d1c13f, 0x8270db94);
    XorIs(0x6321027c, 0x8270db94, 6, 3, 2, 1, 0, 2, 7, 12, 8, 2, 7, 0, 13, 11, 9, 4);
    MixIs19(0xe151d9e8, 0x00001c2a, 0x0001d9e8, 2, 0x0e85f836);
  }

  lemma IdShift7()
    ensures XorShr(0x0e85f836, 16) == 0x0e85f6b3
  {
    hide Xor, XorShr;
    XorIs(0x0e85f836, 0x00000e85, 0, 14, 8, 5, 15, 8, 3, 6, 0, 0, 0, 0, 0, 14, 8, 5);
    ShiftIs16(0x0e85f836, 0x00000e85, 0x0000f836, 0x0e85f6b3);
  }

  lemma IdShift8()
    ensures XorShr(0x3bf85ad1, 13) == 0x3bf98513
  {
    hide Xor, XorShr;
    XorIs(0x3bf85ad1, 0x0001dfc2, 3, 11, 15, 8, 5, 10, 13, 1, 0, 0, 0, 1, 13, 15, 12, 2);
    ShiftIs13(0x3bf85ad1, 0x0001dfc2, 0x00001ad1, 0x3bf98513);
  }

  lemma IdShift9()
    ensures XorShr(0xf05176ef, 16) == 0xf05186be
  {
    hide Xor, XorShr;
    XorIs(0xf05176ef, 0x0000f051, 15, 0, 5, 1, 7, 6, 14, 15, 0, 0, 0, 0, 15, 0, 5, 1);
    ShiftIs16(0xf05176ef, 0x0000f051, 0x000076ef, 0xf05186be);
  }

  lemma IdFmix10()
    ensures Fmix(0x0e85f836) == 0xf05186be
  {
    hide Mul, XorShr;
    IdShift7(); MulIs(0x0e85f6b3, 0x85ebca6b, 0x0798f9a0, 0x3bf85ad1); IdShift8();
    MulIs(0x3bf98513, 0xc2b2ae35, 0x2d9cf326, 0xf05176ef); IdShift9();
  }

  const Id24: seq<Byte> := [53, 48, 55, 102, 49, 102, 55, 55, 98, 99, 102, 56, 54, 99, 100, 55, 57, 57, 52, 51, 57, 48, 49, 49]

  lemma IdWords()
    ensures Words13to24(Id24) == [0x38666362, 0x37376631, 0x33343939, 0x37646336, 0x66373035, 0x31313039]
  {
  }

  lemma IdChain()
    ensures MurAll([0x38666362, 0x37376631, 0x33343939, 0x37646336, 0x66373035, 0x31313039], 24) == 0x0e85f836
  {
    hide Mur, MurAll;
    var ws: seq<Word> := [0x38666362, 0x37376631, 0x33343939, 0x37646336, 0x66373035, 0x31313039];
    var h := MurThree(ws[0], ws[1], ws[2], ws[3..], 24);
    assert ws == [ws[0], ws[1], ws[2]] + ws[3..] && ws[3..] == [ws[3], ws[4], ws[5]] + [];
    var r := MurThree(ws[3], ws[4], ws[5], [], h);
    assert MurAll([], r) == r by { MurNone(r); }
    IdMur1(); IdMur2(); IdMur3(); IdMur4(); IdMur5(); IdMur6();
  }

  lemma IdValue()
    ensures Hash13to24(Id24) == 0xf05186be && Hash(Id24) == 0x7828c35f
  {
    hide Words13to24, Hash13to24, MurAll, Fmix;
    Chain13to24(Id24);
    IdWords(); IdChain();
    IdFmix10();
  }

  // ---------------------------------------------------------------------
  // Beyond 24 bytes: "The quick brown fox jumps over the lazy dog"
  // ---------------------------------------------------------------------

  lemma PangramXor1()
    ensures Xor(0x5e919c9b, 0x2918f140) == 0x77896ddb
  {
    hide Xor;
    XorIs(0x5e919c9b, 0x2918f140, 5, 14, 9, 1, 9, 12, 9, 11, 2, 9, 1, 8, 15, 1, 4, 0);
  }

  lemma PangramXor2()
    ensures Xor(0xcafd9619, 0x50159c5f) == 0x9ae80a46
  {
    hide Xor;
    XorIs(0xcafd9619, 0x50159c5f, 12, 10, 15, 13, 9, 6, 1, 9, 5, 0, 1, 5, 9, 12, 5, 15);
  }

  lemma PangramXor3()
    ensures Xor(0x0000002b, 0x95711ea4) == 0x95711e8f
  {
    hide Xor;
    XorIs(0x0000002b, 0x95711ea4, 0, 0, 0, 0, 0, 0, 2, 11, 9, 5, 7, 1, 1, 14, 10, 4);
  }

  lemma PangramXor4()
    ensures Xor(0x996e28ca, 0xd1e38897) == 0x488da05d
  {
    hide Xor;
    XorIs(0x996e28ca, 0xd1e38897, 9, 9, 6, 14, 2, 8, 12, 10, 13, 1, 14, 3, 8, 8, 9, 7);
  }

  lemma PangramXor5()
    ensures Xor(0x6f9dfb5f, 0x20786f66) == 0x4fe59439
  {
    hide Xor;
    XorIs(0x6f9dfb5f, 0x20786f66, 6, 15, 9, 13, 15, 11, 5, 15, 2, 0, 7, 8, 6, 15, 6, 6);
  }

  lemma PangramXor6()
    ensures Xor(0x6a8eb8b9, 0xb0ba3006) == 0xda3488bf
  {
    hide Xor;
    XorIs(0x6a8eb8b9, 0xb0ba3006, 6, 10, 8, 14, 11, 8, 11, 9, 11, 0, 11, 10, 3, 0, 0, 6);
  }

  lemma PangramXor7()
    ensures Xor(0x91443c25, 0x048c1cbf) == 0x95c8209a
  {
    hide Xor;
    XorIs(0x91443c25, 0x048c1cbf, 9, 1, 4, 4, 3, 12, 2, 5, 0, 4, 8, 12, 1, 12, 11, 15);
  }

  lemma PangramXor8()
    ensures Xor(0x73f30d68, 0x20797a61) == 0x538a7709
  {
    hide Xor;
    XorIs(0x73f30d68, 0x20797a61, 7, 3, 15, 3, 0, 13, 6, 8, 2, 0, 7, 9, 7, 10, 6, 1);
  }

  lemma PangramXor9()
    ensures Xor(0x0b524a95, 0xc395c108) == 0xc8c78b9d
  {
    hide Xor;
    XorIs(0x0b524a95, 0xc395c108, 0, 11, 5, 2, 4, 10, 9, 5, 12, 3, 9, 5, 12, 1, 0, 8);
  }

  lemma PangramXor10()
    ensures Xor(0x54d9a659, 0xcfcf0566) == 0x9b16a33f
  {
    hide Xor;
    XorIs(0x54d9a659, 0xcfcf0566, 5, 4, 13, 9, 10, 6, 5, 9, 12, 15, 12, 15, 0, 5, 6, 6);
  }

  const Pangram1: seq<Byte> := [84, 104, 101, 32, 113, 117, 105, 99, 107, 32, 98, 114, 111, 119, 110, 32, 102, 111, 120, 32]
  const Pangram2: seq<Byte> := [106, 117, 109, 112, 115, 32, 111, 118, 101, 114, 32, 116, 104, 101, 32, 108, 97, 122, 121, 32]
  const Pangram3: seq<Byte> := [100, 111, 103]

  const Pangram43: seq<Byte> := Pangram1 + Pangram2 + Pangram3

  const FIRST: Block := Block(0x20656854, 0x63697571, 0x7262206b, 0x206e776f, 0x20786f66)
  const SECOND: Block := Block(0x706d756a, 0x766f2073, 0x74207265, 0x6c206568, 0x20797a61)

  lemma PangramTail()
    ensures TailWords(Pangram43) == [0x6f207370, 0x20726576, 0x20656874, 0x797a616c, 0x676f6420]
  {
  }

  lemma PangramSeedG()
    ensures TwoMixed(0x5e919c9b, 0x797a616c, 0x20656874) == 0xecc08c35
  {
    hide Mix, Xor, Scramble;
    ScrambleIs(0x797a616c, 0x611894ab, 0x000011c0, 0x0000cf2c, 0x0b2389b0, 0x2918f140); PangramXor1();
    MixIs19(0x77896ddb, 0x00000ef1, 0x00016ddb, 1, 0xcafd9619);
    ScrambleIs(0x20656874, 0x19e4d38e, 0x00007d85, 0x000070b4, 0x060f4ec0, 0x50159c5f); PangramXor2();
    MixIs19(0x9ae80a46, 0x0000135d, 0x00000a46, 0, 0xecc08c35);
  }

  lemma PangramSeedH()
    ensures TwoMixed(43, 0x676f6420, 0x20726576) == 0x6a8eb8b9
  {
    hide Mix, Xor, Scramble;
    ScrambleIs(0x676f6420, 0x52acacd8, 0x00004d4c, 0x00004e20, 0x043359ec, 0x95711ea4); PangramXor3();
    MixIs19(0x95711e8f, 0x000012ae, 0x00011e8f, 1, 0x996e28ca);
    ScrambleIs(0x20726576, 0x19ef3533, 0x0000036d, 0x0001d856, 0x19654577, 0xd1e38897); PangramXor4();
    MixIs19(0x488da05d, 0x00000911, 0x0005a05d, 4, 0x6a8eb8b9);
  }

  lemma PangramSeed()
    ensures Seeded(Pangram43) == AssetHash.State(0x2b8ee251, 0xecc08c35, 0x6a8eb8b9)
  {
    hide Add, Mul, Mix, Xor, Scramble, TwoMixed, TailWords, Seeded;
    SeedWords(Pangram43);
    MulIs(C1, 43, 0x00000022, 0x5e919c9b);
    PangramTail(); PangramSeedG(); PangramSeedH();
    ScrambleIs(0x6f207370, 0x58d285b0, 0x00002e57, 0x00013670, 0x10b0e7ff, 0x5fbb9ef5);
    AddIs(0x5e919c9b, 0x5fbb9ef5, 0, 0xbe4d3b90); MixIs19(0xbe4d3b90, 0x000017c9, 0x00053b90, 4, 0x2b8ee251);
  }

  lemma PangramBlock1()
    ensures BlockAt(Pangram1, 0) == FIRST
  {
  }

  lemma PangramBlock2()
    ensures BlockAt(Pangram2, 0) == SECOND
  {
  }

  lemma PangramBlocks()
    ensures Blocks(Pangram43, 2) == [FIRST, SECOND]
  {
    BlockInside([], Pangram1, Pangram2 + Pangram3);
    BlockInside(Pangram1, Pangram2, Pangram3);
    assert [] + Pangram1 + (Pangram2 + Pangram3) == Pangram43;
    assert BlockAt(Pangram1, 0) == FIRST && BlockAt(Pangram2, 0) == SECOND by { PangramBlock1(); PangramBlock2(); }
    TwoBlocks(Pangram43);
  }

  lemma FirstStepF()
    ensures StepF(0x2b8ee251, FIRST) == 0x0b524a95
  {
    hide Add, Turn, Scramble;
    TurnsF(0x2b8ee251, FIRST);
    ScrambleIs(0x20656854, 0x19e4d375, 0x000033a2, 0x0000c694, 0x0aad445a, 0xb0ba3006);
    AddIs(0x2b8ee251, 0x63697571, 0, 0x8ef857c2); TurnIs19(0x8ef857c2, 0x000011df, 0x000057c2, 0x08c4a871, 0x5a981a8f);
    AddIs(0x5a981a8f, 0xb0ba3006, 1, 0x0b524a95);
  }

  lemma FirstStepG()
    ensures StepG(0xecc08c35, FIRST) == 0x1fe87a8b
  {
    hide Add, Mul, Mix, Xor, Scramble, Bswap32;
    ScrambleIs(0x7262206b, 0x5b6cdea4, 0x00005b64, 0x000110db, 0x0eaba49f, 0x533cae6c);
    AddIs(0xecc08c35, 0x533cae6c, 1, 0x3ffd3aa1); MixIs18(0x3ffd3aa1, 0x00000fff, 0x00013aa1, 2, 0x6f9dfb5f); PangramXor5();
    SwapIs(0x4fe59439, 79, 229, 148, 57); MulIs(0x3994e54f, 0x00000005, 0x00000001, 0x1fe87a8b);
  }

  lemma FirstStepH()
    ensures StepH(0x6a8eb8b9, FIRST) == 0xff350f9d
  {
    hide Add, Mul, Mix, Xor, Scramble, Bswap32;
    ScrambleIs(0x20656854, 0x19e4d375, 0x000033a2, 0x0000c694, 0x0aad445a, 0xb0ba3006); PangramXor6();
    MixIs18(0xda3488bf, 0x0000368d, 0x000088bf, 1, 0x91443c25);
    ScrambleIs(0x206e776f, 0x19ec1117, 0x00006c3a, 0x00004d1f, 0x04258be1, 0xa122a74e);
    AddIs(0xa122a74e, 0x63697571, 1, 0x048c1cbf); PangramXor7(); MixIs19(0x95c8209a, 0x000012b9, 0x0000209a, 0, 0xfab50901);
    MulIs(0x20786f66, 0x00000005, 0x00000000, 0xa25a2cfe); AddIs(0xfab50901, 0xa25a2cfe, 1, 0x9d0f35ff);
    SwapIs(0x9d0f35ff, 157, 15, 53, 255);
  }

  lemma FirstStep()
    ensures Step(AssetHash.State(0x2b8ee251, 0xecc08c35, 0x6a8eb8b9), FIRST) == AssetHash.State(0x1fe87a8b, 0xff350f9d, 0x0b524a95)
  {
    hide StepF, StepG, StepH;
    FirstStepF(); FirstStepG(); FirstStepH();
  }

  lemma SecondStepF()
    ensures StepF(0x1fe87a8b, SECOND) == 0xada0f4f2
  {
    hide Add, Turn, Scramble;
    TurnsF(0x1fe87a8b, SECOND);
    ScrambleIs(0x706d756a, 0x59dcb105, 0x00005fd8, 0x0001c88a, 0x188be176, 0xc395c108);
    AddIs(0x1fe87a8b, 0x766f2073, 0, 0x96579afe); TurnIs19(0x96579afe, 0x000012ca, 0x00079afe, 0xc286bc31, 0xea0b33ea);
    AddIs(0xea0b33ea, 0xc395c108, 1, 0xada0f4f2);
  }

  lemma SecondStepG()
    ensures StepG(0xff350f9d, SECOND) == 0x2f55b39f
  {
    hide Add, Mul, Mix, Xor, Scramble, Bswap32;
    ScrambleIs(0x74207265, 0x5cd19bbd, 0x0000445a, 0x0001f2f5, 0x1ad3b6a8, 0xb59b61ae);
    AddIs(0xff350f9d, 0xb59b61ae, 1, 0xb4d0714b); MixIs18(0xb4d0714b, 0x00002d34, 0x0000714b, 1, 0x73f30d68); PangramXor8();
    SwapIs(0x538a7709, 83, 138, 119, 9); MulIs(0x09778a53, 0x00000005, 0x00000000, 0x2f55b39f);
  }

  lemma SecondStepH()
    ensures StepH(0x0b524a95, SECOND) == 0x3390bbae
  {
    hide Add, Mul, Mix, Xor, Scramble, Bswap32;
    ScrambleIs(0x706d756a, 0x59dcb105, 0x00005fd8, 0x0001c88a, 0x188be176, 0xc395c108); PangramXor9();
    MixIs18(0xc8c78b9d, 0x00003231, 0x00038b9d, 5, 0x54d9a659);
    ScrambleIs(0x6c206568, 0x566c9ff1, 0x00002f21, 0x00015de8, 0x12d0285a, 0x595fe4f3);
    AddIs(0x595fe4f3, 0x766f2073, 0, 0xcfcf0566); PangramXor10(); MixIs19(0x9b16a33f, 0x00001362, 0x0006a33f, 5, 0x0c5c2c4e);
    MulIs(0x20797a61, 0x00000005, 0x00000000, 0xa25f63e5); AddIs(0x0c5c2c4e, 0xa25f63e5, 0, 0xaebb9033);
    SwapIs(0xaebb9033, 174, 187, 144, 51);
  }

  lemma SecondStep()
    ensures Step(AssetHash.State(0x1fe87a8b, 0xff350f9d, 0x0b524a95), SECOND) == AssetHash.State(0x2f55b39f, 0x3390bbae, 0xada0f4f2)
  {
    hide StepF, StepG, StepH;
    SecondStepF(); SecondStepG(); SecondStepH();
  }

  lemma PangramFinish()
    ensures Finish(AssetHash.State(0x2f55b39f, 0x3390bbae, 0xada0f4f2)) == 0xa339c810
  {
    hide Add, Mix, Turn;
    TurnIs11(0x3390bbae, 0x00067217, 0x000003ae, 0x5e22e83d, 0xe40a2447);
    TurnIs17(0xe40a2447, 0x00007205, 0x00002447, 0x0e7fda41, 0x6a007495);
    TurnIs11(0x2f55b39f, 0x0005eab6, 0x0000039f, 0x5ca2d373, 0xfa554196);
    TurnIs17(0xfa554196, 0x00007d2a, 0x00014196, 0x808581cb, 0x5d4efc4a); AddIs(0xada0f4f2, 0x6a007495, 1, 0x17a16987);
    MixIs19(0x17a16987, 0x000002f4, 0x00016987, 1, 0xc848da28);
    TurnIs17(0xc848da28, 0x00006424, 0x0000da28, 0x572fa5b1, 0x97460364); AddIs(0x97460364, 0x5d4efc4a, 0, 0xf494ffae);
    MixIs19(0xf494ffae, 0x00001e92, 0x0004ffae, 4, 0x0621c43e);
    TurnIs17(0x0621c43e, 0x00000310, 0x0001c43e, 0xb4bc6d9b, 0xa339c810);
  }

  lemma PangramValue()
    ensures Hash(Pangram43) == 0x519ce408
  {
    hide Seeded, Blocks, Step, Finish;
    PangramSeed(); PangramBlocks();
    FirstStep(); SecondStep();
    PangramFinish();
    RunTwo(Seeded(Pangram43), FIRST, SECOND);
  }
}
