/** The 32-bit asset-identifier hash of Library/src/AssetHash.cpp: a length-classed hash
    over four-byte fetches, with a block loop that carries a three-word state (f, g, h). */
module AssetHash {
  import opened Arithmetic
  import opened Words

  type Byte = x: int | 0 <= x < 256

  const C1: Word := 0xcc9e2d51
  const C2: Word := 0x1b873593
  const ADDEND: Word := 0xe6546b64

  // The multipliers are odd, so each has an inverse modulo 2^32.
  const C1_INVERSE: Word := 0xdee13bb1
  const C2_INVERSE: Word := 0x56ed309b
  const FIVE_INVERSE: Word := 0xcccccccd

  // ---------------------------------------------------------------------
  // The word functions
  // ---------------------------------------------------------------------

  /** `Rotate32(a * c1, 17) * c2`, the scrambling of a fetched word. */
  function Scramble(a: Word): Word {
    Mul(Rotate32(Mul(a, C1), 17), C2)
  }

  function Subtract(a: Word, b: Word): Word {
    Add(a, -(b as int))
  }

  function Unscramble(r: Word): Word {
    Mul(Rotate32(Mul(r, C2_INVERSE), 15), C1_INVERSE)
  }

  /** `x = Rotate32(x, s); x = x * 5 + 0xe6546b64`. */
  function Mix(x: Word, s: nat): Word
    requires s <= 32
  {
    Add(Mul(Rotate32(x, s), 5), ADDEND)
  }

  function Unmix(r: Word, s: nat): Word
    requires s <= 32
  {
    Rotate32(Mul(Subtract(r, ADDEND), FIVE_INVERSE), 32 - s)
  }

  function Mur(a: Word, h: Word): Word {
    Mix(Xor(h, Scramble(a)), 19)
  }

  function Fmix(h: Word): Word {
    XorShr(Mul(XorShr(Mul(XorShr(h, 16), 0x85ebca6b), 13), 0xc2b2ae35), 16)
  }

  /** `h ^ (h >> 13) ^ (h >> 26)`, which undoes `h ^ (h >> 13)`. */
  function UnXorShr13(h: Word): Word {
    Xor(XorShr(h, 13), Shr(h, 26))
  }

  function UnFmix(r: Word): Word {
    XorShr(Mul(UnXorShr13(Mul(XorShr(r, 16), 0x7ed1b41d)), 0xa5cb9243), 16)
  }

  /** Byte reversal: the four masked shifts of the `bswap_32` macro add up without carries. */
  function Bswap32(x: Word): Word {
    x / 0x100_0000 + (x / 0x1_0000 % 0x100) * 0x100 + (x / 0x100 % 0x100) * 0x1_0000 + (x % 0x100) * 0x100_0000
  }

  // ---------------------------------------------------------------------
  // Each word function is reversible, in both directions
  // ---------------------------------------------------------------------

  lemma AddUndo(a: Word, b: int)
    ensures Add(Add(a, b), -b) == a
  {
    var q := (a + b) / 0x1_0000_0000;
    assert a + b == 0x1_0000_0000 * q + Add(a, b);
    ModUnique(Add(a, b) - b, -q, a);
  }

  lemma SubtractUndo(a: Word, b: Word)
    ensures Subtract(Add(a, b), b) == a
    ensures Add(Subtract(a, b), b) == a
  {
    AddUndo(a, b);
    AddUndo(a, -(b as int));
  }

  lemma MulC1Undo(x: Word)
    ensures Mul(Mul(x, C1), C1_INVERSE) == x && Mul(Mul(x, C1_INVERSE), C1) == x
  {
    MulUndo(x, C1, C1_INVERSE, 0xb2253208);
    MulUndo(x, C1_INVERSE, C1, 0xb2253208);
  }

  lemma MulC2Undo(x: Word)
    ensures Mul(Mul(x, C2), C2_INVERSE) == x && Mul(Mul(x, C2_INVERSE), C2) == x
  {
    MulUndo(x, C2, C2_INVERSE, 0x958ed66);
    MulUndo(x, C2_INVERSE, C2, 0x958ed66);
  }

  lemma Mul5Undo(x: Word)
    ensures Mul(Mul(x, 5), FIVE_INVERSE) == x && Mul(Mul(x, FIVE_INVERSE), 5) == x
  {
    MulUndo(x, 5, FIVE_INVERSE, 4);
    MulUndo(x, FIVE_INVERSE, 5, 4);
  }

  lemma ScrambleUndo(a: Word)
    ensures Unscramble(Scramble(a)) == a && Scramble(Unscramble(a)) == a
  {
    var m := Mul(a, C1);
    MulC1Undo(a); RotateBack(m, 17); MulC2Undo(Rotate32(m, 17));
    var n := Mul(a, C2_INVERSE);
    MulC2Undo(a); RotateBack(n, 15); MulC1Undo(Rotate32(n, 15));
  }

  lemma MixUndo(x: Word, s: nat)
    requires s <= 32
    ensures Unmix(Mix(x, s), s) == x
  {
    hide Add, Subtract, Mul, Rotate32;
    var r := Rotate32(x, s);
    SubtractUndo(Mul(r, 5), ADDEND);
    Mul5Undo(r);
    RotateBack(x, s);
  }

  lemma UnmixUndo(x: Word, s: nat)
    requires s <= 32
    ensures Mix(Unmix(x, s), s) == x
  {
    hide Add, Subtract, Mul, Rotate32;
    var d := Subtract(x, ADDEND);
    RotateBack(Mul(d, FIVE_INVERSE), 32 - s);
    Mul5Undo(d);
    SubtractUndo(x, ADDEND);
  }

  lemma BswapUndo(x: Word)
    ensures Bswap32(Bswap32(x)) == x
  {
    var hi, lo := x / 0x1_0000, x % 0x1_0000;
    var y := Bswap32(x);
    SplitHalf(x);
    SwapHalf(hi); SwapHalf(lo);
    DivUnique(y, 0x1_0000, SwapBytes(lo), SwapBytes(hi));
    SplitHalf(y);
  }

  function SwapBytes(v: nat): nat
    requires v < 0x1_0000
  {
    v / 0x100 + (v % 0x100) * 0x100
  }

  lemma SwapHalf(v: nat)
    requires v < 0x1_0000
    ensures SwapBytes(v) < 0x1_0000 && SwapBytes(SwapBytes(v)) == v
  {
    var hi, lo := v / 0x100, v % 0x100;
    DivUnique(hi + lo * 0x100, 0x100, lo, hi);
  }

  /** Reversing four bytes swaps the halves and reverses each. */
  lemma SplitHalf(x: Word)
    ensures Bswap32(x) == SwapBytes(x % 0x1_0000) * 0x1_0000 + SwapBytes(x / 0x1_0000)
  {
    var hi, lo := x / 0x1_0000, x % 0x1_0000;
    assert x / 0x100_0000 == hi / 0x100;
    assert x / 0x100 % 0x100 == lo / 0x100;
    assert x % 0x100 == lo % 0x100;
  }

  lemma XorShr16Undo(h: Word)
    ensures XorShr(XorShr(h, 16), 16) == h
  {
    XorShift(h, Shr(h, 16), 16);
    ShrAdd(h, 16, 16);
    Pow2Of32(); ShrOut(h, 32);
    XorUndo(h, Shr(h, 16));
  }

  lemma XorShr13Undo(h: Word)
    ensures UnXorShr13(XorShr(h, 13)) == h && XorShr(UnXorShr13(h), 13) == h
  {
    var h13, h26, h39 := Shr(h, 13), Shr(h, 26), Shr(h, 39);
    ShrAdd(h, 13, 13); ShrAdd(h, 13, 26); ShrAdd(h, 26, 13); ShrAdd(h, 32, 7);
    Pow2Of32(); ShrOut(h, 32); ShrOut(0, 7);
    XorShift(h, h13, 13); XorShift(h, h13, 26);
    Cancel(h, h13, h26);
    XorShift(Xor(h, h13), h26, 13);
    Cancel(h, h13, h26);
  }

  /** ((a ^ b) ^ (b ^ c)) ^ c = a, and ((a ^ b) ^ c) ^ (b ^ c) = a. */
  lemma Cancel(a: Word, b: Word, c: Word)
    ensures Xor(Xor(Xor(a, b), Xor(b, c)), c) == a
    ensures Xor(Xor(Xor(a, b), c), Xor(b, c)) == a
  {
    XorAssoc(a, b, Xor(b, c)); XorAssoc(b, b, c); XorSelf(b);
    XorUndo(a, c);
    XorAssoc(Xor(a, b), c, Xor(b, c)); XorCommutes(b, c); XorAssoc(c, c, b); XorSelf(c);
    XorUndo(a, b);
  }

  /** `fmix` is a bijection of the 32-bit words, with `UnFmix` as its inverse. */
  lemma FmixBijective(h: Word)
    ensures UnFmix(Fmix(h)) == h && Fmix(UnFmix(h)) == h
  {
    var x1 := XorShr(h, 16);
    var x2 := Mul(x1, 0x85ebca6b);
    var x3 := XorShr(x2, 13);
    var x4 := Mul(x3, 0xc2b2ae35);
    XorShr16Undo(x4); MulUndo(x3, 0xc2b2ae35, 0x7ed1b41d, 0x60736e9a);
    XorShr13Undo(x2); MulUndo(x1, 0x85ebca6b, 0xa5cb9243, 0x56bb77f4); XorShr16Undo(h);
    var y1 := XorShr(h, 16);
    var y2 := Mul(y1, 0x7ed1b41d);
    var y3 := UnXorShr13(y2);
    var y4 := Mul(y3, 0xa5cb9243);
    XorShr16Undo(y4); MulUndo(y3, 0xa5cb9243, 0x85ebca6b, 0x56bb77f4);
    XorShr13Undo(y2); MulUndo(y1, 0x7ed1b41d, 0xc2b2ae35, 0x60736e9a);
  }

  /** With either argument fixed, `Mur` is a bijection in the other. */
  lemma MurBijective(a: Word, h: Word)
    ensures Xor(Unmix(Mur(a, h), 19), Scramble(a)) == h
    ensures Mur(a, Xor(Unmix(h, 19), Scramble(a))) == h
    ensures Unscramble(Xor(Unmix(Mur(a, h), 19), h)) == a
    ensures Mur(Unscramble(Xor(Unmix(a, 19), h)), h) == a
  {
    var s := Scramble(a);
    MixUndo(Xor(h, s), 19); XorUndo(h, s);
    XorUndo(Unmix(h, 19), s); UnmixUndo(h, 19);
    XorCommutes(h, s); XorUndo(s, h); ScrambleUndo(a);
    var t := Xor(Unmix(a, 19), h);
    ScrambleUndo(t); XorCommutes(h, t); XorUndo(Unmix(a, 19), h); UnmixUndo(a, 19);
  }

  // ---------------------------------------------------------------------
  // The block loop
  // ---------------------------------------------------------------------

  datatype State = State(f: Word, g: Word, h: Word)

  /** The five words fetched from one 20-byte block. */
  datatype Block = Block(w0: Word, w1: Word, w2: Word, w3: Word, w4: Word)

  function StepF(f: Word, b: Block): Word {
    Add(Mul(Rotate32(Add(f, b.w1), 19), C1), Scramble(b.w0))
  }

  function StepG(g: Word, b: Block): Word {
    Mul(Bswap32(Xor(Mix(Add(g, Scramble(b.w2)), 18), b.w4)), 5)
  }

  function StepH(h: Word, b: Block): Word {
    Bswap32(Add(Mix(Xor(Mix(Xor(h, Scramble(b.w0)), 18), Add(Scramble(b.w3), b.w1)), 19), Mul(b.w4, 5)))
  }

  /** One turn of the loop; `PERMUTE3(f, h, g)` moves the three new words round. */
  function Step(st: State, b: Block): State {
    State(StepG(st.g, b), StepH(st.h, b), StepF(st.f, b))
  }

  function Run(st: State, blocks: seq<Block>): State {
    if blocks == [] then st else Step(Run(st, blocks[..|blocks| - 1]), blocks[|blocks| - 1])
  }

  function UnstepF(r: Word, b: Block): Word {
    Subtract(Rotate32(Mul(Subtract(r, Scramble(b.w0)), C1_INVERSE), 13), b.w1)
  }

  function UnstepG(r: Word, b: Block): Word {
    Subtract(Unmix(Xor(Bswap32(Mul(r, FIVE_INVERSE)), b.w4), 18), Scramble(b.w2))
  }

  function UnstepH(r: Word, b: Block): Word {
    Xor(Unmix(Xor(Unmix(Subtract(Bswap32(r), Mul(b.w4, 5)), 19), Add(Scramble(b.w3), b.w1)), 18), Scramble(b.w0))
  }

  function Unstep(st: State, b: Block): State {
    State(UnstepF(st.h, b), UnstepG(st.f, b), UnstepH(st.g, b))
  }

  lemma StepFUndo(f: Word, b: Block)
    ensures UnstepF(StepF(f, b), b) == f
  {
    hide Add, Subtract, Mul, Rotate32, Xor, Scramble, Mix, Unmix, Bswap32;
    var x := Add(f, b.w1);
    SubtractUndo(Mul(Rotate32(x, 19), C1), Scramble(b.w0));
    MulC1Undo(Rotate32(x, 19)); RotateBack(x, 19); SubtractUndo(f, b.w1);
  }

  lemma UnstepFUndo(r: Word, b: Block)
    ensures StepF(UnstepF(r, b), b) == r
  {
    hide Add, Subtract, Mul, Rotate32, Xor, Scramble, Mix, Unmix, Bswap32;
    var d := Subtract(r, Scramble(b.w0));
    var x := Rotate32(Mul(d, C1_INVERSE), 13);
    SubtractUndo(x, b.w1); RotateBack(Mul(d, C1_INVERSE), 13); MulC1Undo(d); SubtractUndo(r, Scramble(b.w0));
  }

  lemma StepGUndo(g: Word, b: Block)
    ensures UnstepG(StepG(g, b), b) == g
  {
    hide Add, Subtract, Mul, Rotate32, Xor, Scramble, Mix, Unmix, Bswap32;
    var x := Add(g, Scramble(b.w2));
    var m := Mix(x, 18);
    Mul5Undo(Bswap32(Xor(m, b.w4))); BswapUndo(Xor(m, b.w4)); XorUndo(m, b.w4);
    MixUndo(x, 18); SubtractUndo(g, Scramble(b.w2));
  }

  lemma UnstepGUndo(r: Word, b: Block)
    ensures StepG(UnstepG(r, b), b) == r
  {
    hide Add, Subtract, Mul, Rotate32, Xor, Scramble, Mix, Unmix, Bswap32;
    var y := Bswap32(Mul(r, FIVE_INVERSE));
    var x := Xor(y, b.w4);
    SubtractUndo(Unmix(x, 18), Scramble(b.w2)); UnmixUndo(x, 18); XorUndo(y, b.w4);
    BswapUndo(Mul(r, FIVE_INVERSE)); Mul5Undo(r);
  }

  lemma StepHUndo(h: Word, b: Block)
    ensures UnstepH(StepH(h, b), b) == h
  {
    hide Add, Subtract, Mul, Rotate32, Xor, Scramble, Mix, Unmix, Bswap32;
    var s, k, t := Scramble(b.w0), Add(Scramble(b.w3), b.w1), Mul(b.w4, 5);
    var x := Mix(Xor(h, s), 18);
    var y := Mix(Xor(x, k), 19);
    BswapUndo(Add(y, t)); SubtractUndo(y, t); MixUndo(Xor(x, k), 19); XorUndo(x, k);
    MixUndo(Xor(h, s), 18); XorUndo(h, s);
  }

  lemma UnstepHUndo(r: Word, b: Block)
    ensures StepH(UnstepH(r, b), b) == r
  {
    hide Add, Subtract, Mul, Rotate32, Xor, Scramble, Mix, Unmix, Bswap32;
    var s, k, t := Scramble(b.w0), Add(Scramble(b.w3), b.w1), Mul(b.w4, 5);
    var y := Subtract(Bswap32(r), t);
    var x := Xor(Unmix(y, 19), k);
    XorUndo(Unmix(x, 18), s); UnmixUndo(x, 18); XorUndo(Unmix(y, 19), k); UnmixUndo(y, 19);
    SubtractUndo(Bswap32(r), t); BswapUndo(r);
  }

  /** The loop body is a permutation of the states, whatever the block. */
  lemma StepBijective(st: State, b: Block)
    ensures Unstep(Step(st, b), b) == st
    ensures Step(Unstep(st, b), b) == st
  {
    hide StepF, StepG, StepH, UnstepF, UnstepG, UnstepH;
    StepFUndo(st.f, b); StepGUndo(st.g, b); StepHUndo(st.h, b);
    UnstepFUndo(st.h, b); UnstepGUndo(st.f, b); UnstepHUndo(st.g, b);
  }

  /** So over any sequence of blocks, distinct states stay distinct. */
  lemma {:induction false} RunInjective(st: State, st': State, blocks: seq<Block>)
    requires Run(st, blocks) == Run(st', blocks)
    ensures st == st'
    decreases |blocks|
  {
    if blocks != [] {
      var front, b := blocks[..|blocks| - 1], blocks[|blocks| - 1];
      StepBijective(Run(st, front), b);
      StepBijective(Run(st', front), b);
      RunInjective(st, st', front);
    }
  }

  // ---------------------------------------------------------------------
  // Every fetched word of a block matters
  // ---------------------------------------------------------------------

  /** How many of the five words differ. */
  function Differing(b: Block, c: Block): nat {
    (if b.w0 != c.w0 then 1 else 0) + (if b.w1 != c.w1 then 1 else 0) + (if b.w2 != c.w2 then 1 else 0)
    + (if b.w3 != c.w3 then 1 else 0) + (if b.w4 != c.w4 then 1 else 0)
  }

  lemma AddInjective(a: Word, a': Word, b: Word)
    requires Add(a, b) == Add(a', b)
    ensures a == a'
  {
    SubtractUndo(a, b); SubtractUndo(a', b);
  }

  lemma AddInjectiveRight(a: Word, b: Word, b': Word)
    requires Add(a, b) == Add(a, b')
    ensures b == b'
  {
    assert Add(a, b) == Add(b, a) && Add(a, b') == Add(b', a);
    AddInjective(b, b', a);
  }

  lemma XorInjectiveRight(a: Word, b: Word, b': Word)
    requires Xor(a, b) == Xor(a, b')
    ensures b == b'
  {
    XorCommutes(a, b); XorCommutes(a, b'); XorUndo(b, a); XorUndo(b', a);
  }

  /** In the new f, the words w0 and w1 cannot be confused one at a time. */
  lemma StepFTells(f: Word, b: Block, c: Block)
    requires StepF(f, b) == StepF(f, c)
    ensures b.w0 == c.w0 ==> b.w1 == c.w1
    ensures b.w1 == c.w1 ==> b.w0 == c.w0
  {
    hide Add, Subtract, Mul, Rotate32, Xor, Scramble, Mix, Unmix, Bswap32;
    if b.w0 == c.w0 {
      var x, y := Add(f, b.w1), Add(f, c.w1);
      AddInjective(Mul(Rotate32(x, 19), C1), Mul(Rotate32(y, 19), C1), Scramble(b.w0));
      MulC1Undo(Rotate32(x, 19)); MulC1Undo(Rotate32(y, 19));
      RotateBack(x, 19); RotateBack(y, 19);
      AddInjectiveRight(f, b.w1, c.w1);
    } else if b.w1 == c.w1 {
      AddInjectiveRight(Mul(Rotate32(Add(f, b.w1), 19), C1), Scramble(b.w0), Scramble(c.w0));
      ScrambleUndo(b.w0); ScrambleUndo(c.w0);
    }
  }

  /** In the new g, the words w2 and w4 cannot be confused one at a time. */
  lemma StepGTells(g: Word, b: Block, c: Block)
    requires StepG(g, b) == StepG(g, c)
    ensures b.w2 == c.w2 ==> b.w4 == c.w4
    ensures b.w4 == c.w4 ==> b.w2 == c.w2
  {
    hide Add, Subtract, Mul, Rotate32, Xor, Scramble, Mix, Unmix, Bswap32;
    var x, y := Add(g, Scramble(b.w2)), Add(g, Scramble(c.w2));
    var m, n := Xor(Mix(x, 18), b.w4), Xor(Mix(y, 18), c.w4);
    Mul5Undo(Bswap32(m)); Mul5Undo(Bswap32(n)); BswapUndo(m); BswapUndo(n);
    assert m == n;
    if b.w2 == c.w2 {
      XorInjectiveRight(Mix(x, 18), b.w4, c.w4);
    } else if b.w4 == c.w4 {
      XorUndo(Mix(x, 18), b.w4); XorUndo(Mix(y, 18), c.w4);
      MixUndo(x, 18); MixUndo(y, 18);
      AddInjectiveRight(g, Scramble(b.w2), Scramble(c.w2));
      ScrambleUndo(b.w2); ScrambleUndo(c.w2);
    }
  }

  /** In the new h, the word w3 shows when the others are equal. */
  lemma StepHTells(h: Word, b: Block, c: Block)
    requires StepH(h, b) == StepH(h, c)
    requires b.w0 == c.w0 && b.w1 == c.w1 && b.w4 == c.w4
    ensures b.w3 == c.w3
  {
    hide Add, Subtract, Mul, Rotate32, Xor, Scramble, Mix, Unmix, Bswap32;
    var x := Mix(Xor(h, Scramble(b.w0)), 18);
    var k, l := Add(Scramble(b.w3), b.w1), Add(Scramble(c.w3), b.w1);
    var m, n := Mix(Xor(x, k), 19), Mix(Xor(x, l), 19);
    BswapUndo(Add(m, Mul(b.w4, 5))); BswapUndo(Add(n, Mul(b.w4, 5)));
    AddInjective(m, n, Mul(b.w4, 5));
    MixUndo(Xor(x, k), 19); MixUndo(Xor(x, l), 19);
    XorInjectiveRight(x, k, l);
    AddInjective(Scramble(b.w3), Scramble(c.w3), b.w1);
    ScrambleUndo(b.w3); ScrambleUndo(c.w3);
  }

  /** Changing exactly one word of a block changes the state after it. */
  lemma StepSeesEveryWord(st: State, b: Block, c: Block)
    requires Differing(b, c) == 1
    ensures Step(st, b) != Step(st, c)
  {
    hide StepF, StepG, StepH, UnstepF, UnstepG, UnstepH;
    if Step(st, b) == Step(st, c) {
      StepFTells(st.f, b, c);
      StepGTells(st.g, b, c);
      StepHTells(st.h, b, c);
    }
  }

  /** And no later block can hide the change again. */
  lemma {:induction false} ChangeSurvives(st: State, blocks: seq<Block>, i: nat, c: Block)
    requires i < |blocks| && Differing(blocks[i], c) == 1
    ensures Run(st, blocks) != Run(st, blocks[i := c])
    decreases |blocks|
  {
    var changed, last := blocks[i := c], |blocks| - 1;
    if i == last {
      assert changed[..last] == blocks[..last];
      StepSeesEveryWord(Run(st, blocks[..last]), blocks[i], c);
    } else {
      assert changed[..last] == blocks[..last][i := c];
      ChangeSurvives(st, blocks[..last], i, c);
      StepBijective(Run(st, blocks[..last]), blocks[last]);
      StepBijective(Run(st, changed[..last]), blocks[last]);
    }
  }

  // ---------------------------------------------------------------------
  // The hash as a function of the text
  // ---------------------------------------------------------------------

  /** The four bytes at `at`, loaded on a little-endian machine. */
  function Load32(s: seq<Byte>, at: int): Word
    requires 0 <= at <= |s| - 4
  {
    (s[at] as int) + 0x100 * (s[at + 1] as int) + 0x1_0000 * (s[at + 2] as int) + 0x100_0000 * (s[at + 3] as int)
  }

  /** A byte read as a `signed char`. */
  function Signed(b: Byte): int {
    if b < 128 then b else (b as int) - 256
  }

  /** (b, c) after the first i bytes of a string of at most four. */
  function ShortLoop(s: seq<Byte>, i: nat): (Word, Word)
    requires i <= |s|
  {
    if i == 0 then (0, 9)
    else
      var (b, c) := ShortLoop(s, i - 1);
      var b' := Add(Mul(b, C1), Signed(s[i - 1]));
      (b', Xor(c, b'))
  }

  function Hash0to4(s: seq<Byte>): Word
    requires |s| <= 4
  {
    var (b, c) := ShortLoop(s, |s|);
    Fmix(Mur(b, Mur(|s|, c)))
  }

  function Hash5to12(s: seq<Byte>): Word
    requires 5 <= |s| <= 12
  {
    var n := |s|;
    var d := 5 * n;
    var a, b, c := Add(n, Load32(s, 0)), Add(d, Load32(s, n - 4)), Add(9, Load32(s, if n < 8 then 0 else 4));
    Fmix(Mur(c, Mur(b, Mur(a, d))))
  }

  function Hash13to24(s: seq<Byte>): Word
    requires 13 <= |s| <= 24
  {
    var n := |s|;
    Fmix(Mur(Load32(s, n - 4), Mur(Load32(s, 0), Mur(Load32(s, n / 2),
      Mur(Load32(s, n - 8), Mur(Load32(s, 4), Mur(Load32(s, n / 2 - 4), n)))))))
  }

  /** The state before the block loop, from the length and the last twenty bytes. */
  function Seeded(s: seq<Byte>): State
    requires 24 < |s| < 0x1_0000_0000
  {
    var n := |s|;
    var start := Mul(C1, n);
    State(Mix(Add(start, Scramble(Load32(s, n - 20))), 19),
          Mix(Xor(Mix(Xor(start, Scramble(Load32(s, n - 8))), 19), Scramble(Load32(s, n - 12))), 19),
          Mix(Xor(Mix(Xor(n, Scramble(Load32(s, n - 4))), 19), Scramble(Load32(s, n - 16))), 19))
  }

  function BlockAt(s: seq<Byte>, at: nat): Block
    requires at + 20 <= |s|
  {
    Block(Load32(s, at), Load32(s, at + 4), Load32(s, at + 8), Load32(s, at + 12), Load32(s, at + 16))
  }

  /** The first k whole blocks. */
  function Blocks(s: seq<Byte>, k: nat): (r: seq<Block>)
    requires 20 * k <= |s|
    ensures |r| == k
  {
    if k == 0 then [] else Blocks(s, k - 1) + [BlockAt(s, 20 * (k - 1))]
  }

  /** `Rotate32(x, s) * c1`. */
  function Turn(x: Word, s: nat): Word
    requires s <= 32
  {
    Mul(Rotate32(x, s), C1)
  }

  function Finish(st: State): Word {
    var g, f := Turn(Turn(st.g, 11), 17), Turn(Turn(st.f, 11), 17);
    var h := Turn(Mix(Add(st.h, g), 19), 17);
    Turn(Mix(Add(h, f), 19), 17)
  }

  /** `(Rotate32(h + g, 19)) * 5 + addend` is `Mix(h + g, 19)`; the result loses its lowest bit. */
  function Hash(s: seq<Byte>): Word
    requires |s| < 0x1_0000_0000
  {
    var full :=
      if |s| <= 4 then Hash0to4(s)
      else if |s| <= 12 then Hash5to12(s)
      else if |s| <= 24 then Hash13to24(s)
      else Finish(Run(Seeded(s), Blocks(s, (|s| - 1) / 20)));
    Shr(full, 1)
  }

  // ---------------------------------------------------------------------
  // The program: every read goes through the reader, which notes what was read
  // ---------------------------------------------------------------------

  class Reader {
    const text: seq<Byte>
    ghost var touched: set<int>

    constructor (text: seq<Byte>)
      ensures this.text == text && touched == {}
    {
      this.text := text;
      touched := {};
    }

    /** `Fetch32(s + at)`. */
    method Fetch32(at: int) returns (w: Word)
      requires 0 <= at <= |text| - 4
      modifies this
      ensures w == Load32(text, at)
      ensures touched == old(touched) + Span(at, 4)
    {
      w := Load32(text, at);
      touched := touched + Span(at, 4);
    }

    /** `s[at]`. */
    method ByteAt(at: int) returns (b: Byte)
      requires 0 <= at < |text|
      modifies this
      ensures b == text[at]
      ensures touched == old(touched) + Span(at, 1)
    {
      b := text[at];
      touched := touched + Span(at, 1);
    }
  }

  /** The n positions from `at` on. */
  ghost function Span(at: int, n: nat): (r: set<int>)
    ensures forall i :: i in r <==> at <= i < at + n
  {
    if n == 0 then {} else Span(at, n - 1) + {at + n - 1}
  }

  method Hash32Len0to4(s: Reader) returns (r: Word)
    requires |s.text| <= 4 && s.touched == {}
    modifies s
    ensures r == Hash0to4(s.text)
    ensures s.touched == Span(0, |s.text|)
  {
    var b: Word, c: Word := 0, 9;
    for i := 0 to |s.text|
      invariant (b, c) == ShortLoop(s.text, i)
      invariant s.touched == Span(0, i)
    {
      var v := s.ByteAt(i);
      b := Add(Mul(b, C1), Signed(v));
      c := Xor(c, b);
    }
    r := Fmix(Mur(b, Mur(|s.text|, c)));
  }

  method Hash32Len5to12(s: Reader) returns (r: Word)
    requires 5 <= |s.text| <= 12 && s.touched == {}
    modifies s
    ensures r == Hash5to12(s.text)
    ensures s.touched == Span(0, |s.text|)
  {
    hide Add, Mur, Fmix, Load32;
    var len := |s.text|;
    var d := len * 5;
    var a0 := s.Fetch32(0);
    var b0 := s.Fetch32(len - 4);
    // (len >> 1) & 4: half the length is 2 to 6, and bit 2 is set from 4 on
    var c0 := s.Fetch32(if len / 2 >= 4 then 4 else 0);
    r := Fmix(Mur(Add(9, c0), Mur(Add(d, b0), Mur(Add(len, a0), d))));
  }

  method Hash32Len13to24(s: Reader) returns (r: Word)
    requires 13 <= |s.text| <= 24 && s.touched == {}
    modifies s
    ensures r == Hash13to24(s.text)
    ensures s.touched == Span(0, |s.text|)
  {
    hide Mur, Fmix, Load32, Span;
    var len := |s.text|;
    var half := len / 2;
    var a := s.Fetch32(half - 4);
    var b := s.Fetch32(4);
    var c := s.Fetch32(len - 8);
    var d := s.Fetch32(half);
    var e := s.Fetch32(0);
    var f := s.Fetch32(len - 4);
    assert s.touched == Span(0, len) by {
      SpanJoin(0, 4, 4);
      SpanJoin(half - 4, 4, 4);
      SpanJoin(len - 8, 4, 4);
      ThreeSpans(half, len);
    }
    r := Fmix(Mur(f, Mur(e, Mur(d, Mur(c, Mur(b, Mur(a, len)))))));
  }

  lemma SpanJoin(at: int, m: nat, n: nat)
    ensures Span(at, m) + Span(at + m, n) == Span(at, m + n)
  {
  }

  /** The first eight, the middle eight and the last eight bytes cover 13 to 24 bytes. */
  lemma ThreeSpans(half: int, len: nat)
    requires half == len / 2 && 13 <= len <= 24
    ensures Span(0, 8) + Span(half - 4, 8) + Span(len - 8, 8) == Span(0, len)
  {
  }

  lemma TouchOn(before: set<int>, at: int, m: nat, n: nat)
    ensures before + Span(at, m) + Span(at + m, n) == before + Span(at, m + n)
  {
    hide Span;
    SpanJoin(at, m, n);
    assert before + Span(at, m) + Span(at + m, n) == before + (Span(at, m) + Span(at + m, n));
  }

  /** The five fetches of one block. */
  method FetchBlock(s: Reader, at: nat) returns (b: Block)
    requires at + 20 <= |s.text|
    modifies s
    ensures b == BlockAt(s.text, at)
    ensures s.touched == old(s.touched) + Span(at, 20)
  {
    hide Load32, Span;
    ghost var before := s.touched;
    var w0 := s.Fetch32(at);
    var w1 := s.Fetch32(at + 4);
    TouchOn(before, at, 4, 4);
    var w2 := s.Fetch32(at + 8);
    TouchOn(before, at, 8, 4);
    var w3 := s.Fetch32(at + 12);
    TouchOn(before, at, 12, 4);
    var w4 := s.Fetch32(at + 16);
    TouchOn(before, at, 16, 4);
    b := Block(w0, w1, w2, w3, w4);
  }

  method FetchSeed(s: Reader) returns (st: State)
    requires 24 < |s.text| < 0x1_0000_0000 && s.touched == {}
    modifies s
    ensures st == Seeded(s.text)
    ensures s.touched == Span(|s.text| - 20, 20)
  {
    hide Load32, Scramble, Mix, Mul, Xor, Add;
    var len := |s.text|;
    var h: Word, g: Word := len, Mul(C1, len);
    var f := g;
    var a0 := s.Fetch32(len - 4);
    var a1 := s.Fetch32(len - 8);
    var a2 := s.Fetch32(len - 16);
    var a3 := s.Fetch32(len - 12);
    var a4 := s.Fetch32(len - 20);
    h := Mix(Xor(h, Scramble(a0)), 19);
    h := Mix(Xor(h, Scramble(a2)), 19);
    g := Mix(Xor(g, Scramble(a1)), 19);
    g := Mix(Xor(g, Scramble(a3)), 19);
    f := Mix(Add(f, Scramble(a4)), 19);
    st := State(f, g, h);
  }

  /** The statements of the loop body on the three words, in their order. */
  method LoopBody(st: State, b: Block) returns (next: State)
    ensures next == Step(st, b)
  {
    hide Scramble, Mix, Mul, Xor, Add, Rotate32, Bswap32;
    var f, g, h := st.f, st.g, st.h;
    var a0, a1, a2, a3, a4 := Scramble(b.w0), b.w1, Scramble(b.w2), Scramble(b.w3), b.w4;
    h := Xor(h, a0);
    h := Mix(h, 18);
    f := Add(f, a1);
    f := Rotate32(f, 19);
    f := Mul(f, C1);
    g := Add(g, a2);
    g := Mix(g, 18);
    h := Xor(h, Add(a3, a1));
    h := Mix(h, 19);
    g := Xor(g, a4);
    g := Mul(Bswap32(g), 5);
    h := Add(h, Mul(a4, 5));
    h := Bswap32(h);
    f := Add(f, a0);
    f, h := h, f;
    f, g := g, f;
    next := State(f, g, h);
  }

  /** The block loop: it ends exactly when the counter reaches zero, and with the last
      twenty bytes it has read every byte. */
  method HashLong(s: Reader) returns (r: Word)
    requires 24 < |s.text| < 0x1_0000_0000 && s.touched == {}
    modifies s
    ensures r == Finish(Run(Seeded(s.text), Blocks(s.text, (|s.text| - 1) / 20)))
    ensures s.touched == Span(0, |s.text|)
  {
    hide Seeded, Step, Finish, BlockAt, Run, Blocks, Span;
    var len := |s.text|;
    var st := FetchSeed(s);
    NoBlocks(s.text, st);
    var total := (len - 1) / 20;
    var iters, at := total, 0;
    while true
      invariant 1 <= iters <= total && at == 20 * (total - iters)
      invariant st == Run(Seeded(s.text), Blocks(s.text, total - iters))
      invariant s.touched == Span(len - 20, 20) + Span(0, at)
      decreases iters
    {
      var b := FetchBlock(s, at);
      st := LoopBody(st, b);
      NextBlock(s.text, Seeded(s.text), total - iters);
      TouchOn(Span(len - 20, 20), 0, at, 20);
      at := at + 20;
      iters := iters - 1;
      if iters == 0 { break; }
    }
    LastBytes(len, at);
    r := Finish(st);
  }

  lemma NoBlocks(s: seq<Byte>, st: State)
    ensures Run(st, Blocks(s, 0)) == st
    ensures forall touched: set<int> :: touched + Span(0, 0) == touched
  {
  }

  lemma NextBlock(s: seq<Byte>, st: State, k: nat)
    requires 20 * k + 20 <= |s|
    ensures Run(st, Blocks(s, k + 1)) == Step(Run(st, Blocks(s, k)), BlockAt(s, 20 * k))
  {
    hide Step, BlockAt;
    var done := Blocks(s, k);
    assert (done + [BlockAt(s, 20 * k)])[..k] == done;
  }

  lemma LastBytes(len: nat, at: nat)
    requires 24 < len && at == 20 * ((len - 1) / 20)
    ensures Span(len - 20, 20) + Span(0, at) == Span(0, len)
  {
  }

  /** The whole function: the hash of the first 2^32-truncated length, each byte of it read. */
  method GenerateAssetHash(text: seq<Byte>) returns (r: Word, reader: Reader)
    ensures var n := |text| % 0x1_0000_0000; r == Hash(text[..n]) && reader.touched == Span(0, n)
  {
    hide Hash0to4, Hash5to12, Hash13to24, Finish, Run, Seeded, Blocks, Shr;
    var len := |text| % 0x1_0000_0000;
    reader := new Reader(text[..len]);
    var full;
    if len <= 24 {
      if len <= 12 {
        if len <= 4 {
          full := Hash32Len0to4(reader);
        } else {
          full := Hash32Len5to12(reader);
        }
      } else {
        full := Hash32Len13to24(reader);
      }
    } else {
      full := HashLong(reader);
    }
    r := Shr(full, 1);
  }

  /** Two long texts of equal length with the same last twenty bytes, whose blocks differ in exactly
      one word, reach different states before the final mixing. */
  lemma LongTextsTellWordsApart(s: seq<Byte>, t: seq<Byte>, i: nat)
    requires 24 < |s| == |t| < 0x1_0000_0000
    requires s[|s| - 20..] == t[|s| - 20..]
    requires i < (|s| - 1) / 20
    requires Differing(BlockAt(s, 20 * i), BlockAt(t, 20 * i)) == 1
    requires forall j: nat :: j != i && j < (|s| - 1) / 20 ==> BlockAt(s, 20 * j) == BlockAt(t, 20 * j)
    ensures Run(Seeded(s), Blocks(s, (|s| - 1) / 20)) != Run(Seeded(t), Blocks(t, (|s| - 1) / 20))
  {
    hide Run, BlockAt, Blocks, Seeded, Differing;
    var k := (|s| - 1) / 20;
    var bs, bt, c := Blocks(s, k), Blocks(t, k), BlockAt(t, 20 * i);
    BlocksAt(s, k, i);
    BlocksAt(t, k, i);
    forall j: nat | j < k ensures bt[j] == bs[i := c][j] {
      BlocksAt(s, k, j);
      BlocksAt(t, k, j);
    }
    assert bt == bs[i := c];
    SameSeed(s, t);
    ChangeSurvives(Seeded(s), bs, i, c);
  }

  lemma {:induction false} BlocksAt(s: seq<Byte>, k: nat, j: nat)
    requires 20 * k <= |s| && j < k
    ensures Blocks(s, k)[j] == BlockAt(s, 20 * j)
    decreases k
  {
    hide BlockAt;
    if j < k - 1 { BlocksAt(s, k - 1, j); }
  }

  lemma SameSeed(s: seq<Byte>, t: seq<Byte>)
    requires 24 < |s| == |t| < 0x1_0000_0000
    requires s[|s| - 20..] == t[|s| - 20..]
    ensures Seeded(s) == Seeded(t)
  {
    hide Mix, Scramble, Load32, Add, Xor, Mul;
    var n := |s|;
    SameLoad(s, t, n - 20, n - 4);
    SameLoad(s, t, n - 20, n - 8);
    SameLoad(s, t, n - 20, n - 12);
    SameLoad(s, t, n - 20, n - 16);
    SameLoad(s, t, n - 20, n - 20);
  }

  lemma SameLoad(s: seq<Byte>, t: seq<Byte>, from: nat, at: nat)
    requires from <= at <= |s| - 4 && |s| == |t| && s[from..] == t[from..]
    ensures Load32(s, at) == Load32(t, at)
  {
    forall i | at <= i < at + 4 ensures s[i] == t[i] {
      assert s[i] == s[from..][i - from] && t[i] == t[from..][i - from];
    }
  }
}
