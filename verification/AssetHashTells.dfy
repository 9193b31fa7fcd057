/** What the asset-identifier hash tells apart: every word that is fetched reaches the result. */
module AssetHashTells {
  import opened AssetHash
  import opened Words

  // ---------------------------------------------------------------------
  // A chain of words
  // ---------------------------------------------------------------------

  /** `Mur` over a list of words, the first one innermost. */
  function MurAll(ws: seq<Word>, h: Word): Word {
    if ws == [] then h else MurAll(ws[1..], Mur(ws[0], h))
  }

  lemma MurNone(h: Word)
    ensures MurAll([], h) == h
  {
  }

  lemma MurThree(u: Word, v: Word, w: Word, rest: seq<Word>, h: Word) returns (r: Word)
    ensures r == Mur(w, Mur(v, Mur(u, h))) && MurAll([u, v, w] + rest, h) == MurAll(rest, r)
  {
    hide Mur;
    var ws := [u, v, w] + rest;
    r := Mur(w, Mur(v, Mur(u, h)));
    assert ws[1..] == [v, w] + rest && ws[1..][1..] == [w] + rest && ws[1..][1..][1..] == rest;
    assert MurAll(ws, h) == MurAll(ws[1..], Mur(u, h));
    assert MurAll(ws[1..], Mur(u, h)) == MurAll(ws[1..][1..], Mur(v, Mur(u, h)));
  }

  /** Equal but for the word at i. */
  ghost predicate DifferAt(ws: seq<Word>, vs: seq<Word>, i: nat) {
    |ws| == |vs| && i < |ws| && ws[i] != vs[i] && forall j :: 0 <= j < |ws| && j != i ==> ws[j] == vs[j]
  }

  lemma MurTells(a: Word, a': Word, h: Word, h': Word)
    ensures Mur(a, h) == Mur(a, h') ==> h == h'
    ensures Mur(a, h) == Mur(a', h) ==> a == a'
  {
    hide Mur, Unmix, Scramble, Unscramble, Xor;
    MurBijective(a, h);
    MurBijective(a, h');
    MurBijective(a', h);
  }

  lemma {:induction false} MurAllKeeps(ws: seq<Word>, h: Word, h': Word)
    requires h != h'
    ensures MurAll(ws, h) != MurAll(ws, h')
    decreases |ws|
  {
    hide Mur;
    if ws != [] {
      MurTells(ws[0], ws[0], h, h');
      MurAllKeeps(ws[1..], Mur(ws[0], h), Mur(ws[0], h'));
    }
  }

  lemma {:induction false} MurAllTells(ws: seq<Word>, vs: seq<Word>, h: Word, i: nat)
    requires DifferAt(ws, vs, i)
    ensures MurAll(ws, h) != MurAll(vs, h)
    decreases |ws|
  {
    hide Mur;
    if i == 0 {
      MurTells(ws[0], vs[0], h, h);
      assert ws[1..] == vs[1..];
      MurAllKeeps(ws[1..], Mur(ws[0], h), Mur(vs[0], h));
    } else {
      assert DifferAt(ws[1..], vs[1..], i - 1);
      MurAllTells(ws[1..], vs[1..], Mur(ws[0], h), i - 1);
    }
  }

  lemma FmixTells(x: Word, y: Word)
    requires Fmix(x) == Fmix(y)
    ensures x == y
  {
    hide Fmix, UnFmix;
    FmixBijective(x);
    FmixBijective(y);
  }

  // ---------------------------------------------------------------------
  // 13 to 24 bytes, 5 to 12 bytes
  // ---------------------------------------------------------------------

  /** The six words of a text of 13 to 24 bytes, in the order they are mixed. */
  function Words13to24(s: seq<Byte>): seq<Word>
    requires 13 <= |s| <= 24
  {
    var n := |s|;
    [Load32(s, n / 2 - 4), Load32(s, 4), Load32(s, n - 8), Load32(s, n / 2), Load32(s, 0), Load32(s, n - 4)]
  }

  lemma Chain13to24(s: seq<Byte>)
    requires 13 <= |s| <= 24
    ensures Hash13to24(s) == Fmix(MurAll(Words13to24(s), |s|))
  {
    hide Mur, Fmix, Load32, MurAll;
    var ws := Words13to24(s);
    var h := MurThree(ws[0], ws[1], ws[2], ws[3..], |s|);
    assert ws == [ws[0], ws[1], ws[2]] + ws[3..] && ws[3..] == [ws[3], ws[4], ws[5]] + [];
    h := MurThree(ws[3], ws[4], ws[5], [], h);
    assert MurAll([], h) == h by { MurNone(h); }
  }

  /** Two texts of 13 to 24 bytes and one length that differ in one fetched word have different values. */
  lemma Hash13to24Tells(s: seq<Byte>, t: seq<Byte>, i: nat)
    requires 13 <= |s| == |t| <= 24 && DifferAt(Words13to24(s), Words13to24(t), i)
    ensures Hash13to24(s) != Hash13to24(t)
  {
    hide Hash13to24, Words13to24, Fmix, MurAll;
    Chain13to24(s);
    Chain13to24(t);
    MurAllTells(Words13to24(s), Words13to24(t), |s|, i);
    if Hash13to24(s) == Hash13to24(t) { FmixTells(MurAll(Words13to24(s), |s|), MurAll(Words13to24(t), |s|)); }
  }

  /** The three words of a text of 5 to 12 bytes. */
  function Words5to12(s: seq<Byte>): seq<Word>
    requires 5 <= |s| <= 12
  {
    [Load32(s, 0), Load32(s, |s| - 4), Load32(s, if |s| < 8 then 0 else 4)]
  }

  function Shifted5to12(ws: seq<Word>, n: nat): seq<Word>
    requires |ws| == 3
  {
    [Add(n, ws[0]), Add(5 * n, ws[1]), Add(9, ws[2])]
  }

  lemma Chain5to12(s: seq<Byte>)
    requires 5 <= |s| <= 12
    ensures Hash5to12(s) == Fmix(MurAll(Shifted5to12(Words5to12(s), |s|), 5 * |s|))
  {
    hide Mur, Fmix, Load32, Add, MurAll;
    var ws := Shifted5to12(Words5to12(s), |s|);
    var h := MurThree(ws[0], ws[1], ws[2], [], 5 * |s|);
    assert ws == [ws[0], ws[1], ws[2]] + [];
    assert MurAll([], h) == h by { MurNone(h); }
  }

  lemma ShiftedDiffer(ws: seq<Word>, vs: seq<Word>, n: nat, i: nat)
    requires |ws| == 3 && DifferAt(ws, vs, i) && n <= 12
    ensures DifferAt(Shifted5to12(ws, n), Shifted5to12(vs, n), i)
  {
    hide Add;
    var k: Word := if i == 0 then n else if i == 1 then 5 * n else 9;
    if Add(k, ws[i]) == Add(k, vs[i]) { AddInjectiveRight(k, ws[i], vs[i]); }
  }

  /** Two texts of 5 to 12 bytes and one length that differ in one fetched word have different values. Up to seven
      bytes the first and the third word are the same, and a change of the first four bytes changes both. */
  lemma Hash5to12Tells(s: seq<Byte>, t: seq<Byte>, i: nat)
    requires 5 <= |s| == |t| <= 12 && DifferAt(Words5to12(s), Words5to12(t), i)
    ensures Hash5to12(s) != Hash5to12(t)
  {
    hide Hash5to12, Words5to12, Shifted5to12, Fmix, MurAll;
    Chain5to12(s);
    Chain5to12(t);
    assert |Words5to12(s)| == 3 by { ThreeWords(s); }
    assert |Words5to12(t)| == 3 by { ThreeWords(t); }
    ShiftedDiffer(Words5to12(s), Words5to12(t), |s|, i);
    MurAllTells(Shifted5to12(Words5to12(s), |s|), Shifted5to12(Words5to12(t), |s|), 5 * |s|, i);
    if Hash5to12(s) == Hash5to12(t) {
      FmixTells(MurAll(Shifted5to12(Words5to12(s), |s|), 5 * |s|), MurAll(Shifted5to12(Words5to12(t), |s|), 5 * |s|));
    }
  }

  lemma ThreeWords(s: seq<Byte>)
    requires 5 <= |s| <= 12
    ensures |Words5to12(s)| == 3
  {
  }

  // ---------------------------------------------------------------------
  // Up to four bytes
  // ---------------------------------------------------------------------

  lemma SignedTells(x: Byte, y: Byte, b: Word)
    requires Add(b, Signed(x)) == Add(b, Signed(y))
    ensures x == y
  {
  }

  /** In the word b of the loop no two texts that differ in one byte agree. */
  lemma {:induction false} ShortLoopTells(s: seq<Byte>, t: seq<Byte>, i: nat, k: nat)
    requires |s| == |t| && i < k <= |s| && s[i] != t[i] && forall j :: 0 <= j < |s| && j != i ==> s[j] == t[j]
    ensures ShortLoop(s, k).0 != ShortLoop(t, k).0
    decreases k
  {
    hide Add, Mul, Xor, Signed;
    if k == i + 1 {
      SameLoop(s, t, i);
      var b := Mul(ShortLoop(s, i).0, C1);
      if Add(b, Signed(s[i])) == Add(b, Signed(t[i])) { SignedTells(s[i], t[i], b); }
    } else {
      ShortLoopTells(s, t, i, k - 1);
      var b, b' := ShortLoop(s, k - 1).0, ShortLoop(t, k - 1).0;
      LoopStepTells(b, b', s[k - 1]);
    }
  }

  lemma LoopStepTells(b: Word, b': Word, x: Byte)
    requires b != b'
    ensures Add(Mul(b, C1), Signed(x)) != Add(Mul(b', C1), Signed(x))
  {
    MulC1Undo(b);
    MulC1Undo(b');
    AddUndo(Mul(b, C1), Signed(x));
    AddUndo(Mul(b', C1), Signed(x));
  }

  lemma {:induction false} SameLoop(s: seq<Byte>, t: seq<Byte>, k: nat)
    requires k <= |s| && k <= |t| && forall j :: 0 <= j < k ==> s[j] == t[j]
    ensures ShortLoop(s, k) == ShortLoop(t, k)
    decreases k
  {
    hide Add, Mul, Xor, Signed;
    if k > 0 { SameLoop(s, t, k - 1); }
  }

  /** Two short texts of one length have the same value exactly when what the bytes do to the one word undoes what they
      do to the other. */
  lemma Hash0to4Exactly(s: seq<Byte>, t: seq<Byte>)
    requires |s| == |t| <= 4
    ensures var (b, c) := ShortLoop(s, |s|);
      var (b', c') := ShortLoop(t, |t|);
      Hash0to4(s) == Hash0to4(t) <==> Xor(Mur(|s|, c), Scramble(b)) == Xor(Mur(|s|, c'), Scramble(b'))
  {
    hide Fmix, Mix, Unmix, Scramble, Xor, ShortLoop;
    var (b, c) := ShortLoop(s, |s|);
    var (b', c') := ShortLoop(t, |t|);
    if Hash0to4(s) == Hash0to4(t) {
      FmixTells(Mur(b, Mur(|s|, c)), Mur(b', Mur(|s|, c')));
      MixUndo(Xor(Mur(|s|, c), Scramble(b)), 19);
      MixUndo(Xor(Mur(|s|, c'), Scramble(b')), 19);
    }
  }

  // ---------------------------------------------------------------------
  // Long texts: the seed and the final mixing
  // ---------------------------------------------------------------------

  /** The words of the last twenty bytes, first to last. */
  function TailWords(s: seq<Byte>): seq<Word>
    requires |s| > 24
  {
    var n := |s|;
    [Load32(s, n - 20), Load32(s, n - 16), Load32(s, n - 12), Load32(s, n - 8), Load32(s, n - 4)]
  }

  lemma MixTells(x: Word, y: Word, k: nat)
    requires k <= 32 && Mix(x, k) == Mix(y, k)
    ensures x == y
  {
    hide Mix, Unmix;
    MixUndo(x, k);
    MixUndo(y, k);
  }

  lemma ScrambleTells(x: Word, y: Word)
    requires Scramble(x) == Scramble(y)
    ensures x == y
  {
    hide Scramble, Unscramble;
    ScrambleUndo(x);
    ScrambleUndo(y);
  }

  lemma XorTells(a: Word, a': Word, b: Word)
    requires Xor(a, b) == Xor(a', b)
    ensures a == a'
  {
    XorUndo(a, b);
    XorUndo(a', b);
  }

  /** Two words mixed one after the other: each shows while the other is the same. */
  function TwoMixed(start: Word, v: Word, w: Word): Word {
    Mix(Xor(Mix(Xor(start, Scramble(v)), 19), Scramble(w)), 19)
  }

  lemma TwoMixedTells(start: Word, v: Word, w: Word, v': Word, w': Word)
    requires TwoMixed(start, v, w) == TwoMixed(start, v', w')
    ensures v == v' <==> w == w'
  {
    hide Mix, Xor, Scramble;
    var x, y := Mix(Xor(start, Scramble(v)), 19), Mix(Xor(start, Scramble(v')), 19);
    MixTells(Xor(x, Scramble(w)), Xor(y, Scramble(w')), 19);
    if v == v' {
      XorInjectiveRight(x, Scramble(w), Scramble(w'));
      ScrambleTells(w, w');
    }
    if w == w' {
      XorTells(x, y, Scramble(w));
      MixTells(Xor(start, Scramble(v)), Xor(start, Scramble(v')), 19);
      XorInjectiveRight(start, Scramble(v), Scramble(v'));
      ScrambleTells(v, v');
    }
  }

  /** Tails that differ in one word give different states before the first block. */
  lemma SeededTells(s: seq<Byte>, t: seq<Byte>, i: nat)
    requires 24 < |s| == |t| < 0x1_0000_0000 && DifferAt(TailWords(s), TailWords(t), i)
    ensures Seeded(s) != Seeded(t)
  {
    hide Load32, Mix, Xor, Scramble, Add, Mul;
    var n := |s|;
    var start := Mul(C1, n);
    if Seeded(s) == Seeded(t) {
      SeedWords(s);
      SeedWords(t);
      TwoMixedTells(start, TailWords(s)[3], TailWords(s)[2], TailWords(t)[3], TailWords(t)[2]);
      TwoMixedTells(n, TailWords(s)[4], TailWords(s)[1], TailWords(t)[4], TailWords(t)[1]);
      MixTells(Add(start, Scramble(TailWords(s)[0])), Add(start, Scramble(TailWords(t)[0])), 19);
      AddInjectiveRight(start, Scramble(TailWords(s)[0]), Scramble(TailWords(t)[0]));
      ScrambleTells(TailWords(s)[0], TailWords(t)[0]);
    }
  }

  lemma SeedWords(s: seq<Byte>)
    requires 24 < |s| < 0x1_0000_0000
    ensures var ws, start := TailWords(s), Mul(C1, |s|);
      Seeded(s) == State(Mix(Add(start, Scramble(ws[0])), 19), TwoMixed(start, ws[3], ws[2]), TwoMixed(|s|, ws[4], ws[1]))
  {
    hide Load32, Mix, Xor, Scramble, Add, Mul;
  }

  lemma TurnTells(x: Word, y: Word, k: nat)
    requires k <= 32 && Turn(x, k) == Turn(y, k)
    ensures x == y
  {
    hide Mul, Rotate32;
    MulC1Undo(Rotate32(x, k));
    MulC1Undo(Rotate32(y, k));
    RotateBack(x, k);
    RotateBack(y, k);
  }

  /** The final mixing tells apart states that differ in one word. */
  lemma FinishTells(u: AssetHash.State, v: AssetHash.State)
    requires (u.f != v.f && u.g == v.g && u.h == v.h) || (u.f == v.f && u.g != v.g && u.h == v.h) || (u.f == v.f && u.g == v.g && u.h != v.h)
    ensures Finish(u) != Finish(v)
  {
    hide Turn, Mix, Add;
    if Finish(u) == Finish(v) {
      var g, g', f, f' := Turn(Turn(u.g, 11), 17), Turn(Turn(v.g, 11), 17), Turn(Turn(u.f, 11), 17), Turn(Turn(v.f, 11), 17);
      var h, h' := Turn(Mix(Add(u.h, g), 19), 17), Turn(Mix(Add(v.h, g'), 19), 17);
      TurnTells(Mix(Add(h, f), 19), Mix(Add(h', f'), 19), 17);
      MixTells(Add(h, f), Add(h', f'), 19);
      if u.f == v.f {
        AddInjective(h, h', f);
        TurnTells(Mix(Add(u.h, g), 19), Mix(Add(v.h, g'), 19), 17);
        MixTells(Add(u.h, g), Add(v.h, g'), 19);
        if u.g == v.g {
          AddInjective(u.h, v.h, g);
        } else {
          AddInjectiveRight(u.h, g, g');
          TurnTells(Turn(u.g, 11), Turn(v.g, 11), 17);
          TurnTells(u.g, v.g, 11);
        }
      } else {
        AddInjectiveRight(h, f, f');
        TurnTells(Turn(u.f, 11), Turn(v.f, 11), 17);
        TurnTells(u.f, v.f, 11);
      }
    }
  }
}
