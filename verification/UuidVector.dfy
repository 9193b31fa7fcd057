/** The vectorised UUID codec of uuid_v4.h, on a little-endian machine: `m128itos`, `stom128i` and
    the masks of `getUUID`, against the plain nibble-by-nibble form. */
module UuidVector {
  import opened Vectors

  // ---------------------------------------------------------------------
  // The plain codec
  // ---------------------------------------------------------------------

  /** A lower-case hex digit in ASCII. */
  function HexOf(d: bv8): bv8 {
    if d < 10 then 0x30 + d else 0x57 + d
  }

  predicate IsHex(c: bv8) {
    0x30 <= c <= 0x39 || 0x61 <= c <= 0x66
  }

  function ValueOf(c: bv8): bv8 {
    if c <= 0x39 then c - 0x30 else c - 0x57
  }

  /** Nibble k of the bytes in memory order, high nibble first. */
  function NibbleOf(x: Half, k: nat): bv8
    requires k < 32
  {
    if k % 2 == 0 then x[k / 2] >> 4 else x[k / 2] & 0x0f
  }

  predicate IsDash(i: nat) {
    i == 8 || i == 13 || i == 18 || i == 23
  }

  /** How many digits stand before position i of the 8-4-4-4-12 form. */
  function DigitsBefore(i: nat): nat
    requires i < 36
  {
    if i <= 8 then i else if i <= 13 then i - 1 else if i <= 18 then i - 2 else if i <= 23 then i - 3 else i - 4
  }

  function PlainChar(x: Half, i: nat): bv8
    requires i < 36
  {
    if IsDash(i) then 0x2d else HexOf(NibbleOf(x, DigitsBefore(i)))
  }

  /** The 36 characters of section 3 of RFC 4122, in lower case. */
  function PlainText(x: Half): (r: seq<bv8>)
    ensures |r| == 36
    ensures forall i :: 0 <= i < 36 ==> r[i] == PlainChar(x, i)
  {
    seq(36, i requires 0 <= i < 36 => PlainChar(x, i))
  }

  predicate WellFormed(t: seq<bv8>) {
    |t| == 36 && forall i :: 0 <= i < 36 ==> if IsDash(i) then t[i] == 0x2d else IsHex(t[i])
  }

  // ---------------------------------------------------------------------
  // m128itos
  // ---------------------------------------------------------------------

  /** The nibbles of x, one to a byte. */
  function Expanded(x: Half, undefined: Half): Full {
    var a := Widen(x, undefined);
    var s := Srli64(a, 4);
    var lo := UnpackLo(s, a);
    var hi := Narrow(UnpackHi(s, a));
    var c := InsertUpper(lo, hi);
    And(c, Set1(0x0f))
  }

  /** The nibbles as ASCII. */
  function Translated(d: Full): Full {
    var add := Set1(0x06);
    var alpha := Slli64(And(Add8(d, add), Set1(0x10)), 3);
    var offset := Blend(Slli64(add, 3), Set1(0x57), alpha);
    Add8(d, offset)
  }

  function DashShuffle(): Full {
    SetEpi32(0x0b0a0908, 0x07060504, 0x80030201, 0x00808080, 0x0d0c800b, 0x0a090880, 0x07060504, 0x03020100)
  }

  /** `_mm256_set_epi64x(0, 0x2d000000002d0000, 0x00002d000000002d, 0)`, by halves. */
  function Dashes(): Full {
    SetEpi32(0x00000000, 0x00000000, 0x2d000000, 0x002d0000, 0x00002d00, 0x0000002d, 0x00000000, 0x00000000)
  }

  /** The digits with the dashes between them. */
  function Dashed(res: Full): Full {
    Or(Shuffle(res, DashShuffle()), Dashes())
  }

  /** `m128itos`: one 32-byte store, then two small ones over and after it. */
  method M128itos(x: Half, undefined: Half, mem: array<bv8>)
    requires mem.Length >= 36
    modifies mem
    ensures mem[..36] == PlainText(x)
    ensures mem[36..] == old(mem[36..])
  {
    hide PlainText, Expanded, Translated, Dashed, PlainChar;
    var res := Translated(Expanded(x, undefined));
    var resd := Dashed(res);
    forall i | 0 <= i < 32 { mem[i] := resd[i]; }
    mem[16], mem[17] := res[14], res[15];
    mem[32], mem[33], mem[34], mem[35] := res[28], res[29], res[30], res[31];
    forall i | 0 <= i < 36 ensures mem[i] == PlainChar(x, i) {
      assert mem[i] == StoredAt(res, i);
      StoredIsPlain(x, undefined, i);
    }
    assert mem[..36] == PlainText(x);
  }

  /** What ends up at position i of the memory. */
  function StoredAt(res: Full, i: nat): bv8
    requires i < 36
  {
    if i == 16 || i == 17 then res[i - 2]
    else if i >= 32 then res[i - 4]
    else Dashed(res)[i]
  }

  /** The shuffle and the two small stores put every digit in its place, and the dashes between. */
  lemma StoredInPlace(res: Full, i: nat)
    requires i < 36
    ensures StoredAt(res, i) == if IsDash(i) then 0x2d else res[DigitsBefore(i)]
  {
    if i < 16 || 18 <= i < 32 {
      DashedAt(res, i);
      ShuffleIndex(i);
    }
  }

  lemma DashedAt(res: Full, i: nat)
    requires i < 32
    ensures Dashed(res)[i] == ShuffleAt(res, DashShuffle(), i) | Dashes()[i]
  {
    hide ShuffleAt, DashShuffle, Dashes;
  }

  /** The index bytes, as positions in the 32 digits. */
  function DigitIndex(i: nat): int
    requires i < 32
  {
    HalfOf(i) + (DashShuffle()[i] & 0x0f) as int
  }

  ghost predicate Indexed(i: nat)
    requires i < 32
  {
    if IsDash(i) then DashShuffle()[i] & 0x80 != 0 && Dashes()[i] == 0x2d
    else DashShuffle()[i] & 0x80 == 0 && Dashes()[i] == 0 && DigitIndex(i) == DigitsBefore(i)
  }

  lemma Indexed0()
    ensures Indexed(0) && Indexed(1) && Indexed(2) && Indexed(3) && Indexed(4) && Indexed(5) && Indexed(6) && Indexed(7)
  {
  }

  lemma Indexed1()
    ensures Indexed(8) && Indexed(9) && Indexed(10) && Indexed(11) && Indexed(12) && Indexed(13) && Indexed(14) && Indexed(15)
  {
  }

  lemma Indexed2()
    ensures Indexed(18) && Indexed(19) && Indexed(20) && Indexed(21) && Indexed(22) && Indexed(23)
  {
  }

  lemma Indexed3()
    ensures Indexed(24) && Indexed(25) && Indexed(26) && Indexed(27) && Indexed(28) && Indexed(29) && Indexed(30) && Indexed(31)
  {
  }

  lemma ShuffleIndex(i: nat)
    requires i < 16 || 18 <= i < 32
    ensures Indexed(i)
  {
    hide Indexed;
    if i < 8 { Indexed0(); } else if i < 16 { Indexed1(); } else if i < 24 { Indexed2(); } else { Indexed3(); }
  }

  lemma StoredIsPlain(x: Half, undefined: Half, i: nat)
    requires i < 36
    ensures StoredAt(Translated(Expanded(x, undefined)), i) == PlainChar(x, i)
  {
    hide Translated, Expanded, StoredAt, NibbleOf;
    var d := Expanded(x, undefined);
    StoredInPlace(Translated(d), i);
    if !IsDash(i) {
      forall k | 0 <= k < 32 ensures d[k] < 16 {
        ExpandedAt(x, undefined, k);
        NibbleSmall(x, k);
      }
      ExpandedAt(x, undefined, DigitsBefore(i));
      TranslatedAt(d, DigitsBefore(i));
    }
  }

  lemma NibbleSmall(x: Half, k: nat)
    requires k < 32
    ensures NibbleOf(x, k) < 16
  {
  }

  lemma ExpandedAt(x: Half, undefined: Half, k: nat)
    requires k < 32
    ensures Expanded(x, undefined)[k] == NibbleOf(x, k)
  {
    hide Srli64, Srli64At, Widen, Expanded;
    WovenAt(x, undefined, k);
    if k % 2 == 0 { ShiftedAt(x, undefined, k / 2); }
  }

  /** The unpacking weaves the shifted and the plain bytes, and the mask keeps their low halves. */
  lemma WovenAt(x: Half, undefined: Half, k: nat)
    requires k < 32
    ensures Expanded(x, undefined)[k]
         == (if k % 2 == 0 then Srli64(Widen(x, undefined), 4)[k / 2] else Widen(x, undefined)[k / 2]) & 0x0f
  {
    hide Srli64, Srli64At;
  }

  lemma ShiftedAt(x: Half, undefined: Half, j: nat)
    requires j < 16
    ensures Srli64(Widen(x, undefined), 4)[j] & 0x0f == x[j] >> 4
  {
    var a := Widen(x, undefined);
    ShiftedNibble(a[j], if j % 8 < 7 then a[j + 1] else 0);
  }

  lemma ShiftedNibble(b: bv8, above: bv8)
    ensures ((b >> 4) | (above << 4)) & 0x0f == b >> 4
    ensures ((b >> 4) | 0) & 0x0f == b >> 4
  {
  }

  lemma TranslatedAt(d: Full, k: nat)
    requires k < 32 && forall i :: 0 <= i < 32 ==> d[i] < 16
    ensures Translated(d)[k] == HexOf(d[k])
  {
    Digit(d[k], if k % 8 > 0 then d[k - 1] else 0);
  }

  /** For a nibble, the carry into bit 4 of d + 6 says that d is at least ten. */
  lemma Digit(d: bv8, below: bv8)
    requires d < 16 && below < 16
    ensures var alpha := (((d + 6) & 0x10) << 3) | (((below + 6) & 0x10) >> 5);
            d + (if alpha & 0x80 == 0 then (6 << 3) | (6 >> 5) else 0x57) == HexOf(d)
  {
  }

  // ---------------------------------------------------------------------
  // stom128i
  // ---------------------------------------------------------------------

  function UndashShuffle(): Full {
    SetEpi32(0x80808080, 0x0f0e0d0c, 0x0b0a0908, 0x06050403, 0x80800f0e, 0x0c0b0a09, 0x07060504, 0x03020100)
  }

  function Unweave(): Full {
    SetEpi32(0x0f0d0b09, 0x0e0c0a08, 0x07050301, 0x06040200, 0x0f0d0b09, 0x0e0c0a08, 0x07050301, 0x06040200)
  }

  /** The 32 digits of the text: a shuffle, then two small loads inserted. */
  function Gathered(mem: seq<bv8>): Full
    requires |mem| >= 36
  {
    var x: Full := Shuffle(mem[..32], UndashShuffle());
    x[14 := mem[16]][15 := mem[17]][28 := mem[32]][29 := mem[33]][30 := mem[34]][31 := mem[35]]
  }

  /** ASCII to nibbles. */
  function Untranslated(x: Full): Full {
    var a := Sub8(x, Set1(0x2f));
    var alpha := Slli64(And(a, Set1(0x20)), 2);
    Sub8(a, Blend(Set1(0x01), Set1(0x28), alpha))
  }

  /** Pairs of nibbles to bytes. */
  function Packed(a: Full): Half {
    Narrow(Permute0200(HaddZero(SllAlternating(Shuffle(a, Unweave())))))
  }

  function Stom128i(mem: seq<bv8>): Half
    requires |mem| >= 36
  {
    Packed(Untranslated(Gathered(mem)))
  }

  /** The position of digit k in the text. */
  function PlaceOf(k: nat): nat
    requires k < 32
  {
    if k < 8 then k else if k < 12 then k + 1 else if k < 16 then k + 2 else if k < 20 then k + 3 else k + 4
  }

  ghost predicate Undashed(k: nat)
    requires k < 32
  {
    k == 14 || k == 15 || k >= 28
    || (UndashShuffle()[k] & 0x80 == 0 && HalfOf(k) + (UndashShuffle()[k] & 0x0f) as int == PlaceOf(k))
  }

  lemma Undashed0()
    ensures Undashed(0) && Undashed(1) && Undashed(2) && Undashed(3) && Undashed(4) && Undashed(5) && Undashed(6) && Undashed(7)
  {
  }

  lemma Undashed1()
    ensures Undashed(8) && Undashed(9) && Undashed(10) && Undashed(11) && Undashed(12) && Undashed(13) && Undashed(14) && Undashed(15)
  {
  }

  lemma Undashed2()
    ensures Undashed(16) && Undashed(17) && Undashed(18) && Undashed(19) && Undashed(20) && Undashed(21) && Undashed(22) && Undashed(23)
  {
  }

  lemma Undashed3()
    ensures Undashed(24) && Undashed(25) && Undashed(26) && Undashed(27) && Undashed(28) && Undashed(29) && Undashed(30) && Undashed(31)
  {
  }

  lemma UndashIndex(k: nat)
    requires k < 32
    ensures Undashed(k)
  {
    hide Undashed;
    if k < 8 { Undashed0(); } else if k < 16 { Undashed1(); } else if k < 24 { Undashed2(); } else { Undashed3(); }
  }

  lemma GatheredAt(mem: seq<bv8>, k: nat)
    requires |mem| >= 36 && k < 32
    ensures Gathered(mem)[k] == mem[PlaceOf(k)]
  {
    hide UndashShuffle;
    UndashIndex(k);
  }

  /** Only bit 5 of the shifted character is looked at: it is set for the letters a to f. */
  lemma Undigit(c: bv8, below: bv8)
    requires IsHex(c)
    ensures var a := c - 0x2f;
            var alpha := ((a & 0x20) << 2) | ((below & 0x20) >> 6);
            a - (if alpha & 0x80 == 0 then 0x01 else 0x28) == ValueOf(c) && ValueOf(c) < 16
  {
  }

  lemma UntranslatedAt(x: Full, k: nat)
    requires k < 32 && IsHex(x[k])
    ensures Untranslated(x)[k] == ValueOf(x[k]) && ValueOf(x[k]) < 16
  {
    Undigit(x[k], if k % 8 > 0 then x[k - 1] - 0x2f else 0);
  }

  /** The digit that the unweaving brings to position i. */
  function UnwovenFrom(i: nat): nat
    requires i < 32
    ensures UnwovenFrom(i) < 32
  {
    var g := if i < 8 then 0 else if i < 16 then 8 else if i < 24 then 16 else 24;
    if i - g < 4 then g + 2 * (i - g) else g + 2 * (i - g - 4) + 1
  }

  ghost predicate Unwoven(i: nat)
    requires i < 32
  {
    Unweave()[i] & 0x80 == 0 && HalfOf(i) + (Unweave()[i] & 0x0f) as int == UnwovenFrom(i)
  }

  lemma Unwoven0()
    ensures Unwoven(0) && Unwoven(1) && Unwoven(2) && Unwoven(3) && Unwoven(4) && Unwoven(5) && Unwoven(6) && Unwoven(7)
  {
  }

  lemma Unwoven1()
    ensures Unwoven(8) && Unwoven(9) && Unwoven(10) && Unwoven(11) && Unwoven(12) && Unwoven(13) && Unwoven(14) && Unwoven(15)
  {
  }

  lemma Unwoven2()
    ensures Unwoven(16) && Unwoven(17) && Unwoven(18) && Unwoven(19) && Unwoven(20) && Unwoven(21) && Unwoven(22) && Unwoven(23)
  {
  }

  lemma Unwoven3()
    ensures Unwoven(24) && Unwoven(25) && Unwoven(26) && Unwoven(27) && Unwoven(28) && Unwoven(29) && Unwoven(30) && Unwoven(31)
  {
  }

  lemma UnwovenIndex(i: nat)
    requires i < 32
    ensures Unwoven(i)
  {
    hide Unwoven;
    if i < 8 { Unwoven0(); } else if i < 16 { Unwoven1(); } else if i < 24 { Unwoven2(); } else { Unwoven3(); }
  }

  lemma UnwovenAt(a: Full, i: nat)
    requires i < 32
    ensures Shuffle(a, Unweave())[i] == a[UnwovenFrom(i)]
  {
    hide Unweave;
    UnwovenIndex(i);
  }

  predicate Small(b: bv8) { b < 16 }

  function High(h: bv8): bv8 { h << 4 }

  /** A byte from its two nibbles. */
  function Pair(h: bv8, l: bv8): bv8 { (h << 4) | l }

  /** A lane of high nibbles shifted by four. */
  lemma ShiftLane(h0: bv8, h1: bv8, h2: bv8, h3: bv8)
    requires Small(h0) && Small(h1) && Small(h2) && Small(h3)
    ensures Shl4(Join(h0, h1, h2, h3)) == Join(High(h0), High(h1), High(h2), High(h3))
  {
    hide Join;
    ShiftLaneBits(h0, h1, h2, h3);
  }

  lemma ShiftLaneBits(h0: bv8, h1: bv8, h2: bv8, h3: bv8)
    requires h0 < 16 && h1 < 16 && h2 < 16 && h3 < 16
    ensures Join(h0, h1, h2, h3) << 4 == Join(h0 << 4, h1 << 4, h2 << 4, h3 << 4)
  {
  }

  /** Adding a lane of low nibbles to a lane of shifted high ones carries nothing. */
  lemma AddLanes(h0: bv8, h1: bv8, h2: bv8, h3: bv8, l0: bv8, l1: bv8, l2: bv8, l3: bv8)
    requires Small(h0) && Small(h1) && Small(h2) && Small(h3) && Small(l0) && Small(l1) && Small(l2) && Small(l3)
    ensures Add32(Join(High(h0), High(h1), High(h2), High(h3)), Join(l0, l1, l2, l3))
         == Join(Pair(h0, l0), Pair(h1, l1), Pair(h2, l2), Pair(h3, l3))
  {
  }

  lemma JoinBytes(b0: bv8, b1: bv8, b2: bv8, b3: bv8)
    ensures var w := Join(b0, b1, b2, b3);
            LaneByte(w, 0) == b0 && LaneByte(w, 1) == b1 && LaneByte(w, 2) == b2 && LaneByte(w, 3) == b3
  {
  }

  ghost predicate AllSmall(a: Full) {
    forall i :: 0 <= i < 32 ==> Small(a[i])
  }

  /** Byte t of the lane pair (k, k + 1) after the shift and the horizontal sum. */
  lemma SummedAt(b: Full, k: nat, t: nat)
    requires k < 7 && k % 2 == 0 && t < 4 && AllSmall(b)
    ensures var c := SllAlternating(b); LaneByte(Add32(Lane(c, k), Lane(c, k + 1)), t) == Pair(b[4 * k + t], b[4 * k + 4 + t])
  {
    hide LaneByte, Join, Lane, SllAlternating, SllAlternatingAt, Small, High, Pair, Add32;
    LaneShifted(b, k);
    LaneKept(b, k + 1);
    var h, l := 4 * k, 4 * k + 4;
    AddLanes(b[h], b[h + 1], b[h + 2], b[h + 3], b[l], b[l + 1], b[l + 2], b[l + 3]);
    JoinBytes(Pair(b[h], b[l]), Pair(b[h + 1], b[l + 1]), Pair(b[h + 2], b[l + 2]), Pair(b[h + 3], b[l + 3]));
  }

  lemma LaneShifted(b: Full, k: nat)
    requires k < 8 && k % 2 == 0 && AllSmall(b)
    ensures Lane(SllAlternating(b), k) == Join(High(b[4 * k]), High(b[4 * k + 1]), High(b[4 * k + 2]), High(b[4 * k + 3]))
  {
    hide LaneByte, Join, SllAlternating, SllAlternatingAt, Small, High;
    var h := 4 * k;
    SllEven(b, k, 0); SllEven(b, k, 1); SllEven(b, k, 2); SllEven(b, k, 3);
    ShiftLane(b[h], b[h + 1], b[h + 2], b[h + 3]);
    JoinBytes(High(b[h]), High(b[h + 1]), High(b[h + 2]), High(b[h + 3]));
  }

  lemma LaneKept(b: Full, k: nat)
    requires k < 8 && k % 2 == 1
    ensures Lane(SllAlternating(b), k) == Join(b[4 * k], b[4 * k + 1], b[4 * k + 2], b[4 * k + 3])
  {
    hide LaneByte, Join, SllAlternating, SllAlternatingAt;
    var h := 4 * k;
    JoinBytes(b[h], b[h + 1], b[h + 2], b[h + 3]);
    SllOdd(b, k, 0); SllOdd(b, k, 1); SllOdd(b, k, 2); SllOdd(b, k, 3);
  }

  lemma SllEven(b: Full, k: nat, t: nat)
    requires k < 8 && k % 2 == 0 && t < 4
    ensures SllAlternating(b)[4 * k + t] == LaneByte(Shl4(Lane(b, k)), t)
  {
    hide LaneByte, Lane, Shl4;
  }

  lemma SllOdd(b: Full, k: nat, t: nat)
    requires k < 8 && k % 2 == 1 && t < 4
    ensures SllAlternating(b)[4 * k + t] == LaneByte(Lane(b, k), t)
  {
    hide LaneByte, Lane, Shl4;
  }

  /** The even lane that holds the first digits of byte j, and the byte's place in the lane. */
  function LaneOf(j: nat): nat { if j < 4 then 0 else if j < 8 then 2 else if j < 12 then 4 else 6 }

  function InLane(j: nat): nat
    requires j < 16
    ensures InLane(j) < 4
  {
    if j < 4 then j else if j < 8 then j - 4 else if j < 12 then j - 8 else j - 12
  }

  lemma WhichDigits(j: nat)
    requires j < 16
    ensures UnwovenFrom(4 * LaneOf(j) + InLane(j)) == 2 * j && UnwovenFrom(4 * LaneOf(j) + 4 + InLane(j)) == 2 * j + 1
  {
  }

  /** Byte j of the result is digits 2j and 2j + 1. */
  lemma PackedAt(a: Full, j: nat)
    requires j < 16 && AllSmall(a)
    ensures Packed(a)[j] == Pair(a[2 * j], a[2 * j + 1])
  {
    hide LaneByte, Lane, Unweave, Shuffle, SllAlternating, HaddZero, Permute0200, Narrow, Small, Pair, UnwovenFrom, Add32;
    var b := Shuffle(a, Unweave());
    forall i | 0 <= i < 32 ensures Small(b[i]) { UnwovenAt(a, i); }
    WhichDigits(j);
    UnwovenAt(a, 4 * LaneOf(j) + InLane(j));
    UnwovenAt(a, 4 * LaneOf(j) + 4 + InLane(j));
    SummedAt(b, LaneOf(j), InLane(j));
    PackedFrom(SllAlternating(b), j);
  }

  lemma PackedFrom(c: Full, j: nat)
    requires j < 16
    ensures Narrow(Permute0200(HaddZero(c)))[j] == LaneByte(Add32(Lane(c, LaneOf(j)), Lane(c, LaneOf(j) + 1)), InLane(j))
  {
    hide LaneByte, Lane, Add32;
    var i := if j < 8 then j else j + 8;
    assert Narrow(Permute0200(HaddZero(c)))[j] == HaddZero(c)[i] by { hide HaddZero; }
    assert HaddZero(c)[i] == HaddZeroAt(c, i);
  }

  // ---------------------------------------------------------------------
  // The two directions
  // ---------------------------------------------------------------------

  lemma HexOfValue(d: bv8)
    requires d < 16
    ensures IsHex(HexOf(d)) && ValueOf(HexOf(d)) == d
  {
  }

  lemma ValueOfHex(c: bv8)
    requires IsHex(c)
    ensures ValueOf(c) < 16 && HexOf(ValueOf(c)) == c
  {
  }

  lemma NibblesJoin(b: bv8)
    ensures Pair(b >> 4, b & 0x0f) == b
  {
  }

  lemma NibblesApart(h: bv8, l: bv8)
    requires h < 16 && l < 16
    ensures Pair(h, l) >> 4 == h && Pair(h, l) & 0x0f == l
  {
  }

  lemma PlaceAndDigit(k: nat)
    requires k < 32
    ensures PlaceOf(k) < 36 && !IsDash(PlaceOf(k)) && DigitsBefore(PlaceOf(k)) == k
  {
  }

  lemma DigitAndPlace(i: nat)
    requires i < 36 && !IsDash(i)
    ensures DigitsBefore(i) < 32 && PlaceOf(DigitsBefore(i)) == i
  {
  }

  lemma ParsedNibble(t: seq<bv8>, k: nat)
    requires WellFormed(t) && k < 32
    ensures Untranslated(Gathered(t))[k] == ValueOf(t[PlaceOf(k)]) && ValueOf(t[PlaceOf(k)]) < 16
  {
    hide Untranslated, Gathered, IsHex, ValueOf;
    PlaceAndDigit(k);
    GatheredAt(t, k);
    UntranslatedAt(Gathered(t), k);
  }

  lemma WellFormedLength(t: seq<bv8>)
    requires WellFormed(t)
    ensures |t| == 36
  {
  }

  /** What the vector reader computes from a well-formed text: byte j from its two digits. */
  lemma ParsedAt(t: seq<bv8>, j: nat)
    requires WellFormed(t) && j < 16
    ensures Stom128i(t)[j] == Pair(ValueOf(t[PlaceOf(2 * j)]), ValueOf(t[PlaceOf(2 * j + 1)]))
  {
    hide Untranslated, Gathered, ValueOf, Packed, WellFormed, Pair;
    assert |t| == 36 by { WellFormedLength(t); }
    var a := Untranslated(Gathered(t));
    forall k | 0 <= k < 32 ensures Small(a[k]) { ParsedNibble(t, k); }
    ParsedNibble(t, 2 * j); ParsedNibble(t, 2 * j + 1);
    PackedAt(a, j);
  }

  lemma PlainTextWellFormed(x: Half)
    ensures WellFormed(PlainText(x))
  {
    hide HexOf, NibbleOf, IsHex;
    forall i | 0 <= i < 36 && !IsDash(i) ensures IsHex(PlainText(x)[i]) {
      NibbleSmall(x, DigitsBefore(i));
      HexOfValue(NibbleOf(x, DigitsBefore(i)));
    }
  }

  lemma PlainDigit(x: Half, k: nat)
    requires k < 32
    ensures ValueOf(PlainText(x)[PlaceOf(k)]) == NibbleOf(x, k)
  {
    hide HexOf, ValueOf, NibbleOf;
    PlaceAndDigit(k);
    NibbleSmall(x, k);
    HexOfValue(NibbleOf(x, k));
  }

  /** Reading the printed form of any 128-bit value gives the value. */
  lemma StomUndoesText(x: Half)
    ensures Stom128i(PlainText(x)) == x
  {
    hide Stom128i, PlainText, WellFormed;
    PlainTextWellFormed(x);
    var y := Stom128i(PlainText(x));
    forall j | 0 <= j < 16 ensures y[j] == x[j] {
      ParsedAt(PlainText(x), j);
      PlainDigit(x, 2 * j); PlainDigit(x, 2 * j + 1);
      NibblesJoin(x[j]);
    }
  }

  /** Printing what was read from 36 characters gives them back exactly when they are well formed. */
  lemma TextOfStom(t: seq<bv8>)
    requires |t| == 36
    ensures PlainText(Stom128i(t)) == t <==> WellFormed(t)
  {
    hide Stom128i, WellFormed, PlainChar;
    PlainTextWellFormed(Stom128i(t));
    if WellFormed(t) {
      forall i | 0 <= i < 36 ensures PlainText(Stom128i(t))[i] == t[i] { PrintedAt(t, i); }
    }
  }

  lemma PrintedAt(t: seq<bv8>, i: nat)
    requires WellFormed(t) && i < 36
    ensures PlainChar(Stom128i(t), i) == t[i]
  {
    hide Stom128i, HexOf, ValueOf, IsHex;
    if !IsDash(i) {
      var k := DigitsBefore(i);
      DigitAndPlace(i);
      var j := k / 2;
      PlaceAndDigit(2 * j); PlaceAndDigit(2 * j + 1);
      ValueOfHex(t[PlaceOf(2 * j)]); ValueOfHex(t[PlaceOf(2 * j + 1)]);
      ParsedAt(t, j);
      NibblesApart(ValueOf(t[PlaceOf(2 * j)]), ValueOf(t[PlaceOf(2 * j + 1)]));
    }
  }

  // ---------------------------------------------------------------------
  // getUUID
  // ---------------------------------------------------------------------

  /** The two masks of `getUUID`, on 16 random bytes. */
  function Stamped(n: Half): Half {
    seq(16, i requires 0 <= i < 16 =>
      if i == 6 then (n[i] & 0x0f) | 0x40 else if i == 8 then (n[i] & 0x3f) | 0x80 else n[i])
  }

  /** In the text of a generated UUID the version digit is 4 and the variant digit 8, 9, a or b;
      the other 30 digits are those of the random bytes. */
  lemma StampedText(n: Half)
    ensures var t := PlainText(Stamped(n));
            t[14] == 0x34 && (t[19] == 0x38 || t[19] == 0x39 || t[19] == 0x61 || t[19] == 0x62)
            && forall i :: 0 <= i < 36 && i != 14 && i != 19 ==> t[i] == PlainText(n)[i]
  {
    hide HexOf;
    var s := Stamped(n);
    StampedNibbles(n[6], n[8]);
    forall k | 0 <= k < 32 && k != 12 && k != 16 ensures NibbleOf(s, k) == NibbleOf(n, k) {
      if k / 2 == 6 { assert k == 13; }
      if k / 2 == 8 { assert k == 17; }
    }
    assert NibbleOf(s, 12) == 4;
    VariantDigit(NibbleOf(s, 16));
  }

  lemma StampedNibbles(v: bv8, w: bv8)
    ensures ((v & 0x0f) | 0x40) >> 4 == 4 && ((v & 0x0f) | 0x40) & 0x0f == v & 0x0f
    ensures 8 <= ((w & 0x3f) | 0x80) >> 4 <= 11 && ((w & 0x3f) | 0x80) & 0x0f == w & 0x0f
  {
  }

  lemma VariantDigit(d: bv8)
    requires 8 <= d <= 11
    ensures HexOf(d) == 0x38 || HexOf(d) == 0x39 || HexOf(d) == 0x61 || HexOf(d) == 0x62
    ensures HexOf(4) == 0x34
  {
  }
}
