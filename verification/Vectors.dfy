/** The byte-vector operations that uuid_v4.h uses, as they are defined on the bytes of a register.
    A 128-bit register is 16 bytes, a 256-bit one 32, least significant byte first. */
module Vectors {

  /** Where the 128-bit half of byte i begins. */
  function HalfOf(i: nat): nat { if i < 16 then 0 else 16 }

  type Half = s: seq<bv8> | |s| == 16 witness seq(16, _ => 0)
  type Full = s: seq<bv8> | |s| == 32 witness seq(32, _ => 0)

  /** `_mm256_castsi128_si256`: the upper half is undefined. */
  function Widen(x: Half, undefined: Half): (r: Full)
    ensures forall i :: 0 <= i < 16 ==> r[i] == x[i]
  {
    x + undefined
  }

  /** `_mm256_castsi256_si128`. */
  function Narrow(x: Full): (r: Half)
    ensures forall i :: 0 <= i < 16 ==> r[i] == x[i]
  {
    x[..16]
  }

  /** `_mm256_set1_epi8`. */
  function Set1(b: bv8): (r: Full)
    ensures forall i :: 0 <= i < 32 ==> r[i] == b
  {
    seq(32, _ => b)
  }

  /** A byte of a quadword shifted right takes in the low bits of the byte above it. */
  function Srli64At(a: Full, n: bv8, i: nat): bv8
    requires 0 < n < 8 && i < 32
  {
    (a[i] >> n) | (if i % 8 < 7 then a[i + 1] << (8 - n) else 0)
  }

  /** `_mm256_srli_epi64`, for shifts of less than a byte. */
  function Srli64(a: Full, n: bv8): (r: Full)
    requires 0 < n < 8
    ensures forall i :: 0 <= i < 32 ==> r[i] == Srli64At(a, n, i)
  {
    seq(32, i requires 0 <= i < 32 => Srli64At(a, n, i))
  }

  /** A byte of a quadword shifted left takes in the high bits of the byte below it. */
  function Slli64At(a: Full, n: bv8, i: nat): bv8
    requires 0 < n < 8 && i < 32
  {
    (a[i] << n) | (if i % 8 > 0 then a[i - 1] >> (8 - n) else 0)
  }

  /** `_mm256_slli_epi64`, for shifts of less than a byte. */
  function Slli64(a: Full, n: bv8): (r: Full)
    requires 0 < n < 8
    ensures forall i :: 0 <= i < 32 ==> r[i] == Slli64At(a, n, i)
  {
    seq(32, i requires 0 <= i < 32 => Slli64At(a, n, i))
  }

  /** `_mm256_unpacklo_epi8`: within each half, the low eight bytes of a and b alternate. */
  function UnpackLo(a: Full, b: Full): (r: Full)
    ensures forall i :: 0 <= i < 32 ==> r[i] == (if i % 2 == 0 then a else b)[HalfOf(i) + (i - HalfOf(i)) / 2]
  {
    seq(32, i requires 0 <= i < 32 => (if i % 2 == 0 then a else b)[HalfOf(i) + (i - HalfOf(i)) / 2])
  }

  /** `_mm256_unpackhi_epi8`: the high eight bytes of each half. */
  function UnpackHi(a: Full, b: Full): (r: Full)
    ensures forall i :: 0 <= i < 32 ==> r[i] == (if i % 2 == 0 then a else b)[HalfOf(i) + 8 + (i - HalfOf(i)) / 2]
  {
    seq(32, i requires 0 <= i < 32 => (if i % 2 == 0 then a else b)[HalfOf(i) + 8 + (i - HalfOf(i)) / 2])
  }

  /** `_mm256_inserti128_si256(a, b, 1)`. */
  function InsertUpper(a: Full, b: Half): (r: Full)
    ensures forall i :: 0 <= i < 32 ==> r[i] == if i < 16 then a[i] else b[i - 16]
  {
    a[..16] + b
  }

  /** `_mm256_and_si256`, `_mm256_or_si256`, `_mm256_add_epi8`, `_mm256_sub_epi8`. */
  function And(a: Full, b: Full): (r: Full)
    ensures forall i :: 0 <= i < 32 ==> r[i] == a[i] & b[i]
  {
    seq(32, i requires 0 <= i < 32 => a[i] & b[i])
  }

  function Or(a: Full, b: Full): (r: Full)
    ensures forall i :: 0 <= i < 32 ==> r[i] == a[i] | b[i]
  {
    seq(32, i requires 0 <= i < 32 => a[i] | b[i])
  }

  function Add8(a: Full, b: Full): (r: Full)
    ensures forall i :: 0 <= i < 32 ==> r[i] == a[i] + b[i]
  {
    seq(32, i requires 0 <= i < 32 => a[i] + b[i])
  }

  function Sub8(a: Full, b: Full): (r: Full)
    ensures forall i :: 0 <= i < 32 ==> r[i] == a[i] - b[i]
  {
    seq(32, i requires 0 <= i < 32 => a[i] - b[i])
  }

  /** `_mm256_blendv_epi8`: the top bit of each mask byte chooses b. */
  function Blend(a: Full, b: Full, mask: Full): (r: Full)
    ensures forall i :: 0 <= i < 32 ==> r[i] == if mask[i] & 0x80 == 0 then a[i] else b[i]
  {
    seq(32, i requires 0 <= i < 32 => if mask[i] & 0x80 == 0 then a[i] else b[i])
  }

  /** `_mm256_shuffle_epi8`: within each half; an index with its top bit set gives zero. */
  function ShuffleAt(a: Full, idx: Full, i: nat): bv8
    requires i < 32
  {
    if idx[i] & 0x80 != 0 then 0 else a[HalfOf(i) + (idx[i] & 0x0f) as int]
  }

  function Shuffle(a: Full, idx: Full): (r: Full)
    ensures forall i :: 0 <= i < 32 ==> r[i] == ShuffleAt(a, idx, i)
  {
    seq(32, i requires 0 <= i < 32 => ShuffleAt(a, idx, i))
  }

  /** Four bytes as a 32-bit number. */
  function Join(b0: bv8, b1: bv8, b2: bv8, b3: bv8): bv32 {
    (b0 as bv32) | ((b1 as bv32) << 8) | ((b2 as bv32) << 16) | ((b3 as bv32) << 24)
  }

  /** The 32-bit lane k. */
  function Lane(a: Full, k: nat): bv32
    requires k < 8
  {
    Join(a[4 * k], a[4 * k + 1], a[4 * k + 2], a[4 * k + 3])
  }

  /** Byte j of a 32-bit lane. */
  function LaneByte(w: bv32, j: nat): bv8
    requires j < 4
  {
    (if j == 0 then w & 0xff else if j == 1 then (w >> 8) & 0xff else if j == 2 then (w >> 16) & 0xff else w >> 24) as bv8
  }

  /** `_mm256_set_epi32`, lanes named from the most significant down. */
  function SetEpi32At(e7: bv32, e6: bv32, e5: bv32, e4: bv32, e3: bv32, e2: bv32, e1: bv32, e0: bv32, i: nat): bv8
    requires i < 32
  {
    var k := i / 4;
    LaneByte(if k == 0 then e0 else if k == 1 then e1 else if k == 2 then e2 else if k == 3 then e3
             else if k == 4 then e4 else if k == 5 then e5 else if k == 6 then e6 else e7, i % 4)
  }

  function SetEpi32(e7: bv32, e6: bv32, e5: bv32, e4: bv32, e3: bv32, e2: bv32, e1: bv32, e0: bv32): (r: Full)
    ensures forall i :: 0 <= i < 32 ==> r[i] == SetEpi32At(e7, e6, e5, e4, e3, e2, e1, e0, i)
  {
    seq(32, i requires 0 <= i < 32 => SetEpi32At(e7, e6, e5, e4, e3, e2, e1, e0, i))
  }

  function Shl4(w: bv32): bv32 { w << 4 }

  /** `_mm256_sllv_epi32` with shifts of 4 and 0 in alternating lanes. */
  function SllAlternatingAt(a: Full, i: nat): bv8
    requires i < 32
  {
    var w := Lane(a, i / 4);
    LaneByte(if i / 4 % 2 == 0 then Shl4(w) else w, i % 4)
  }

  function SllAlternating(a: Full): (r: Full)
    ensures forall i :: 0 <= i < 32 ==> r[i] == SllAlternatingAt(a, i)
  {
    seq(32, i requires 0 <= i < 32 => SllAlternatingAt(a, i))
  }

  /** One 32-bit sum, modulo 2^32. */
  function Add32(v: bv32, w: bv32): bv32 { v + w }

  /** `_mm256_hadd_epi32(a, 0)`: sums of neighbouring lanes in the low quadword of each half. */
  function HaddZeroAt(a: Full, i: nat): bv8
    requires i < 32
  {
    var r := i - HalfOf(i);
    var k := HalfOf(i) / 4 + (if r < 4 then 0 else 2);
    if r < 8 then LaneByte(Add32(Lane(a, k), Lane(a, k + 1)), r % 4) else 0
  }

  function HaddZero(a: Full): (r: Full)
    ensures forall i :: 0 <= i < 32 ==> r[i] == HaddZeroAt(a, i)
  {
    seq(32, i requires 0 <= i < 32 => HaddZeroAt(a, i))
  }

  /** `_mm256_permute4x64_epi64(a, 0b00001000)`: quadwords 0, 2, 0, 0. */
  function Permute0200(a: Full): (r: Full)
    ensures forall i :: 0 <= i < 32 ==> r[i] == a[if 8 <= i < 16 then i + 8 else i % 8]
  {
    a[..8] + a[16..24] + a[..8] + a[..8]
  }
}
