/** The text forms of a UUID in sole.hpp: `base62`, `str` and the `rebuild` that reads both. */
module SoleUuid {
  import opened Arithmetic
  import opened Text

  const LIMIT: int := 0x1_0000_0000_0000_0000

  type Word64 = x: int | 0 <= x < 0x1_0000_0000_0000_0000

  datatype Uuid = Uuid(ab: Word64, cd: Word64)

  // ---------------------------------------------------------------------
  // Base 62, the writing side
  // ---------------------------------------------------------------------

  /** `base62[d]`: digits, then upper case, then lower case. */
  function Digit62(d: int): byte
    requires 0 <= d < 62
  {
    if d < 10 then '0' + d as char
    else if d < 36 then 'A' + (d - 10) as char
    else 'a' + (d - 36) as char
  }

  /** The base-62 digits of n, most significant first, at least one. */
  function Digits62(n: nat): (r: text)
    ensures r != []
  {
    if n < 62 then [Digit62(n)] else Digits62(n / 62) + [Digit62(n % 62)]
  }

  function Pow62(k: nat): nat {
    if k == 0 then 1 else 62 * Pow62(k - 1)
  }

  lemma {:induction false} DigitsFit(n: nat, k: nat)
    requires n < Pow62(k) && k > 0
    ensures |Digits62(n)| <= k
  {
    if n >= 62 && k > 1 { DigitsFit(n / 62, k - 1); }
  }

  lemma {:induction false} DigitsNeeded(n: nat, k: nat)
    requires n >= Pow62(k)
    ensures |Digits62(n)| > k
  {
    if k > 0 { DigitsNeeded(n / 62, k - 1); }
  }

  lemma ElevenDigits()
    ensures Pow62(11) == 52036560683837093888 && Pow62(10) == 839299365868340224
  {
    assert Pow62(4) == 14776336;
    assert Pow62(8) == 218340105584896;
  }

  /** A word needs at most eleven digits, and the largest needs all eleven. */
  lemma WordDigits(n: Word64)
    ensures |Digits62(n)| <= 11
    ensures n >= 839299365868340224 ==> |Digits62(n)| == 11
  {
    ElevenDigits();
    DigitsFit(n, 11);
    if n >= 839299365868340224 { DigitsNeeded(n, 10); }
  }

  function Base62Text(u: Uuid): text {
    Digits62(u.ab) + ['-'] + Digits62(u.cd)
  }

  /** One do-while of `base62`: the digits of n go before position `end`, never before `floor`. */
  method WriteDigits(res: array<byte>, end: nat, floor: nat, n: Word64) returns (start: nat)
    requires floor + 11 <= end <= res.Length
    modifies res
    ensures floor <= start <= end
    ensures res[start..end] == Digits62(n)
    ensures res[..start] == old(res[..start]) && res[end..] == old(res[end..])
  {
    WordDigits(n);
    var left: Word64 := n;
    start := end;
    while true
      invariant floor <= start <= end
      invariant Digits62(left) + res[start..end] == Digits62(n) && start - |Digits62(left)| >= floor
      invariant res[..start] == old(res[..start]) && res[end..] == old(res[end..])
      decreases left
    {
      start := start - 1;
      res[start] := Digit62(left % 62);
      assert res[start..end] == [Digit62(left % 62)] + res[start + 1..end];
      left := left / 62;
      if left == 0 { break; }
    }
  }

  /** `uuid::base62`: filled from the back of a 24-byte buffer that starts with its terminator. */
  method Base62(u: Uuid) returns (r: text)
    ensures r == Base62Text(u)
  {
    var res := new byte[24];
    res[23] := '\0';
    var end := WriteDigits(res, 23, 12, u.cd);
    ghost var lower := Digits62(u.cd);
    end := end - 1;
    res[end] := '-';
    assert res[end + 1..23] == lower;
    ghost var mark := end;
    end := WriteDigits(res, end, 0, u.ab);
    assert res[mark..23] == ['-'] + lower by {
      assert res[mark..][..23 - mark] == res[mark..23];
    }
    assert res[end..23] == res[end..mark] + res[mark..23];
    r := res[end..23];
  }

  // ---------------------------------------------------------------------
  // Base 62, the reading side: everything is 64-bit unsigned arithmetic
  // ---------------------------------------------------------------------

  /** `strpos`: comparisons on the signed char, the difference converted to `size_t`. */
  function Strpos(ch: byte): Word64 {
    var v := Signed(ch);
    (if v >= 97 then v - 97 + 36 else if v >= 65 then v - 65 + 10 else v - 48) % 0x1_0000_0000_0000_0000
  }

  /** The character at i; one past the end of a C++ string is its terminator. */
  function At(s: text, i: nat): byte
    requires i <= |s|
  {
    if i == |s| then '\0' else s[i]
  }

  /** What `rebase62` holds after reading the characters of s. */
  function Wrapped62(s: text): Word64
    requires s != []
  {
    if |s| == 1 then Strpos(s[0])
    else (62 * Wrapped62(s[..|s| - 1]) + Strpos(s[|s| - 1])) % 0x1_0000_0000_0000_0000
  }

  /** The same without any wrap-around: the number a digit string stands for. */
  function Value62(s: text): nat {
    if s == [] then 0 else 62 * Value62(s[..|s| - 1]) + Strpos(s[|s| - 1])
  }

  /** `rebase62(input + from, limit)`: at least the first character is read. */
  function Rebased(s: text, from: nat, limit: nat): Word64
    requires from + limit <= |s|
  {
    if limit == 0 then Strpos(At(s, from)) else Wrapped62(s[from..from + limit])
  }

  method Rebase62(s: text, from: nat, limit: nat) returns (res: Word64)
    requires from + limit <= |s|
    ensures res == Rebased(s, from, limit)
  {
    res := Strpos(At(s, from));
    var i := 1;
    while i < limit
      invariant 1 <= i && (limit > 0 ==> i <= limit)
      invariant limit > 0 ==> res == Wrapped62(s[from..from + i])
      invariant limit == 0 ==> res == Strpos(At(s, from))
    {
      assert s[from..from + i + 1][..i] == s[from..from + i];
      res := (62 * res + Strpos(s[from + i])) % 0x1_0000_0000_0000_0000;
      i := i + 1;
    }
  }

  predicate IsDigit62(c: byte) {
    IsDigit(c) || IsUpper(c) || IsLower(c)
  }

  lemma DigitRoundTrip(d: int)
    requires 0 <= d < 62
    ensures IsDigit62(Digit62(d)) && Strpos(Digit62(d)) == d
  {
  }

  lemma StrposRoundTrip(c: byte)
    requires IsDigit62(c)
    ensures Strpos(c) < 62 && Digit62(Strpos(c)) == c
  {
  }

  predicate AllDigits(s: text) {
    forall i :: 0 <= i < |s| ==> IsDigit62(s[i])
  }

  lemma {:induction false} DigitsAreDigits(n: nat)
    ensures AllDigits(Digits62(n))
  {
    DigitRoundTrip(n % 62);
    if n >= 62 { DigitsAreDigits(n / 62); }
  }

  /** The digits of n stand for n. */
  lemma {:induction false} ValueOfDigits(n: nat)
    ensures Value62(Digits62(n)) == n
  {
    DigitRoundTrip(n % 62);
    var d := Digits62(n);
    if n < 62 {
      assert d[..0] == [];
    } else {
      ValueOfDigits(n / 62);
      assert d[..|d| - 1] == Digits62(n / 62);
    }
  }

  lemma {:induction false} ValueOfPrefix(s: text, k: nat)
    requires k <= |s|
    ensures Value62(s[..k]) <= Value62(s)
  {
    if k == |s| {
      assert s[..k] == s;
    } else {
      ValueOfPrefix(s[..|s| - 1], k);
      assert s[..|s| - 1][..k] == s[..k];
    }
  }

  /** Where the value fits in 64 bits, nothing wraps: not at the end and not on the way. */
  lemma {:induction false} NoWrap(s: text)
    requires s != [] && Value62(s) < 0x1_0000_0000_0000_0000
    ensures Wrapped62(s) == Value62(s)
  {
    if |s| == 1 {
      assert s[..0] == [];
    } else {
      ValueOfPrefix(s, |s| - 1);
      NoWrap(s[..|s| - 1]);
    }
  }

  /** In general `rebase62` computes the value modulo 2^64. */
  lemma {:induction false} WrapsModulo(s: text)
    requires s != []
    ensures Wrapped62(s) == Value62(s) % 0x1_0000_0000_0000_0000
  {
    if |s| == 1 {
      assert s[..0] == [];
    } else {
      WrapsModulo(s[..|s| - 1]);
      var v: nat, w: nat, d: nat := Value62(s[..|s| - 1]), Wrapped62(s[..|s| - 1]), Strpos(s[|s| - 1]);
      var q := v / 0x1_0000_0000_0000_0000;
      assert 62 * v + d == 0x1_0000_0000_0000_0000 * (62 * q) + (62 * w + d);
      ModShift(62 * w + d, 62 * q);
    }
  }

  lemma ModShift(n: nat, q: nat)
    ensures (0x1_0000_0000_0000_0000 * q + n) % 0x1_0000_0000_0000_0000 == n % 0x1_0000_0000_0000_0000
  {
  }

  // ---------------------------------------------------------------------
  // rebuild
  // ---------------------------------------------------------------------

  /** `find_first_of("-", from)`; the length when there is none. */
  function FindDash(s: text, from: nat): (r: nat)
    requires from <= |s|
    ensures from <= r <= |s|
    ensures forall i :: from <= i < r ==> s[i] != '-'
    ensures r < |s| ==> s[r] == '-'
    decreases |s| - from
  {
    if from == |s| || s[from] == '-' then from else FindDash(s, from + 1)
  }

  lemma FindDashIs(s: text, from: nat, k: nat)
    requires from <= k <= |s|
    requires forall i :: from <= i < k ==> s[i] != '-'
    requires k < |s| ==> s[k] == '-'
    ensures FindDash(s, from) == k
  {
  }

  predicate HasOneDash(s: text) {
    var k := FindDash(s, 0);
    k < |s| && FindDash(s, k + 1) == |s|
  }

  predicate HasTwoDashes(s: text) {
    var k := FindDash(s, 0);
    k < |s| && FindDash(s, k + 1) < |s|
  }

  /** `decode`: a character that is no hex digit counts as zero. */
  function Decode(ch: byte): int
    ensures 0 <= Decode(ch) < 16
  {
    if 'a' <= ch <= 'f' then ch as int - 97 + 10
    else if 'A' <= ch <= 'F' then ch as int - 65 + 10
    else if '0' <= ch <= '9' then ch as int - 48
    else 0
  }

  /** `w << 4 | decode(c)`: the shifted word ends in four zero bits, so `|` is `+`. */
  function Shifted(w: Word64, c: byte): Word64 {
    (16 * w) % 0x1_0000_0000_0000_0000 + Decode(c)
  }

  /** The word read from the characters i..j, leaving out the two positions that hold dashes. */
  function HexRead(s: text, i: nat, j: nat, skip1: nat, skip2: nat): Word64
    requires i <= j <= |s|
  {
    if i == j then 0
    else
      var before := HexRead(s, i, j - 1, skip1, skip2);
      if j - 1 == skip1 || j - 1 == skip2 then before
      else Shifted(before, s[j - 1])
  }

  /** The text with the terminator that `operator[]` gives at its end. */
  function Terminated(s: text): text {
    s + ['\0']
  }

  /** A dash in one of the four places of the classic form. */
  predicate Classic(s: text)
    requires |s| >= 23
  {
    var t := Terminated(s);
    t[8] == '-' || t[13] == '-' || t[18] == '-' || t[23] == '-'
  }

  /** The texts in which no character after the terminator is looked at: with two dashes or more there have to be
      the four places, and 36 characters, terminator included, when one of them holds a dash. */
  predicate Readable(s: text) {
    HasTwoDashes(s) ==> |s| >= 35 || (|s| >= 23 && !Classic(s))
  }

  function Rebuilt(s: text): Uuid
    requires Readable(s)
  {
    var k := FindDash(s, 0);
    if HasOneDash(s) then Uuid(Rebased(s, 0, k), Rebased(s, k + 1, |s| - k - 1))
    else if HasTwoDashes(s) && Classic(s) then
      Uuid(HexRead(Terminated(s), 0, 18, 8, 13), HexRead(Terminated(s), 19, 36, 23, 23))
    else Uuid(0, 0)
  }

  method Rebuild(s: text) returns (u: Uuid)
    requires Readable(s)
    ensures u == Rebuilt(s)
  {
    u := Uuid(0, 0);
    var idx := FindDash(s, 0);
    if idx == |s| { return; }
    if FindDash(s, idx + 1) == |s| {
      var ab := Rebase62(s, 0, idx);
      var cd := Rebase62(s, idx + 1, |s| - (idx + 1));
      return Uuid(ab, cd);
    }
    var t := Terminated(s);
    if t[8] == '-' || t[13] == '-' || t[18] == '-' || t[23] == '-' {
      var ab := ReadHex(t, 0, 18, 8, 13);
      var cd := ReadHex(t, 19, 36, 23, 23);
      return Uuid(ab, cd);
    }
  }

  /** What is read does not depend on what follows. */
  lemma {:induction false} HexReadPrefix(s: text, more: text, i: nat, j: nat, skip1: nat, skip2: nat)
    requires i <= j <= |s|
    ensures HexRead(s + more, i, j, skip1, skip2) == HexRead(s, i, j, skip1, skip2)
    decreases j - i
  {
    hide Shifted;
    if i < j { HexReadPrefix(s, more, i, j - 1, skip1, skip2); }
  }

  lemma RebuiltClassic(s: text)
    requires HasTwoDashes(s) && |s| == 36 && Classic(s)
    ensures Rebuilt(s) == Uuid(HexRead(s, 0, 18, 8, 13), HexRead(s, 19, 36, 23, 23))
  {
    HexReadPrefix(s, ['\0'], 0, 18, 8, 13);
    HexReadPrefix(s, ['\0'], 19, 36, 23, 23);
  }

  method ReadHex(s: text, i: nat, j: nat, skip1: nat, skip2: nat) returns (w: Word64)
    requires i <= j <= |s|
    ensures w == HexRead(s, i, j, skip1, skip2)
  {
    hide Shifted;
    w := 0;
    for k := i to j
      invariant w == HexRead(s, i, k, skip1, skip2)
    {
      if k == skip1 || k == skip2 { continue; }
      w := Shifted(w, s[k]);
    }
  }

  /** Reading back what `base62` wrote gives the same UUID, for every UUID. */
  lemma Base62RoundTrip(u: Uuid)
    ensures HasOneDash(Base62Text(u)) && Rebuilt(Base62Text(u)) == u
  {
    hide Digits62, Rebased;
    var a, c := Digits62(u.ab), Digits62(u.cd);
    var s := Base62Text(u);
    DigitsAreDigits(u.ab); DigitsAreDigits(u.cd);
    FindDashIs(s, 0, |a|);
    forall i | |a| + 1 <= i < |s| ensures s[i] != '-' {
      assert s[i] == c[i - |a| - 1];
    }
    FindDashIs(s, |a| + 1, |s|);
    assert s[0..|a|] == a && s[|a| + 1..|s|] == c;
    ReadDigits(s, 0, |a|, u.ab);
    ReadDigits(s, |a| + 1, |c|, u.cd);
  }

  lemma ReadDigits(s: text, from: nat, n: nat, w: Word64)
    requires from + n <= |s| && s[from..from + n] == Digits62(w)
    ensures Rebased(s, from, n) == w
  {
    ValueOfDigits(w);
    NoWrap(Digits62(w));
  }

  /** One half of a text that is its own base-62 form. */
  predicate Canonical62(h: text) {
    h != [] && AllDigits(h) && (|h| > 1 ==> h[0] != '0') && Value62(h) < 0x1_0000_0000_0000_0000
  }

  lemma {:induction false} DigitsOfValue(h: text)
    requires h != [] && AllDigits(h) && (|h| > 1 ==> h[0] != '0')
    ensures Digits62(Value62(h)) == h
    ensures h[0] != '0' ==> Value62(h) > 0
  {
    hide Strpos, Digit62, IsDigit62;
    var front, c := h[..|h| - 1], h[|h| - 1];
    StrposRoundTrip(c);
    assert h == front + [c];
    if front == [] {
      DigitsOfOne(c);
    } else {
      DigitsOfValue(front);
    }
  }

  lemma DigitsOfOne(c: byte)
    requires IsDigit62(c)
    ensures Value62([c]) == Strpos(c) && Digits62(Strpos(c)) == [c]
    ensures c != '0' ==> Strpos(c) > 0
  {
    StrposRoundTrip(c);
    assert [c][..0] == [];
  }

  lemma {:induction false} NoLeadingZero(n: nat)
    ensures n > 0 ==> Digits62(n)[0] != '0'
    ensures n == 0 ==> Digits62(n) == "0"
  {
    if n >= 62 { NoLeadingZero(n / 62); }
  }

  lemma CanonicalReads(s: text, from: nat, n: nat)
    requires from + n <= |s| && Canonical62(s[from..from + n])
    ensures Digits62(Rebased(s, from, n)) == s[from..from + n]
  {
    hide Digits62, Rebased, Value62, AllDigits;
    var h := s[from..from + n];
    DigitsOfValue(h);
    ReadDigits(s, from, n, Value62(h));
  }

  /** The two halves of a base-62 text are determined by the text. */
  lemma HalvesOfText(u: Uuid, s: text)
    requires s == Base62Text(u)
    ensures var k := FindDash(s, 0);
            k < |s| && s[..k] == Digits62(u.ab) && s[k + 1..] == Digits62(u.cd)
  {
    hide Digits62, AllDigits;
    var d := Digits62(u.ab);
    forall i | 0 <= i < |d| ensures s[i] != '-' {
      DigitsAreDigits(u.ab);
      NoDashAmongDigits(d, i);
    }
    FindDashIs(s, 0, |d|);
  }

  lemma NoDashAmongDigits(d: text, i: nat)
    requires AllDigits(d) && i < |d|
    ensures d[i] != '-'
  {
  }

  /** Printing what was read gives the text back exactly when both halves are canonical. */
  lemma Base62TextOfRebuilt(s: text)
    requires HasOneDash(s)
    ensures var k := FindDash(s, 0);
            Base62Text(Rebuilt(s)) == s <==> Canonical62(s[..k]) && Canonical62(s[k + 1..])
  {
    hide Digits62, Rebased, Canonical62;
    var k := FindDash(s, 0);
    var n := |s| - k - 1;
    assert s[0..0 + k] == s[..k];
    assert k + 1 + n == |s| && s[k + 1..|s|] == s[k + 1..];
    assert s == s[..k] + ['-'] + s[k + 1..];
    if Canonical62(s[..k]) && Canonical62(s[k + 1..]) {
      CanonicalReads(s, 0, k);
      CanonicalReads(s, k + 1, n);
    }
    var u := Rebuilt(s);
    if Base62Text(u) == s {
      HalvesOfText(u, s);
      CanonicalDigits(u.ab); CanonicalDigits(u.cd);
    }
  }

  lemma CanonicalDigits(n: Word64)
    ensures Canonical62(Digits62(n))
  {
    DigitsAreDigits(n);
    NoLeadingZero(n);
    ValueOfDigits(n);
  }

  // ---------------------------------------------------------------------
  // The classic form
  // ---------------------------------------------------------------------

  /** `w >> 4 * bit & 0x0f`. */
  function Nibble(w: Word64, bit: nat): (r: int)
    ensures 0 <= r < 16
  {
    w / Pow16(bit) % 16
  }

  /** `encode[d]`. */
  function HexDigit(d: int): byte
    requires 0 <= d < 16
  {
    if d < 10 then '0' + d as char else 'a' + (d - 10) as char
  }

  /** The character at position i of the 8-4-4-4-12 form. */
  function HexChar(u: Uuid, i: nat): byte
    requires i < 36
  {
    if i == 8 || i == 13 || i == 18 || i == 23 then '-'
    else if i < 8 then HexDigit(Nibble(u.ab, 15 - i))
    else if i < 13 then HexDigit(Nibble(u.ab, 16 - i))
    else if i < 18 then HexDigit(Nibble(u.ab, 17 - i))
    else if i < 23 then HexDigit(Nibble(u.cd, 34 - i))
    else HexDigit(Nibble(u.cd, 35 - i))
  }

  function HexText(u: Uuid): (r: text)
    ensures |r| == 36
    ensures forall i :: 0 <= i < 36 ==> r[i] == HexChar(u, i)
  {
    seq(36, i requires 0 <= i < 36 => HexChar(u, i))
  }

  /** `uuid::str`: two loops that overwrite the template's zeros, skipping its dashes. */
  method Str(u: Uuid) returns (r: text)
    ensures r == HexText(u)
  {
    hide Nibble, HexDigit;
    var uustr := new byte[36](i => if i == 8 || i == 13 || i == 18 || i == 23 then '-' else '0');
    var bit := 15;
    for i := 0 to 18
      invariant bit == if i <= 8 then 15 - i else if i <= 13 then 16 - i else 17 - i
      invariant forall k :: 0 <= k < i ==> uustr[k] == HexChar(u, k)
      invariant forall k :: i <= k < 36 && (k == 8 || k == 13 || k == 18 || k == 23) ==> uustr[k] == '-'
    {
      if i == 8 || i == 13 { continue; }
      uustr[i] := HexDigit(Nibble(u.ab, bit));
      bit := bit - 1;
    }
    bit := 15;
    for i := 18 to 36
      invariant bit == if i <= 18 then 15 else if i <= 23 then 34 - i else 35 - i
      invariant forall k :: 0 <= k < i ==> uustr[k] == HexChar(u, k)
      invariant forall k :: i <= k < 36 && (k == 18 || k == 23) ==> uustr[k] == '-'
    {
      if i == 18 || i == 23 { continue; }
      uustr[i] := HexDigit(Nibble(u.cd, bit));
      bit := bit - 1;
    }
    r := uustr[..];
  }

  predicate IsHexDigit(c: byte) {
    '0' <= c <= '9' || 'a' <= c <= 'f'
  }

  lemma HexDigitRoundTrip(d: int)
    requires 0 <= d < 16
    ensures IsHexDigit(HexDigit(d)) && Decode(HexDigit(d)) == d
  {
  }

  lemma DecodeRoundTrip(c: byte)
    requires IsHexDigit(c)
    ensures HexDigit(Decode(c)) == c
  {
  }

  /** The leading nibbles of a word: what is left of `bits` nibbles on the right. */
  lemma TopStep(w: nat, bits: nat)
    ensures 16 * (w / Pow16(bits + 1)) + w / Pow16(bits) % 16 == w / Pow16(bits)
  {
    var p := Pow16(bits);
    var q, r := w / p, w % p;
    var q', r' := q / 16, q % 16;
    assert w == p * q + r;
    Expand(p, q', r');
    assert w == (16 * p) * q' + (p * r' + r);
    Below(p, 16, r', r);
    DivUnique(w, 16 * p, q', p * r' + r);
  }

  lemma Expand(p: nat, q: nat, r: nat)
    ensures p * (16 * q + r) == (16 * p) * q + p * r
  {
  }

  lemma Pow16Of16()
    ensures Pow16(16) == 0x1_0000_0000_0000_0000
  {
    assert Pow16(6) == 0x100_0000;
    assert Pow16(12) == 0x1_0000_0000_0000;
  }

  /** A stretch of the text whose characters are the nibbles of w, from `bits` down, and at most two dashes. */
  ghost predicate Spells(s: text, i: nat, j: nat, skip1: nat, skip2: nat, w: Word64, bits: nat)
    requires i <= j <= |s|
    decreases j - i
  {
    if i == j then bits == 16
    else if j - 1 == skip1 || j - 1 == skip2 then Spells(s, i, j - 1, skip1, skip2, w, bits)
    else bits < 16 && s[j - 1] == HexDigit(Nibble(w, bits)) && Spells(s, i, j - 1, skip1, skip2, w, bits + 1)
  }

  /** Reading the leading nibbles gives the leading part of the word, without overflow. */
  lemma {:induction false} ReadSpelled(s: text, i: nat, j: nat, skip1: nat, skip2: nat, w: Word64, bits: nat)
    requires i <= j <= |s| && Spells(s, i, j, skip1, skip2, w, bits)
    ensures HexRead(s, i, j, skip1, skip2) == w / Pow16(bits)
    decreases j - i
  {
    hide Nibble, HexDigit, Pow16;
    if i == j {
      Pow16Of16();
      WordTop(w);
    } else if j - 1 == skip1 || j - 1 == skip2 {
      ReadSpelled(s, i, j - 1, skip1, skip2, w, bits);
    } else {
      ReadSpelled(s, i, j - 1, skip1, skip2, w, bits + 1);
      TopNibble(w, bits);
    }
  }

  lemma WordTop(w: Word64)
    ensures w / 0x1_0000_0000_0000_0000 == 0
  {
  }

  lemma TopNibble(w: Word64, bits: nat)
    ensures 0 <= w / Pow16(bits + 1) < 0x1_0000_0000_0000_0000
    ensures Shifted(w / Pow16(bits + 1), HexDigit(Nibble(w, bits))) == w / Pow16(bits)
  {
    TopStep(w, bits);
    HexDigitRoundTrip(Nibble(w, bits));
    var q := w / Pow16(bits);
    assert q <= w by { QuotientAtMost(w, Pow16(bits)); }
    assert 0 <= w / Pow16(bits + 1) by { QuotientAtMost(w, Pow16(bits + 1)); }
  }

  /** How many nibbles of the first word are still to come after the first j characters. */
  function LeftAb(j: nat): int { if j <= 8 then 16 - j else if j <= 13 then 17 - j else 18 - j }

  function LeftCd(j: nat): int { if j <= 23 then 35 - j else 36 - j }

  lemma {:induction false} HexTextSpells(u: Uuid, j: nat)
    ensures j <= 18 ==> LeftAb(j) >= 0 && Spells(HexText(u), 0, j, 8, 13, u.ab, LeftAb(j))
    ensures 19 <= j <= 36 ==> LeftCd(j) >= 0 && Spells(HexText(u), 19, j, 23, 23, u.cd, LeftCd(j))
  {
    hide Nibble, HexDigit;
    if 0 < j <= 36 && j != 19 { HexTextSpells(u, j - 1); }
  }

  /** Reading back the classic form gives the same UUID, for every UUID. */
  lemma HexRoundTrip(u: Uuid)
    ensures HasTwoDashes(HexText(u)) && Rebuilt(HexText(u)) == u
  {
    hide HexRead, Spells, FindDash, Nibble, HexDigit;
    var s := HexText(u);
    HexTextDashes(u);
    RebuiltClassic(s);
    HexTextSpells(u, 18);
    HexTextSpells(u, 36);
    ReadSpelled(s, 0, 18, 8, 13, u.ab, 0);
    ReadSpelled(s, 19, 36, 23, 23, u.cd, 0);
    Whole(u.ab); Whole(u.cd);
  }

  lemma HexTextDashes(u: Uuid)
    ensures HasTwoDashes(HexText(u))
  {
    var s := HexText(u);
    forall i | 0 <= i < 8 ensures s[i] != '-' { HexDigitRoundTrip(Nibble(u.ab, 15 - i)); }
    forall i | 9 <= i < 13 ensures s[i] != '-' { HexDigitRoundTrip(Nibble(u.ab, 16 - i)); }
    FindDashIs(s, 0, 8);
    FindDashIs(s, 9, 13);
  }

  /** The lower-case 8-4-4-4-12 form. */
  predicate WellFormedHex(s: text) {
    |s| == 36 && s[8] == '-' && s[13] == '-' && s[18] == '-' && s[23] == '-'
    && forall i :: 0 <= i < 36 && i != 8 && i != 13 && i != 18 && i != 23 ==> IsHexDigit(s[i])
  }

  /** How many hex digits `HexRead` takes from the characters i..j. */
  function Count(i: nat, j: nat, skip1: nat, skip2: nat): nat
    requires i <= j
  {
    if i == j then 0
    else Count(i, j - 1, skip1, skip2) + (if j - 1 == skip1 || j - 1 == skip2 then 0 else 1)
  }

  lemma {:induction false} ReadBound(s: text, i: nat, j: nat, skip1: nat, skip2: nat)
    requires i <= j <= |s| && Count(i, j, skip1, skip2) <= 16
    ensures HexRead(s, i, j, skip1, skip2) < Pow16(Count(i, j, skip1, skip2))
    decreases j - i
  {
    hide Decode;
    if i < j {
      ReadBound(s, i, j - 1, skip1, skip2);
      Pow16AtMost(Count(i, j - 1, skip1, skip2));
    }
  }

  lemma {:induction false} Pow16AtMost(k: nat)
    requires k <= 16
    ensures Pow16(k) <= 0x1_0000_0000_0000_0000
    decreases 16 - k
  {
    if k == 16 { Pow16Of16(); } else { Pow16AtMost(k + 1); }
  }

  lemma {:induction false} Pow16Strict(k: nat)
    requires k < 16
    ensures 16 * Pow16(k) <= 0x1_0000_0000_0000_0000
  {
    Pow16AtMost(k + 1);
  }

  /** A shift that does not overflow can be taken back. */
  lemma Unshift(w: Word64, c: byte)
    requires 16 * w < 0x1_0000_0000_0000_0000
    ensures Shifted(w, c) / 16 == w && Shifted(w, c) % 16 == Decode(c)
  {
  }

  /** What is read from hex digits is spelled by them. */
  lemma {:induction false} SpelledByRead(s: text, i: nat, j: nat, skip1: nat, skip2: nat, w: Word64, bits: nat)
    requires i <= j <= |s|
    requires forall k :: i <= k < j && k != skip1 && k != skip2 ==> IsHexDigit(s[k])
    requires Count(i, j, skip1, skip2) + bits == 16
    requires HexRead(s, i, j, skip1, skip2) == w / Pow16(bits)
    ensures Spells(s, i, j, skip1, skip2, w, bits)
    decreases j - i
  {
    hide Shifted, Pow16, IsHexDigit, HexDigit;
    if i < j {
      if j - 1 == skip1 || j - 1 == skip2 {
        SpelledByRead(s, i, j - 1, skip1, skip2, w, bits);
      } else {
        var before := HexRead(s, i, j - 1, skip1, skip2);
        ReadBound(s, i, j - 1, skip1, skip2);
        Pow16Strict(Count(i, j - 1, skip1, skip2));
        Unshift(before, s[j - 1]);
        Divide16(w, bits);
        DecodeRoundTrip(s[j - 1]);
        SpelledByRead(s, i, j - 1, skip1, skip2, w, bits + 1);
      }
    }
  }

  lemma Divide16(w: nat, bits: nat)
    ensures w / Pow16(bits + 1) == w / Pow16(bits) / 16
  {
    TopStep(w, bits);
  }

  /** The characters of a spelled word, one by one. */
  lemma {:induction false} SpelledAb(s: text, u: Uuid, j: nat, p: nat)
    requires p < j <= 18 <= |s| && p != 8 && p != 13
    requires Spells(s, 0, j, 8, 13, u.ab, LeftAb(j))
    ensures s[p] == HexChar(u, p)
    decreases j
  {
    hide Nibble, HexDigit;
    if p < j - 1 { SpelledAb(s, u, j - 1, p); }
  }

  lemma {:induction false} SpelledCd(s: text, u: Uuid, j: nat, p: nat)
    requires 19 <= p < j <= 36 <= |s| && p != 23
    requires Spells(s, 19, j, 23, 23, u.cd, LeftCd(j))
    ensures s[p] == HexChar(u, p)
    decreases j
  {
    hide Nibble, HexDigit;
    if p < j - 1 { SpelledCd(s, u, j - 1, p); }
  }

  lemma CountAll()
    ensures Count(0, 18, 8, 13) == 16 && Count(19, 36, 23, 23) == 16
  {
    assert Count(0, 8, 8, 13) == 8;
    assert Count(0, 13, 8, 13) == 12;
    assert Count(19, 23, 23, 23) == 4;
    assert Count(19, 30, 23, 23) == 10;
  }

  /** Printing what was read from a text with two dashes or more gives it back exactly when it is well formed. */
  lemma HexTextOfRebuilt(s: text)
    requires HasTwoDashes(s) && Readable(s)
    ensures HexText(Rebuilt(s)) == s <==> WellFormedHex(s)
  {
    hide HexRead, Spells, Pow16, HasTwoDashes, HexChar, Count;
    var u := Rebuilt(s);
    if WellFormedHex(s) {
      CountAll();
      PrintedBack(s);
    }
    if HexText(u) == s {
      HexTextWellFormed(u);
    }
  }

  lemma HexTextWellFormed(u: Uuid)
    ensures WellFormedHex(HexText(u))
  {
    hide Nibble, HexDigit, IsHexDigit;
    var s := HexText(u);
    forall i | 0 <= i < 36 && i != 8 && i != 13 && i != 18 && i != 23 ensures IsHexDigit(s[i]) {
      HexDigitRoundTrip(Nibble(if i < 18 then u.ab else u.cd,
        if i < 8 then 15 - i else if i < 13 then 16 - i else if i < 18 then 17 - i else if i < 23 then 34 - i else 35 - i));
    }
  }

  lemma PrintedBack(s: text)
    requires WellFormedHex(s) && HasTwoDashes(s)
    ensures HexText(Rebuilt(s)) == s
  {
    hide HexRead, Spells, Pow16, HasTwoDashes, Count, Nibble, HexDigit, IsHexDigit;
    RebuiltClassic(s);
    var u := Rebuilt(s);
    CountAll();
    Whole(u.ab); Whole(u.cd);
    SpelledByRead(s, 0, 18, 8, 13, u.ab, 0);
    SpelledByRead(s, 19, 36, 23, 23, u.cd, 0);
    forall p | 0 <= p < 36 ensures HexText(u)[p] == s[p] {
      if p < 18 && p != 8 && p != 13 { SpelledAb(s, u, 18, p); }
      if p > 18 && p != 23 { SpelledCd(s, u, 36, p); }
    }
  }

  lemma Whole(w: Word64)
    ensures w / Pow16(0) == w
  {
  }

  // ---------------------------------------------------------------------
  // Upper case
  // ---------------------------------------------------------------------

  /** The text with some of its hex letters in upper case. */
  predicate SameButCase(s: text, t: text) {
    |s| == |t| && forall i :: 0 <= i < |s| ==> t[i] == s[i] || ('a' <= s[i] <= 'f' && t[i] as int == s[i] as int - 32)
  }

  lemma {:induction false} ReadCaseAlike(s: text, t: text, i: nat, j: nat, skip1: nat, skip2: nat)
    requires SameButCase(s, t) && i <= j <= |s|
    ensures HexRead(s, i, j, skip1, skip2) == HexRead(t, i, j, skip1, skip2)
    decreases j - i
  {
    if i < j {
      ReadCaseAlike(s, t, i, j - 1, skip1, skip2);
      assert Decode(s[j - 1]) == Decode(t[j - 1]);
    }
  }

  /** The classic form may be written with upper-case letters: it is read as the same UUID, which prints as the form in
      lower case. */
  lemma UpperCaseReadsAlike(s: text, t: text)
    requires WellFormedHex(s) && SameButCase(s, t)
    ensures HasTwoDashes(t) && Readable(t) && Rebuilt(t) == Rebuilt(s) && HexText(Rebuilt(t)) == s
  {
    hide HexRead, FindDash, HexText, WellFormedHex;
    assert Dashed(s) && Dashed(t) by { WellFormedDashed(s, t); }
    DashedForm(s);
    DashedForm(t);
    RebuiltClassic(s);
    RebuiltClassic(t);
    ReadCaseAlike(s, t, 0, 18, 8, 13);
    ReadCaseAlike(s, t, 19, 36, 23, 23);
    HexTextOfRebuilt(s);
  }

  predicate Dashed(s: text) {
    |s| == 36 && s[8] == '-' && s[13] == '-' && (forall i :: 0 <= i < 8 ==> s[i] != '-') && forall i :: 9 <= i < 13 ==> s[i] != '-'
  }

  lemma WellFormedDashed(s: text, t: text)
    requires WellFormedHex(s) && SameButCase(s, t)
    ensures Dashed(s) && Dashed(t)
  {
    forall i | 0 <= i < 36 && i != 8 && i != 13 && i != 18 && i != 23 ensures s[i] != '-' && t[i] != '-' { assert IsHexDigit(s[i]); }
  }

  lemma DashedForm(s: text)
    requires Dashed(s)
    ensures HasTwoDashes(s) && Readable(s) && Classic(s)
  {
    FindDashIs(s, 0, 8);
    FindDashIs(s, 9, 13);
  }

  // ---------------------------------------------------------------------
  // The digits themselves
  // ---------------------------------------------------------------------

  /** Which digit stands for which number: ten digits, then the upper-case and the lower-case letters; and the first
      digit counts most. */
  lemma Alphabet(d: int)
    requires 0 <= d < 62
    ensures Digit62(0) == '0' && Digit62(9) == '9' && Digit62(10) == 'A' && Digit62(35) == 'Z' && Digit62(36) == 'a' && Digit62(61) == 'z'
    ensures d != 9 && d != 35 && d != 61 ==> Digit62(d + 1) as int == Digit62(d) as int + 1
    ensures Digits62(62 + d) == ['1', Digit62(d)]
  {
    assert (62 + d) / 62 == 1 && (62 + d) % 62 == d;
  }

  /** In the classic form the last digit of each half counts least. */
  lemma UnitsLast(d: int, e: int, i: nat)
    requires 0 <= d < 16 && 0 <= e < 16 && i < 36
    ensures HexText(Uuid(d, e))[i]
         == if i == 8 || i == 13 || i == 18 || i == 23 then '-' else if i == 17 then HexDigit(d) else if i == 35 then HexDigit(e) else '0'
  {
    hide HexDigit, Pow16;
    var u := Uuid(d, e);
    ZeroDigit();
    assert Pow16(0) == 1 by { Unit16(); }
    if i < 17 { SmallNibble(d, if i < 8 then 15 - i else if i < 13 then 16 - i else 17 - i); }
    if 18 < i < 35 { SmallNibble(e, if i < 23 then 34 - i else 35 - i); }
  }

  lemma Unit16()
    ensures Pow16(0) == 1
  {
  }

  lemma ZeroDigit()
    ensures HexDigit(0) == '0'
  {
  }

  lemma {:induction false} AtLeast16(k: nat)
    ensures k > 0 ==> Pow16(k) >= 16
  {
    if k > 1 { AtLeast16(k - 1); }
  }

  lemma SmallNibble(d: int, bit: nat)
    requires 0 <= d < 16
    ensures bit > 0 ==> Nibble(d, bit) == 0
  {
    AtLeast16(bit);
    if bit > 0 { DivUnique(d, Pow16(bit), 0, d); }
  }
}
