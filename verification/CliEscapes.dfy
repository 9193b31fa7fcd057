/** Escape sequences in CLI11.hpp: `add_escaped_characters`, `remove_escaped_characters` and the
    UTF-8 of `append_codepoint`. */
module CliEscapes {
  import opened Arithmetic
  import opened Text

  /** What a C++ call returns, or the `std::invalid_argument` it throws. */
  datatype Result<+T> = Ok(value: T) | Invalid

  function Prepend(front: text, r: Result<text>): Result<text> {
    if r.Ok? then Ok(front + r.value) else Invalid
  }

  // ---------------------------------------------------------------------
  // Single-character escapes: "\b\t\n\f\r\"\\" against "btnfr\"\\"
  // ---------------------------------------------------------------------

  predicate Escapable(c: byte) {
    c == '\U{08}' || c == '\t' || c == '\n' || c == '\U{0C}' || c == '\r' || c == '\"' || c == '\\'
  }

  predicate IsCode(c: byte) {
    c == 'b' || c == 't' || c == 'n' || c == 'f' || c == 'r' || c == '\"' || c == '\\'
  }

  function CodeOf(c: byte): byte
    requires Escapable(c)
  {
    if c == '\U{08}' then 'b' else if c == '\t' then 't' else if c == '\n' then 'n'
    else if c == '\U{0C}' then 'f' else if c == '\r' then 'r' else c
  }

  function CharOf(c: byte): byte
    requires IsCode(c)
  {
    if c == 'b' then '\U{08}' else if c == 't' then '\t' else if c == 'n' then '\n'
    else if c == 'f' then '\U{0C}' else if c == 'r' then '\r' else c
  }

  predicate HasEscapable(s: text) {
    exists i :: 0 <= i < |s| && Escapable(s[i])
  }

  function EscapedChar(c: byte): (r: text)
    ensures r != []
  {
    if Escapable(c) then ['\\', CodeOf(c)] else [c]
  }

  function Escaped(s: text): text {
    if s == [] then [] else EscapedChar(s[0]) + Escaped(s[1..])
  }

  method AddEscapedCharacters(str: text) returns (out: text)
    ensures out == Escaped(str)
  {
    hide EscapedChar;
    out := [];
    for i := 0 to |str|
      invariant out + Escaped(str[i..]) == Escaped(str)
    {
      assert str[i..][1..] == str[i + 1..];
      out := out + EscapedChar(str[i]);
    }
  }

  // ---------------------------------------------------------------------
  // Code points
  // ---------------------------------------------------------------------

  const NO_HEX: int := 0xffff_ffff

  /** `hexConvert`: -1 as an unsigned 32-bit number for anything but a hex digit. */
  function HexConvert(hc: byte): (r: int)
    ensures 0 <= r <= 0xffff_ffff
  {
    if '0' <= hc <= '9' then hc as int - 48
    else if 'A' <= hc <= 'F' then hc as int - 55
    else if 'a' <= hc <= 'f' then hc as int - 87
    else NO_HEX
  }

  predicate IsHex(c: byte) {
    '0' <= c <= '9' || 'A' <= c <= 'F' || 'a' <= c <= 'f'
  }

  predicate AllHex(s: text) {
    forall i :: 0 <= i < |s| ==> IsHex(s[i])
  }

  /** The number a run of hex digits stands for. */
  function HexValue(s: text): (r: nat)
    requires AllHex(s)
  {
    if s == [] then 0 else 16 * HexValue(s[..|s| - 1]) + HexConvert(s[|s| - 1])
  }

  lemma {:induction false} HexValueBound(s: text)
    requires AllHex(s)
    ensures HexValue(s) < Pow16(|s|)
  {
    if s != [] { HexValueBound(s[..|s| - 1]); }
  }

  /** `append_codepoint`: what is pushed for a code. A surrogate throws; from 0x110000 on nothing
      is pushed and nothing is reported. */
  function Utf8(code: nat): Result<text> {
    if code < 0x80 then Ok([code as char])
    else if code < 0x800 then Ok([(0xC0 + code / 0x40) as char, (0x80 + code % 0x40) as char])
    else if code < 0x10000 then
      if 0xD800 <= code <= 0xDFFF then Invalid
      else Ok([(0xE0 + code / 0x1000) as char, (0x80 + code / 0x40 % 0x40) as char, (0x80 + code % 0x40) as char])
    else if code < 0x110000 then
      Ok([(0xF0 + code / 0x40000) as char, (0x80 + code / 0x1000 % 0x40) as char,
          (0x80 + code / 0x40 % 0x40) as char, (0x80 + code % 0x40) as char])
    else Ok([])
  }

  predicate IsScalar(code: nat) {
    code < 0xD800 || 0xE000 <= code < 0x110000
  }

  predicate IsTail(c: byte) { 0x80 <= c as int <= 0xBF }

  /** The syntax of UTF-8 byte sequences, section 4 of RFC 3629. */
  predicate Utf8Char(s: text) {
    || (|s| == 1 && s[0] as int <= 0x7F)
    || (|s| == 2 && 0xC2 <= s[0] as int <= 0xDF && IsTail(s[1]))
    || (|s| == 3 && IsTail(s[1]) && IsTail(s[2])
        && (|| (s[0] as int == 0xE0 && 0xA0 <= s[1] as int)
            || 0xE1 <= s[0] as int <= 0xEC
            || (s[0] as int == 0xED && s[1] as int <= 0x9F)
            || 0xEE <= s[0] as int <= 0xEF))
    || (|s| == 4 && IsTail(s[1]) && IsTail(s[2]) && IsTail(s[3])
        && (|| (s[0] as int == 0xF0 && 0x90 <= s[1] as int)
            || 0xF1 <= s[0] as int <= 0xF3
            || (s[0] as int == 0xF4 && s[1] as int <= 0x8F)))
  }

  /** The code point of a UTF-8 sequence: its value bits, most significant first. */
  function CodePoint(s: text): nat
    requires Utf8Char(s)
  {
    if |s| == 1 then s[0] as int
    else if |s| == 2 then (s[0] as int - 0xC0) * 0x40 + (s[1] as int - 0x80)
    else if |s| == 3 then (s[0] as int - 0xE0) * 0x1000 + (s[1] as int - 0x80) * 0x40 + (s[2] as int - 0x80)
    else (s[0] as int - 0xF0) * 0x40000 + (s[1] as int - 0x80) * 0x1000 + (s[2] as int - 0x80) * 0x40 + (s[3] as int - 0x80)
  }

  /** Every scalar value is encoded as the UTF-8 sequence that stands for it. */
  lemma Utf8Encodes(code: nat)
    requires IsScalar(code)
    ensures Utf8(code).Ok? && Utf8Char(Utf8(code).value) && CodePoint(Utf8(code).value) == code
  {
    if code < 0x80 {
    } else if code < 0x800 {
      Encodes2(code / 0x40, code % 0x40);
    } else if code < 0x10000 {
      var b, c := code / 0x40 % 0x40, code % 0x40;
      Sixes(code);
      Encodes3(code / 0x1000, b, c);
    } else {
      var b, c, d := code / 0x1000 % 0x40, code / 0x40 % 0x40, code % 0x40;
      Sixes(code);
      Encodes4(code / 0x40000, b, c, d);
    }
  }

  /** A number by its groups of six bits. */
  lemma Sixes(code: nat)
    ensures code == code / 0x1000 * 0x1000 + code / 0x40 % 0x40 * 0x40 + code % 0x40
    ensures code / 0x1000 == code / 0x40000 * 0x40 + code / 0x1000 % 0x40
  {
    assert code / 0x40 / 0x40 == code / 0x1000;
    assert code / 0x1000 / 0x40 == code / 0x40000;
  }

  lemma Encodes2(a: nat, b: nat)
    requires 2 <= a < 0x20 && b < 0x40
    ensures var s := [(0xC0 + a) as char, (0x80 + b) as char]; Utf8Char(s) && CodePoint(s) == a * 0x40 + b
  {
  }

  lemma Encodes3(a: nat, b: nat, c: nat)
    requires a < 0x10 && b < 0x40 && c < 0x40
    requires a * 0x1000 + b * 0x40 + c >= 0x800 && !(0xD800 <= a * 0x1000 + b * 0x40 + c < 0xE000)
    ensures var s := [(0xE0 + a) as char, (0x80 + b) as char, (0x80 + c) as char];
            Utf8Char(s) && CodePoint(s) == a * 0x1000 + b * 0x40 + c
  {
  }

  lemma Encodes4(a: nat, b: nat, c: nat, d: nat)
    requires b < 0x40 && c < 0x40 && d < 0x40
    requires 0x10000 <= a * 0x40000 + b * 0x1000 + c * 0x40 + d < 0x110000
    ensures a < 8
    ensures var s := [(0xF0 + a) as char, (0x80 + b) as char, (0x80 + c) as char, (0x80 + d) as char];
            Utf8Char(s) && CodePoint(s) == a * 0x40000 + b * 0x1000 + c * 0x40 + d
  {
  }

  /** Every UTF-8 sequence is what is pushed for its code point, and that is a scalar value. */
  lemma Utf8Decodes(s: text)
    requires Utf8Char(s)
    ensures IsScalar(CodePoint(s)) && Utf8(CodePoint(s)) == Ok(s)
  {
    if |s| == 1 {
      assert s == [s[0]];
    } else if |s| == 2 {
      assert s == [s[0], s[1]];
    } else if |s| == 3 {
      assert s == [s[0], s[1], s[2]];
      Groups(s[0] as int - 0xE0, s[1] as int - 0x80, s[2] as int - 0x80);
    } else {
      Decodes4(s);
    }
  }

  lemma Decodes4(s: text)
    requires Utf8Char(s) && |s| == 4
    ensures IsScalar(CodePoint(s)) && Utf8(CodePoint(s)) == Ok(s)
  {
    var a, b, c, d := s[0] as int - 0xF0, s[1] as int - 0x80, s[2] as int - 0x80, s[3] as int - 0x80;
    var code := CodePoint(s);
    assert s == [s[0], s[1], s[2], s[3]];
    Groups(a * 0x40 + b, c, d);
    assert code == (a * 0x40 + b) * 0x1000 + c * 0x40 + d;
    assert code / 0x1000 == a * 0x40 + b;
    assert code / 0x1000 / 0x40 == a && code / 0x1000 % 0x40 == b;
    assert code / 0x40000 == a;
  }

  lemma Groups(a: nat, b: nat, c: nat)
    requires b < 0x40 && c < 0x40
    ensures var n := a * 0x1000 + b * 0x40 + c; n / 0x1000 == a && n / 0x40 % 0x40 == b && n % 0x40 == c
  {
    var n := a * 0x1000 + b * 0x40 + c;
    assert n / 0x40 == a * 0x40 + b;
  }

  // ---------------------------------------------------------------------
  // remove_escaped_characters
  // ---------------------------------------------------------------------

  /** How many characters the escape sequence at the head of s takes. */
  function EscapeLength(s: text): (r: nat)
    requires |s| >= 2
    ensures r >= 2
  {
    if s[1] == 'u' then 6 else if s[1] == 'U' then 10 else 2
  }

  /** What it stands for, or the exception. */
  function EscapeValue(s: text): (r: Result<text>)
    requires |s| >= 2
    ensures r.Ok? ==> EscapeLength(s) <= |s|
  {
    if IsCode(s[1]) then Ok([CharOf(s[1])])
    else if s[1] == 'u' || s[1] == 'U' then
      var n := EscapeLength(s);
      if |s| < n || !AllHex(s[2..n]) then Invalid else Utf8(HexValue(s[2..n]))
    else if s[1] == '0' then Ok(['\0'])
    else Invalid
  }

  function Unescaped(s: text): Result<text>
    decreases |s|
  {
    if s == [] then Ok([])
    else if s[0] != '\\' then Prepend([s[0]], Unescaped(s[1..]))
    else if |s| < 2 then Invalid
    else
      var e := EscapeValue(s);
      if e.Invalid? then Invalid else Prepend(e.value, Unescaped(s[EscapeLength(s)..]))
  }

  /** After ii of n digits: the code is their value, moved up past the digits to come. */
  ghost predicate HexSoFar(s: text, ii: nat, code: nat, mplier: nat)
    requires ii <= |s|
  {
    AllHex(s[..ii]) && code == HexValue(s[..ii]) * Pow16(|s| - ii)
    && mplier == if ii < |s| then Pow16(|s| - ii - 1) else 0
  }

  lemma HexNext(s: text, ii: nat, code: nat, mplier: nat)
    requires ii < |s| && HexSoFar(s, ii, code, mplier) && IsHex(s[ii])
    ensures HexSoFar(s, ii + 1, code + HexConvert(s[ii]) * mplier, mplier / 16)
  {
    hide HexConvert, IsHex;
    var digits := s[..ii + 1];
    assert digits[..ii] == s[..ii];
    HexStep(HexValue(s[..ii]), HexConvert(s[ii]), |s| - ii);
    Narrow(|s| - ii - 1);
  }

  /** The loop over the hex digits, with a multiplier that starts at 16^(n - 1). */
  method ReadHex(s: text) returns (ok: bool, code: nat)
    requires 1 <= |s| <= 8
    ensures ok == AllHex(s)
    ensures ok ==> code == HexValue(s) && code <= 0xffff_ffff
  {
    hide HexSoFar, HexValue, Pow16;
    code := 0;
    var mplier := Pow16(|s| - 1);
    assert HexSoFar(s, 0, code, mplier) by { HexStart(s); }
    for ii := 0 to |s|
      invariant HexSoFar(s, ii, code, mplier)
    {
      var res := HexConvert(s[ii]);
      if res > 0x0f { return false, 0; }
      HexNext(s, ii, code, mplier);
      code := code + res * mplier;
      mplier := mplier / 16;
    }
    HexEnd(s, code, mplier);
    return true, code;
  }

  lemma HexStart(s: text)
    requires s != []
    ensures HexSoFar(s, 0, 0, Pow16(|s| - 1))
  {
  }

  lemma HexEnd(s: text, code: nat, mplier: nat)
    requires |s| <= 8 && HexSoFar(s, |s|, code, mplier)
    ensures AllHex(s) && code == HexValue(s) && code <= 0xffff_ffff
  {
    assert s[..|s|] == s;
    HexValueBound(s);
    Pow16Word(|s|);
  }

  lemma HexStep(v: nat, d: nat, k: nat)
    requires k > 0
    ensures v * Pow16(k) + d * Pow16(k - 1) == (16 * v + d) * Pow16(k - 1)
  {
  }

  lemma Narrow(k: nat)
    ensures Pow16(k) / 16 == if k > 0 then Pow16(k - 1) else 0
  {
  }

  /** Eight digits fit in 32 bits, so nothing on the way overflows. */
  lemma {:induction false} Pow16Word(n: nat)
    requires n <= 8
    ensures Pow16(n) <= 0x1_0000_0000
    decreases 8 - n
  {
    if n == 8 {
      Pow16Of8();
    } else {
      Pow16Word(n + 1);
    }
  }

  method RemoveEscapedCharacters(str: text) returns (r: Result<text>)
    ensures r == Unescaped(str)
  {
    hide EscapeValue, EscapeLength;
    var out: text := [];
    var loc := 0;
    assert str[0..] == str;
    PrependNothing(Unescaped(str));
    while loc < |str|
      invariant 0 <= loc <= |str|
      invariant Unescaped(str) == Prepend(out, Unescaped(str[loc..]))
    {
      var rest := str[loc..];
      if rest[0] == '\\' {
        if |rest| < 2 { return Invalid; }
        var e, n := OneEscape(rest);
        if e.Invalid? { return Invalid; }
        assert rest[n..] == str[loc + n..];
        Reassociate(out, e.value, Unescaped(str[loc + n..]));
        out := out + e.value;
        loc := loc + n;
      } else {
        assert rest[1..] == str[loc + 1..];
        Reassociate(out, [rest[0]], Unescaped(str[loc + 1..]));
        out := out + [rest[0]];
        loc := loc + 1;
      }
    }
    assert str[loc..] == [] && out + [] == out;
    return Ok(out);
  }

  lemma PrependNothing(r: Result<text>)
    ensures Prepend([], r) == r
  {
    if r.Ok? { assert [] + r.value == r.value; }
  }

  lemma Reassociate(a: text, b: text, r: Result<text>)
    ensures Prepend(a, Prepend(b, r)) == Prepend(a + b, r)
  {
    if r.Ok? { assert a + (b + r.value) == (a + b) + r.value; }
  }

  method OneEscape(s: text) returns (e: Result<text>, n: nat)
    requires |s| >= 2
    ensures e == EscapeValue(s) && n == EscapeLength(s)
    ensures e.Ok? ==> n <= |s|
  {
    hide Utf8, HexValue;
    n := 2;
    if IsCode(s[1]) {
      e := Ok([CharOf(s[1])]);
    } else if s[1] == 'u' || s[1] == 'U' {
      n := if s[1] == 'u' then 6 else 10;
      if |s| < n { return Invalid, n; }
      var ok, code := ReadHex(s[2..n]);
      e := if ok then Utf8(code) else Invalid;
    } else if s[1] == '0' {
      e := Ok(['\0']);
    } else {
      e := Invalid;
    }
  }

  // ---------------------------------------------------------------------
  // The two directions
  // ---------------------------------------------------------------------

  lemma CodeRoundTrip(c: byte)
    requires Escapable(c)
    ensures IsCode(CodeOf(c)) && CharOf(CodeOf(c)) == c && CodeOf(c) != 'u' && CodeOf(c) != 'U'
  {
  }

  /** Removing escapes undoes adding them, whatever follows. */
  lemma {:induction false} UnescapeEscapedThen(s: text, rest: text)
    ensures Unescaped(Escaped(s) + rest) == Prepend(s, Unescaped(rest))
    decreases |s|
  {
    hide EscapedChar, Unescaped;
    if s == [] {
      assert Escaped(s) + rest == rest;
      PrependNothing(Unescaped(rest));
    } else {
      var more := Escaped(s[1..]) + rest;
      var all := Escaped(s) + rest;
      UnescapeEscapedThen(s[1..], rest);
      EscapedHead(s[0], more);
      assert all == EscapedChar(s[0]) + more;
      Reassociate([s[0]], s[1..], Unescaped(rest));
      assert [s[0]] + s[1..] == s;
    }
  }

  lemma EscapedHead(c: byte, more: text)
    ensures Unescaped(EscapedChar(c) + more) == Prepend([c], Unescaped(more))
  {
    hide Utf8;
    var all := EscapedChar(c) + more;
    if Escapable(c) {
      CodeRoundTrip(c);
      assert all[1] == CodeOf(c) && all[2..] == more;
    } else {
      assert all[1..] == more;
    }
  }

  /** `remove_escaped_characters` undoes `add_escaped_characters` on every string. */
  lemma UnescapeEscaped(s: text)
    ensures Unescaped(Escaped(s)) == Ok(s)
  {
    UnescapeEscapedThen(s, []);
    assert Escaped(s) + [] == Escaped(s);
    assert s + [] == s;
  }

  /** `HexDigits(code, n)`: n hex digits, most significant first. */
  function HexDigits(code: nat, n: nat): (r: text)
    ensures |r| == n
  {
    if n == 0 then [] else HexDigits(code / 16, n - 1) + [HexDigit(code % 16)]
  }

  function HexDigit(d: int): byte
    requires 0 <= d < 16
  {
    if d < 10 then '0' + d as char else 'a' + (d - 10) as char
  }

  lemma HexDigitRoundTrip(d: int)
    requires 0 <= d < 16
    ensures IsHex(HexDigit(d)) && HexConvert(HexDigit(d)) == d
  {
  }

  lemma {:induction false} ValueOfHexDigits(code: nat, n: nat)
    requires code < Pow16(n)
    ensures AllHex(HexDigits(code, n)) && HexValue(HexDigits(code, n)) == code
    decreases n
  {
    hide HexDigit, HexConvert, IsHex;
    if n > 0 {
      ValueOfHexDigits(code / 16, n - 1);
      HexDigitRoundTrip(code % 16);
      var s := HexDigits(code, n);
      assert s[..n - 1] == HexDigits(code / 16, n - 1);
    }
  }

  /** The eight-digit escape of a scalar value stands for its UTF-8 sequence, that of a surrogate
      is refused, and beyond the last code point it silently stands for nothing. */
  lemma LongUnicodeEscape(code: nat)
    requires code <= 0xffff_ffff
    ensures var r := Unescaped(['\\', 'U'] + HexDigits(code, 8));
            if IsScalar(code) then r.Ok? && Utf8Char(r.value) && CodePoint(r.value) == code
            else if code < 0x110000 then r == Invalid
            else r == Ok([])
  {
    Pow16Of8();
    UnicodeEscape(code, 8, 'U');
    if IsScalar(code) { Utf8Encodes(code); }
  }

  lemma Pow16Of8()
    ensures Pow16(4) == 0x10000 && Pow16(8) == 0x1_0000_0000
  {
  }

  /** The four-digit escape. */
  lemma ShortUnicodeEscape(code: nat)
    requires code <= 0xffff
    ensures var r := Unescaped(['\\', 'u'] + HexDigits(code, 4));
            if IsScalar(code) then r.Ok? && Utf8Char(r.value) && CodePoint(r.value) == code else r == Invalid
  {
    Pow16Of8();
    UnicodeEscape(code, 4, 'u');
    if IsScalar(code) { Utf8Encodes(code); }
  }

  lemma UnicodeEscape(code: nat, n: nat, letter: byte)
    requires (n == 4 && letter == 'u') || (n == 8 && letter == 'U')
    requires code < Pow16(n)
    ensures Unescaped(['\\', letter] + HexDigits(code, n)) == Utf8(code)
  {
    hide Utf8, HexDigits, HexValue, AllHex;
    var s: text := ['\\', letter] + HexDigits(code, n);
    ValueOfHexDigits(code, n);
    assert s[2..n + 2] == HexDigits(code, n);
    assert s[n + 2..] == [];
    if Utf8(code).Ok? { assert Utf8(code).value + [] == Utf8(code).value; }
  }

  // ---------------------------------------------------------------------
  // The other escapes
  // ---------------------------------------------------------------------

  /** The seven characters that are escaped, each with its letter, and no others. */
  lemma EscapeLetters(c: byte)
    ensures Escaped([c]) ==
      if c == '\U{08}' then ['\\', 'b'] else if c == '\t' then ['\\', 't'] else if c == '\n' then ['\\', 'n']
      else if c == '\U{0C}' then ['\\', 'f'] else if c == '\r' then ['\\', 'r'] else if c == '\"' then ['\\', '\"']
      else if c == '\\' then ['\\', '\\'] else [c]
  {
    assert [c][1..] == [];
    assert EscapedChar(c) + [] == EscapedChar(c);
  }

  /** `\0` stands for NUL, a letter that is none of the escapes is refused, and so is a backslash at the end. */
  lemma OtherEscapes(c: byte, rest: text)
    ensures c == '0' ==> Unescaped(['\\', c] + rest) == Prepend(['\0'], Unescaped(rest))
    ensures (c != '0' && c != 'b' && c != 't' && c != 'n' && c != 'f' && c != 'r' && c != '\"' && c != '\\' && c != 'u' && c != 'U'
      ==> Unescaped(['\\', c] + rest) == Invalid)
    ensures Unescaped(['\\']) == Invalid
  {
    var s := ['\\', c] + rest;
    assert s[1] == c && s[2..] == rest;
  }

  /** Upper-case hex digits mean the same as lower-case ones. */
  predicate SameButCase(s: text, t: text) {
    |s| == |t| && forall i :: 0 <= i < |s| ==> t[i] == s[i] || ('a' <= s[i] <= 'f' && t[i] as int == s[i] as int - 32)
  }

  lemma {:induction false} HexCaseAlike(s: text, t: text)
    requires SameButCase(s, t)
    ensures AllHex(s) <==> AllHex(t)
    ensures AllHex(s) ==> HexValue(s) == HexValue(t)
    decreases |s|
  {
    if s != [] {
      var n := |s| - 1;
      HexCaseAlike(s[..n], t[..n]);
      assert s == s[..n] + [s[n]] && t == t[..n] + [t[n]];
    }
  }

  lemma EscapeCaseAlike(s: text, t: text, letter: byte)
    requires SameButCase(s, t) && ((letter == 'u' && |s| == 4) || (letter == 'U' && |s| == 8))
    ensures Unescaped(['\\', letter] + s) == Unescaped(['\\', letter] + t)
  {
    hide Utf8, HexValue, AllHex;
    HexCaseAlike(s, t);
    var n := |s|;
    var u, v := ['\\', letter] + s, ['\\', letter] + t;
    assert u[2..n + 2] == s && v[2..n + 2] == t && u[n + 2..] == [] && v[n + 2..] == [];
  }
}
