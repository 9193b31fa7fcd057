/** Binary strings in CLI11.hpp: `binary_escape_string` and `extract_binary_string`, and exactly
    which strings survive the pair. */
module CliBinary {
  import opened CliBrackets
  import opened CliEscapes
  import opened Text

  /** `isprint` in the classic locale. */
  predicate IsPrint(c: byte) {
    ' ' <= c <= '~'
  }

  // ---------------------------------------------------------------------
  // Writing
  // ---------------------------------------------------------------------

  function HexByte(c: byte): (r: text)
    ensures |r| == 4
  {
    ['\\', 'x', HexDigit(c as int / 16), HexDigit(c as int % 16)]
  }

  /** One character: itself, or two lower-case hex digits behind a backslash and an x. */
  function Shown(c: byte): (r: text)
    ensures |r| == if IsPrint(c) then 1 else 4
  {
    if IsPrint(c) then [c] else HexByte(c)
  }

  function ShownAll(s: text): text {
    if s == [] then [] else Shown(s[0]) + ShownAll(s[1..])
  }

  const QUOTE: byte := '\''

  /** The replacement loop: the first quote, at p, and the p characters after it (as far as there
      are any) give way to the four characters of its hex form. */
  function Requoted(e: text): text
    decreases |e| - LiteralQuote(e, 0, QUOTE)
  {
    var p := LiteralQuote(e, 0, QUOTE);
    if p == |e| then e
    else
      var next := Replaced(e, p);
      RequotedProgress(e, p);
      Requoted(next)
  }

  /** The first k characters dropped, or all of them. */
  function Drop(s: text, k: nat): text {
    s[if k <= |s| then k else |s|..]
  }

  /** `replace(p, p + 1, "\\x27")`: position and count, the count cut off at the end. */
  function Replaced(e: text, p: nat): text
    requires p < |e|
  {
    e[..p] + HexByte(QUOTE) + Drop(e, 2 * p + 1)
  }

  lemma RequotedProgress(e: text, p: nat)
    requires p < |e| && p == LiteralQuote(e, 0, QUOTE)
    ensures |Replaced(e, p)| - LiteralQuote(Replaced(e, p), 0, QUOTE) < |e| - p
  {
    var next := Replaced(e, p);
    LiteralQuoteFinds(e, 0, p, QUOTE);
    forall k | 0 <= k < p + 4 ensures next[k] != QUOTE {
      assert next[k] == if k < p then e[k] else HexByte(QUOTE)[k - p];
    }
    LiteralQuoteSkips(next, 0, p + 4, QUOTE);
  }

  const OPENING: text := ['\'', 'B', '\"', '(']
  const CLOSING: text := [')', '\"', '\'']

  function BinaryEscaped(s: text): text {
    var e := ShownAll(s);
    if e == s then e else OPENING + Requoted(e) + CLOSING
  }

  method BinaryEscapeString(s: text) returns (r: text)
    ensures r == BinaryEscaped(s)
  {
    r := [];
    for i := 0 to |s|
      invariant r + ShownAll(s[i..]) == ShownAll(s)
    {
      assert s[i..][1..] == s[i + 1..];
      r := r + Shown(s[i]);
    }
    assert r == ShownAll(s);
    if r != s {
      r := ReplaceQuotes(r);
      r := OPENING + r + CLOSING;
    }
  }

  method ReplaceQuotes(e: text) returns (r: text)
    ensures r == Requoted(e)
  {
    hide Replaced;
    r := e;
    var loc := LiteralQuote(r, 0, QUOTE);
    while loc != |r|
      invariant loc == LiteralQuote(r, 0, QUOTE)
      invariant Requoted(r) == Requoted(e)
      decreases |r| - loc
    {
      RequotedProgress(r, loc);
      r := Replaced(r, loc);
      loc := LiteralQuote(r, 0, QUOTE);
    }
  }

  // ---------------------------------------------------------------------
  // Reading
  // ---------------------------------------------------------------------

  predicate StartsWith(s: text, t: text) { |t| <= |s| && s[..|t|] == t }

  predicate EndsWith(s: text, t: text) { |t| <= |s| && s[|s| - |t|..] == t }

  const BARE_OPENING: text := ['B', '\"', '(']
  const BARE_CLOSING: text := [')', '\"']

  predicate IsBinaryEscaped(s: text) {
    (StartsWith(s, BARE_OPENING) && EndsWith(s, BARE_CLOSING)) || (StartsWith(s, OPENING) && EndsWith(s, CLOSING))
  }

  /** The character at i; from the end on, the terminator. */
  function At(s: text, i: nat): byte {
    if i < |s| then s[i] else '\0'
  }

  predicate HexAt(s: text, i: nat) {
    At(s, i) == '\\' && (At(s, i + 1) == 'x' || At(s, i + 1) == 'X') && IsHex(At(s, i + 2)) && IsHex(At(s, i + 3))
  }

  function HexPairValue(a: byte, b: byte): byte
    requires IsHex(a) && IsHex(b)
  {
    (HexConvert(a) * 16 + HexConvert(b)) as char
  }

  /** The loop of `extract_binary_string`, which looks up to three characters ahead. */
  function Extracted(s: text, loc: nat, stop: int): text
    decreases stop - loc
  {
    if loc >= stop then []
    else if HexAt(s, loc) then [HexPairValue(At(s, loc + 2), At(s, loc + 3))] + Extracted(s, loc + 4, stop)
    else [At(s, loc)] + Extracted(s, loc + 1, stop)
  }

  function ExtractedBinary(s: text): text {
    if StartsWith(s, BARE_OPENING) && EndsWith(s, BARE_CLOSING) then Extracted(s, 3, |s| - 2)
    else if StartsWith(s, OPENING) && EndsWith(s, CLOSING) then Extracted(s, 4, |s| - 3)
    else s
  }

  method TryHex(s: text, loc: nat) returns (hex: bool, c: byte)
    requires loc < |s|
    ensures hex == HexAt(s, loc)
    ensures c == if hex then HexPairValue(At(s, loc + 2), At(s, loc + 3)) else s[loc]
  {
    if s[loc] == '\\' && (At(s, loc + 1) == 'x' || At(s, loc + 1) == 'X') {
      var res1, res2 := HexConvert(At(s, loc + 2)), HexConvert(At(s, loc + 3));
      if res1 <= 0x0f && res2 <= 0x0f {
        return true, (res1 * 16 + res2) as char;
      }
    }
    return false, s[loc];
  }

  method ExtractBinaryString(s: text) returns (r: text)
    ensures r == ExtractedBinary(s)
  {
    var start, tail := 0, 0;
    if StartsWith(s, BARE_OPENING) && EndsWith(s, BARE_CLOSING) {
      start, tail := 3, 2;
    } else if StartsWith(s, OPENING) && EndsWith(s, CLOSING) {
      start, tail := 4, 3;
    }
    if start == 0 { return s; }
    r := ExtractLoop(s, start, |s| - tail);
  }

  method ExtractLoop(s: text, start: nat, stop: int) returns (r: text)
    requires stop <= |s|
    ensures r == Extracted(s, start, stop)
  {
    hide HexAt, HexPairValue, Extracted;
    r := [];
    var loc: nat := start;
    while loc < stop
      invariant r + Extracted(s, loc, stop) == Extracted(s, start, stop)
      decreases stop - loc
    {
      var hex, c := TryHex(s, loc);
      ExtractedStep(s, loc, stop, r, c);
      r := r + [c];
      loc := if hex then loc + 4 else loc + 1;
    }
    assert Extracted(s, loc, stop) == [] by { ExtractedEnd(s, loc, stop); }
  }

  lemma ExtractedEnd(s: text, loc: nat, stop: int)
    requires loc >= stop
    ensures Extracted(s, loc, stop) == []
  {
  }

  lemma ExtractedStep(s: text, loc: nat, stop: int, r: text, c: byte)
    requires loc < stop && c == if HexAt(s, loc) then HexPairValue(At(s, loc + 2), At(s, loc + 3)) else At(s, loc)
    ensures r + Extracted(s, loc, stop) == r + [c] + Extracted(s, if HexAt(s, loc) then loc + 4 else loc + 1, stop)
  {
    hide HexAt, HexPairValue;
    var more := Extracted(s, if HexAt(s, loc) then loc + 4 else loc + 1, stop);
    assert Extracted(s, loc, stop) == [c] + more;
    assert r + ([c] + more) == r + [c] + more;
  }

  // ---------------------------------------------------------------------
  // Which strings come back. The replacement loop is followed on the characters of the string
  // instead of their hex forms.
  // ---------------------------------------------------------------------

  /** What is left of s when the first k characters of its hex form are deleted: of a character
      whose form is cut in two, the rest of the form stays as ordinary characters. */
  function Cut(s: text, k: nat): text {
    if k == 0 || s == [] then s
    else if IsPrint(s[0]) then Cut(s[1..], k - 1)
    else if k >= 4 then Cut(s[1..], k - 4)
    else HexByte(s[0])[k..] + s[1..]
  }

  lemma {:induction false} ShownAppend(a: text, b: text)
    ensures ShownAll(a + b) == ShownAll(a) + ShownAll(b)
  {
    hide Shown;
    if a == [] {
      assert a + b == b;
    } else {
      assert (a + b)[1..] == a[1..] + b;
      ShownAppend(a[1..], b);
    }
  }

  lemma HexBytePrints(c: byte)
    ensures forall i :: 0 <= i < 4 ==> IsPrint(HexByte(c)[i]) && HexByte(c)[i] != QUOTE
  {
  }

  lemma {:induction false} ShownPrintable(s: text)
    requires forall i :: 0 <= i < |s| ==> IsPrint(s[i])
    ensures ShownAll(s) == s
  {
    if s != [] {
      ShownPrintable(s[1..]);
      assert s == [s[0]] + s[1..];
    }
  }

  lemma {:induction false} CutShown(s: text, k: nat)
    ensures ShownAll(Cut(s, k)) == Drop(ShownAll(s), k)
    decreases |s|
  {
    hide HexByte, Drop;
    if k == 0 || s == [] {
      DropNothing(ShownAll(s), k);
    } else if IsPrint(s[0]) || k >= 4 {
      var n := |Shown(s[0])|;
      CutShown(s[1..], k - n);
      DropBoth(Shown(s[0]), ShownAll(s[1..]), k);
    } else {
      CutInside(s[0], s[1..], k);
    }
  }

  lemma DropNothing(s: text, k: nat)
    requires k == 0 || s == []
    ensures Drop(s, k) == s
  {
  }

  lemma CutInside(c: byte, rest: text, k: nat)
    requires !IsPrint(c) && 0 < k < 4
    ensures ShownAll(HexByte(c)[k..] + rest) == Drop(Shown(c) + ShownAll(rest), k)
  {
    hide HexByte;
    var left := HexByte(c)[k..];
    HexBytePrints(c);
    ShownAppend(left, rest);
    ShownPrintable(left);
    assert Shown(c) == HexByte(c);
  }

  /** Dropping more than a front drops it whole and the remainder from the rest. */
  lemma DropBoth(front: text, rest: text, k: nat)
    requires |front| <= k
    ensures Drop(front + rest, k) == Drop(rest, k - |front|)
  {
  }

  /** The string whose hex form with quotes escaped is what the loop arrives at. */
  function Mangled(pos: nat, s: text): text
    decreases |ShownAll(s)|
  {
    if s == [] then []
    else if s[0] == QUOTE then
      CutShown(s[1..], pos);
      [QUOTE] + Mangled(pos + 4, Cut(s[1..], pos))
    else [s[0]] + Mangled(pos + |Shown(s[0])|, s[1..])
  }

  /** The hex form with quotes in hex too. */
  function Quoteless(c: byte): (r: text)
    ensures r != []
  {
    if c == QUOTE then HexByte(c) else Shown(c)
  }

  function QuotelessAll(s: text): text {
    if s == [] then [] else Quoteless(s[0]) + QuotelessAll(s[1..])
  }

  ghost predicate NoQuote(s: text) {
    forall i :: 0 <= i < |s| ==> s[i] != QUOTE
  }

  lemma {:induction false} RequotedIs(front: text, s: text)
    requires NoQuote(front)
    ensures Requoted(front + ShownAll(s)) == front + QuotelessAll(Mangled(|front|, s))
    decreases |ShownAll(s)|
  {
    hide HexByte, Cut, Requoted, Shown, NoQuote, Quoteless;
    if s == [] {
      assert front + ShownAll([]) == front && front + QuotelessAll([]) == front;
      RequotedDone(front);
    } else if s[0] == QUOTE {
      var cut := Cut(s[1..], |front|);
      CutShown(s[1..], |front|);
      RequotedStep(front, s);
      var front' := front + HexByte(QUOTE);
      NoQuoteAppend(front, HexByte(QUOTE));
      RequotedIs(front', cut);
      var m := Mangled(|front'|, cut);
      QuotelessCons(QUOTE, m);
      assert front' + QuotelessAll(m) == front + (HexByte(QUOTE) + QuotelessAll(m));
      assert Quoteless(QUOTE) == HexByte(QUOTE) by { QuotelessQuote(); }
    } else {
      var front' := front + Shown(s[0]);
      ShownNoQuote(s[0]);
      NoQuoteAppend(front, Shown(s[0]));
      assert front + ShownAll(s) == front' + ShownAll(s[1..]);
      RequotedIs(front', s[1..]);
      var m := Mangled(|front'|, s[1..]);
      QuotelessCons(s[0], m);
      assert front' + QuotelessAll(m) == front + (Shown(s[0]) + QuotelessAll(m));
      assert Quoteless(s[0]) == Shown(s[0]) by { QuotelessOther(s[0]); }
    }
  }

  lemma QuotelessQuote()
    ensures Quoteless(QUOTE) == HexByte(QUOTE) && NoQuote(HexByte(QUOTE))
  {
    HexBytePrints(QUOTE);
  }

  lemma QuotelessOther(c: byte)
    requires c != QUOTE
    ensures Quoteless(c) == Shown(c)
  {
  }

  lemma NoQuoteAppend(a: text, b: text)
    requires NoQuote(a)
    ensures NoQuote(b) ==> NoQuote(a + b)
    ensures NoQuote(a + HexByte(QUOTE))
  {
    HexBytePrints(QUOTE);
  }

  lemma RequotedDone(e: text)
    requires NoQuote(e)
    ensures Requoted(e) == e
  {
    LiteralQuoteSkips(e, 0, |e|, QUOTE);
  }

  /** One turn of the loop, on the characters. */
  lemma RequotedStep(front: text, s: text)
    requires NoQuote(front) && s != [] && s[0] == QUOTE
    ensures Requoted(front + ShownAll(s)) == Requoted(front + HexByte(QUOTE) + ShownAll(Cut(s[1..], |front|)))
  {
    hide HexByte, Cut, Replaced;
    var e, p, rest := front + ShownAll(s), |front|, ShownAll(s[1..]);
    assert ShownAll(s) == [QUOTE] + rest;
    LiteralQuoteSkips(e, 0, p, QUOTE);
    assert LiteralQuote(e, p, QUOTE) == p;
    CutShown(s[1..], p);
    ReplacedIs(front, rest, ShownAll(Cut(s[1..], p)));
  }

  lemma QuotelessCons(c: byte, m: text)
    ensures QuotelessAll([c] + m) == Quoteless(c) + QuotelessAll(m)
  {
    assert ([c] + m)[1..] == m;
  }

  lemma ShownNoQuote(c: byte)
    requires c != QUOTE
    ensures NoQuote(Shown(c))
  {
    HexBytePrints(c);
  }

  lemma ReplacedIs(front: text, rest: text, left: text)
    requires left == Drop(rest, |front|)
    ensures Replaced(front + ([QUOTE] + rest), |front|) == front + HexByte(QUOTE) + left
  {
    var e, p := front + ([QUOTE] + rest), |front|;
    assert e[..p] == front;
    if 2 * p + 1 <= |e| {
      assert e[2 * p + 1..] == rest[p..];
    }
  }

  // ---------------------------------------------------------------------
  // Reading it back: hex forms, and whatever looks like one, become single characters
  // ---------------------------------------------------------------------

  /** s begins with a backslash, an x and two hex digits of its own. */
  predicate Lookalike(s: text) {
    |s| >= 4 && s[0] == '\\' && (s[1] == 'x' || s[1] == 'X') && IsHex(s[2]) && IsHex(s[3])
  }

  function Collapsed(s: text): text {
    if s == [] then []
    else if Lookalike(s) then [HexPairValue(s[2], s[3])] + Collapsed(s[4..])
    else [s[0]] + Collapsed(s[1..])
  }

  /** No part of s looks like a hex form. */
  predicate NoLookalike(s: text) {
    forall i :: 0 <= i < |s| ==> !Lookalike(s[i..])
  }

  lemma HexByteReads(c: byte)
    ensures Lookalike(HexByte(c)) && HexPairValue(HexByte(c)[2], HexByte(c)[3]) == c
  {
    HexDigitRoundTrip(c as int / 16);
    HexDigitRoundTrip(c as int % 16);
  }

  predicate Plain(c: byte) { IsPrint(c) && c != QUOTE }

  lemma HexIsPlain(c: byte)
    requires IsHex(c) || c == 'x' || c == 'X' || c == '\\'
    ensures Plain(c)
  {
  }

  /** What can follow a text without being taken for a part of a hex form. */
  predicate Ends(tail: text) {
    tail != [] && tail[0] != 'x' && tail[0] != 'X' && !IsHex(tail[0])
  }

  /** Plain characters at the head are shown as themselves. */
  lemma {:induction false} LeadPlain(m: text, tail: text, n: nat)
    requires n <= |m| && forall i :: 0 <= i < n ==> Plain(m[i])
    ensures var t := QuotelessAll(m) + tail; |t| >= n && t[..n] == m[..n] && t[n..] == QuotelessAll(m[n..]) + tail
    decreases n
  {
    hide Plain, Quoteless, QuotelessAll;
    if n > 0 {
      LeadPlain(m[1..], tail, n - 1);
      OnePlain(m, tail);
      var t, u := QuotelessAll(m) + tail, QuotelessAll(m[1..]) + tail;
      assert t[n..] == u[n - 1..] && m[1..][n - 1..] == m[n..];
      assert t[..n] == [m[0]] + u[..n - 1] && m[..n] == [m[0]] + m[1..][..n - 1];
    }
  }

  lemma OnePlain(m: text, tail: text)
    requires m != [] && Plain(m[0])
    ensures QuotelessAll(m) + tail == [m[0]] + (QuotelessAll(m[1..]) + tail)
  {
    PlainShown(m[0]);
  }

  lemma PlainShown(c: byte)
    requires Plain(c)
    ensures Quoteless(c) == [c]
  {
  }

  /** After them comes a plain character, a backslash for any other, or what ends the text. */
  lemma NextHead(m: text, tail: text)
    requires Ends(tail)
    ensures var t := QuotelessAll(m) + tail;
            |t| > 0 && t[0] == if m == [] then tail[0] else if Plain(m[0]) then m[0] else '\\'
  {
  }

  lemma LookalikeThen(m: text, tail: text)
    requires m != [] && Plain(m[0]) && Lookalike(m)
    ensures Lookalike(QuotelessAll(m) + tail)
  {
    hide QuotelessAll, Plain, IsHex;
    HexIsPlain(m[1]); HexIsPlain(m[2]); HexIsPlain(m[3]);
    LeadPlain(m, tail, 4);
    var t := QuotelessAll(m) + tail;
    assert t[..4] == m[..4];
  }

  lemma LookalikeOnly(m: text, tail: text)
    requires m != [] && Plain(m[0]) && Ends(tail) && Lookalike(QuotelessAll(m) + tail)
    ensures Lookalike(m)
  {
    hide QuotelessAll, Plain;
    var t := QuotelessAll(m) + tail;
    HexIsPlain('\\');
    LeadPlain(m, tail, 1);
    NextHead(m[1..], tail);
    assert t[1] == t[1..][0];
    LeadPlain(m, tail, 2);
    NextHead(m[2..], tail);
    assert t[2] == t[2..][0];
    LeadPlain(m, tail, 3);
    NextHead(m[3..], tail);
    assert t[3] == t[3..][0];
    LeadPlain(m, tail, 4);
    assert t[..4] == m[..4];
  }

  lemma HexAtIs(s: text, loc: nat)
    requires loc <= |s|
    ensures HexAt(s, loc) <==> Lookalike(s[loc..])
    ensures forall k :: 0 <= k && loc + k < |s| ==> At(s, loc + k) == s[loc..][k]
  {
  }

  /** The reader, on the hex form of m with something after it that ends it. */
  lemma {:induction false} ExtractedIs(s: text, loc: nat, stop: int, m: text, tail: text)
    requires loc <= stop <= |s| && s[loc..] == QuotelessAll(m) + tail && stop == |s| - |tail| && Ends(tail)
    ensures Extracted(s, loc, stop) == Collapsed(m)
    decreases |m|
  {
    hide Plain, Lookalike, HexAt, HexPairValue, Quoteless, HexByte, Ends;
    var t := s[loc..];
    if m == [] {
      assert t == tail;
    } else {
      HexAtIs(s, loc);
      if Plain(m[0]) {
        if Lookalike(m) {
          LookalikeThen(m, tail);
          FourPlain(m, tail);
          assert s[loc + 4..] == t[4..];
          ExtractedIs(s, loc + 4, stop, m[4..], tail);
        } else {
          if Lookalike(t) { LookalikeOnly(m, tail); }
          LeadPlain(m, tail, 1);
          assert s[loc + 1..] == t[1..];
          ExtractedIs(s, loc + 1, stop, m[1..], tail);
        }
      } else {
        HexHead(m, tail);
        assert s[loc + 4..] == t[4..];
        ExtractedIs(s, loc + 4, stop, m[1..], tail);
      }
    }
  }

  lemma FourPlain(m: text, tail: text)
    requires Lookalike(m)
    ensures var t := QuotelessAll(m) + tail;
            |t| >= 4 && |m| >= 4 && t[2] == m[2] && t[3] == m[3] && t[4..] == QuotelessAll(m[4..]) + tail
  {
    HexIsPlain(m[0]); HexIsPlain(m[1]); HexIsPlain(m[2]); HexIsPlain(m[3]);
    hide Plain, QuotelessAll;
    LeadPlain(m, tail, 4);
    var t := QuotelessAll(m) + tail;
    assert t[..4] == m[..4];
  }

  lemma HexHead(m: text, tail: text)
    requires m != [] && !Plain(m[0])
    ensures var t := QuotelessAll(m) + tail;
            |t| >= 4 && Lookalike(t) && HexPairValue(t[2], t[3]) == m[0] && t[4..] == QuotelessAll(m[1..]) + tail
    ensures !Lookalike(m)
  {
    hide HexByte, QuotelessAll, IsHex, HexPairValue;
    HexByteReads(m[0]);
    HexIsPlain('\\');
    var t, u := QuotelessAll(m) + tail, QuotelessAll(m[1..]) + tail;
    assert t == HexByte(m[0]) + u by { HexFront(m); }
    assert t[..4] == HexByte(m[0]);
  }

  lemma HexFront(m: text)
    requires m != [] && !Plain(m[0])
    ensures QuotelessAll(m) == HexByte(m[0]) + QuotelessAll(m[1..])
  {
  }

  /** Collapsing changes nothing, or it makes the text shorter; the hex form never grows. */
  lemma {:induction false} CollapsedIs(m: text)
    ensures |Collapsed(m)| <= |m| && |ShownAll(Collapsed(m))| <= |ShownAll(m)|
    ensures if NoLookalike(m) then Collapsed(m) == m else |Collapsed(m)| < |m|
    decreases |m|
  {
    hide Lookalike, HexPairValue, Shown, NoLookalike;
    if m == [] {
      NothingLooksAlike();
    } else if Lookalike(m) {
      LookalikeLong(m);
      CollapsedIs(m[4..]);
      assert m[0..] == m;
      LookalikeFound(m);
      ShownAppend([HexPairValue(m[2], m[3])], Collapsed(m[4..]));
    } else {
      CollapsedIs(m[1..]);
      NoLookalikeTail(m);
    }
  }

  lemma NothingLooksAlike()
    ensures NoLookalike([])
  {
  }

  lemma LookalikeFound(m: text)
    requires Lookalike(m)
    ensures !NoLookalike(m)
  {
    assert m[0..] == m;
  }

  /** The four characters are shown as they are; what they stand for takes no more room. */
  lemma LookalikeLong(m: text)
    requires Lookalike(m)
    ensures |m| >= 4 && IsHex(m[2]) && IsHex(m[3])
    ensures |ShownAll(m)| == 4 + |ShownAll(m[4..])|
    ensures |ShownAll([HexPairValue(m[2], m[3])])| <= 4
  {
    HexIsPlain(m[0]); HexIsPlain(m[1]); HexIsPlain(m[2]); HexIsPlain(m[3]);
    assert m == m[..4] + m[4..];
    ShownAppend(m[..4], m[4..]);
    ShownPrintable(m[..4]);
    OneShown(HexPairValue(m[2], m[3]));
  }

  lemma OneShown(c: byte)
    ensures |ShownAll([c])| <= 4
  {
    assert [c][1..] == [];
  }

  lemma NoLookalikeTail(m: text)
    requires m != [] && !Lookalike(m)
    ensures NoLookalike(m) <==> NoLookalike(m[1..])
  {
    hide Lookalike;
    assert m[0..] == m;
    forall i | 0 <= i < |m| - 1 ensures m[1..][i..] == m[i + 1..] { }
    if NoLookalike(m[1..]) {
      forall i | 0 <= i < |m| ensures !Lookalike(m[i..]) {
        if i > 0 { assert m[1..][i - 1..] == m[i..]; }
      }
    }
  }

  /** A quote at i that the loop does not replace cleanly: neither the first thing in the text
      nor its last character. */
  ghost predicate Damaged(pos: nat, s: text) {
    exists i :: 0 <= i < |s| - 1 && pos + i > 0 && s[i] == QUOTE
  }

  lemma DamagedTail(pos: nat, s: text, pos': nat)
    requires s != [] && pos' > 0
    ensures Damaged(pos, s) <==> (|s| > 1 && pos > 0 && s[0] == QUOTE) || Damaged(pos', s[1..])
  {
    if Damaged(pos, s) {
      var i :| 0 <= i < |s| - 1 && pos + i > 0 && s[i] == QUOTE;
      if i > 0 { assert s[1..][i - 1] == QUOTE; }
    }
    if Damaged(pos', s[1..]) {
      var i :| 0 <= i < |s| - 2 && pos' + i > 0 && s[1..][i] == QUOTE;
      assert s[i + 1] == QUOTE;
    }
    if |s| > 1 && pos > 0 && s[0] == QUOTE { assert 0 <= 0 < |s| - 1 && pos + 0 > 0; }
  }

  /** The loop keeps the string when no quote is damaged, and otherwise shortens its hex form. */
  lemma {:induction false} MangledIs(pos: nat, s: text)
    ensures if Damaged(pos, s) then |ShownAll(Mangled(pos, s))| < |ShownAll(s)| else Mangled(pos, s) == s
    decreases |ShownAll(s)|
  {
    hide Cut, Damaged, Shown;
    if s == [] {
      NoneDamaged(pos);
    } else if s[0] == QUOTE {
      CutShown(s[1..], pos);
      CutShortens(s[1..], pos);
      MangledIs(pos + 4, Cut(s[1..], pos));
      MangledQuote(pos, s);
    } else {
      assert s == [s[0]] + s[1..];
      ShownCons(s[0], s[1..]);
      MangledIs(pos + |Shown(s[0])|, s[1..]);
      MangledOther(pos, s);
    }
  }

  lemma MangledQuote(pos: nat, s: text)
    requires s != [] && s[0] == QUOTE
    requires var cut := Cut(s[1..], pos);
      if Damaged(pos + 4, cut) then |ShownAll(Mangled(pos + 4, cut))| < |ShownAll(cut)| else Mangled(pos + 4, cut) == cut
    ensures if Damaged(pos, s) then |ShownAll(Mangled(pos, s))| < |ShownAll(s)| else Mangled(pos, s) == s
  {
    hide Cut, Damaged, Shown, ShownAll, Mangled;
    var cut := Cut(s[1..], pos);
    CutShortens(s[1..], pos);
    DamagedTail(pos, s, pos + 4);
    assert s == [QUOTE] + s[1..];
    MangledAtQuote(pos, s);
    var rest := Mangled(pos + 4, cut);
    ShownCons(QUOTE, rest);
    ShownCons(QUOTE, s[1..]);
    if pos == 0 || s[1..] == [] {
      assert cut == s[1..];
    } else {
      assert |ShownAll(rest)| <= |ShownAll(cut)| < |ShownAll(s[1..])|;
    }
  }

  lemma MangledAtQuote(pos: nat, s: text)
    requires s != [] && s[0] == QUOTE
    ensures Mangled(pos, s) == [QUOTE] + Mangled(pos + 4, Cut(s[1..], pos))
  {
    hide Cut, ShownAll;
    CutShown(s[1..], pos);
  }

  lemma MangledOther(pos: nat, s: text)
    requires s != [] && s[0] != QUOTE
    requires var pos' := pos + |Shown(s[0])|;
      if Damaged(pos', s[1..]) then |ShownAll(Mangled(pos', s[1..]))| < |ShownAll(s[1..])| else Mangled(pos', s[1..]) == s[1..]
    ensures if Damaged(pos, s) then |ShownAll(Mangled(pos, s))| < |ShownAll(s)| else Mangled(pos, s) == s
  {
    hide Damaged, Shown, ShownAll;
    var pos' := pos + |Shown(s[0])|;
    DamagedTail(pos, s, pos');
    assert s == [s[0]] + s[1..];
    ShownCons(s[0], Mangled(pos', s[1..])); ShownCons(s[0], s[1..]);
  }

  lemma CutShortens(s: text, k: nat)
    ensures if k == 0 || s == [] then Cut(s, k) == s else |ShownAll(Cut(s, k))| < |ShownAll(s)|
  {
    CutShown(s, k);
    ShownLength(s);
  }

  lemma ShownCons(c: byte, s: text)
    ensures |ShownAll([c] + s)| == |Shown(c)| + |ShownAll(s)|
  {
    assert ([c] + s)[1..] == s;
  }

  lemma NoneDamaged(pos: nat)
    ensures !Damaged(pos, [])
  {
  }

  // ---------------------------------------------------------------------
  // The exact condition
  // ---------------------------------------------------------------------

  /** Single quotes only as the very first or the very last character. */
  predicate QuotesAtEnds(s: text) {
    forall i :: 0 < i < |s| - 1 ==> s[i] != QUOTE
  }

  predicate HasUnprintable(s: text) {
    exists i :: 0 <= i < |s| && !IsPrint(s[i])
  }

  lemma {:induction false} ShownLength(s: text)
    ensures |ShownAll(s)| >= |s|
    ensures HasUnprintable(s) ==> |ShownAll(s)| > |s|
  {
    if s != [] {
      ShownLength(s[1..]);
      if HasUnprintable(s) && IsPrint(s[0]) {
        var i :| 0 <= i < |s| && !IsPrint(s[i]);
        assert s[1..][i - 1] == s[i];
      }
    }
  }

  /** The shape of a binary string, and what the reader finds inside. */
  lemma BinaryShape(s: text)
    requires HasUnprintable(s)
    ensures BinaryEscaped(s) == OPENING + QuotelessAll(Mangled(0, s)) + CLOSING
    ensures IsBinaryEscaped(BinaryEscaped(s))
    ensures ExtractedBinary(BinaryEscaped(s)) == Collapsed(Mangled(0, s))
  {
    hide Mangled, QuotelessAll, ShownAll, Requoted, Collapsed, Extracted;
    ShownLength(s);
    RequotedIs([], s);
    assert [] + ShownAll(s) == ShownAll(s);
    assert [] + QuotelessAll(Mangled(0, s)) == QuotelessAll(Mangled(0, s));
    FramedReads(Mangled(0, s));
  }

  lemma FramedReads(m: text)
    ensures var b := OPENING + QuotelessAll(m) + CLOSING;
            StartsWith(b, OPENING) && EndsWith(b, CLOSING) && !StartsWith(b, BARE_OPENING)
            && Extracted(b, 4, |b| - 3) == Collapsed(m)
  {
    hide Extracted, Collapsed, QuotelessAll;
    var b := OPENING + QuotelessAll(m) + CLOSING;
    assert b[..4] == OPENING && b[|b| - 3..] == CLOSING;
    assert b[0] == '\'';
    assert b[4..] == QuotelessAll(m) + CLOSING;
    ExtractedIs(b, 4, |b| - 3, m, CLOSING);
  }

  /** A string that is written as a binary string is read back as itself exactly when it has single quotes
      at its two ends only and nothing in it looks like a hex form. */
  lemma BinaryRoundTrip(s: text)
    requires HasUnprintable(s)
    ensures ExtractedBinary(BinaryEscaped(s)) == s <==> QuotesAtEnds(s) && NoLookalike(s)
  {
    hide Mangled, Collapsed, NoLookalike, BinaryEscaped, ExtractedBinary;
    var m := Mangled(0, s);
    BinaryShape(s);
    MangledIs(0, s);
    CollapsedIs(m);
    assert Damaged(0, s) <==> !QuotesAtEnds(s);
  }

  /** A quote in the middle takes what follows it along: the code deletes one character for each
      that stands before the quote. */
  lemma QuoteInMiddleIsLost()
    ensures var s := ['a', '\'', 'b', '\U{01}'];
            ExtractedBinary(BinaryEscaped(s)) == ['a', '\'', '\U{01}'] && s != ExtractedBinary(BinaryEscaped(s))
  {
    var s: text := ['a', '\'', 'b', '\U{01}'];
    assert !IsPrint(s[3]);
    BinaryShape(s);
    var t: text := ['\'', 'b', '\U{01}'];
    assert s[1..] == t && t[1..] == ['b', '\U{01}'] && ['b', '\U{01}'][1..] == ['\U{01}'];
    var u: text := ['b', '\U{01}'];
    assert Cut(u, 1) == ['\U{01}'];
    assert Mangled(5, ['\U{01}']) == ['\U{01}'] by { assert ['\U{01}'][1..] == []; }
    assert Mangled(1, t) == ['\'', '\U{01}'];
    var m := Mangled(0, s);
    assert m == ['a', '\'', '\U{01}'];
    CollapsedIs(m);
    assert NoLookalike(m);
  }

  /** The form of the shortest such string. */
  lemma FormOfOne()
    ensures BinaryEscaped(['\U{01}']) == ['\'', 'B', '\"', '(', '\\', 'x', '0', '1', ')', '\"', '\'']
  {
    var s: text := ['\U{01}'];
    var e: text := ['\\', 'x', '0', '1'];
    assert s[1..] == [] && e + [] == e;
    assert ShownAll(s) == e;
    LiteralQuoteSkips(e, 0, 4, QUOTE);
    assert Requoted(e) == e;
  }
}
