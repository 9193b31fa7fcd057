/** Finding the end of a quoted or bracketed run in CLI11.hpp: `close_string_quote`,
    `close_literal_quote` and the stack scan of `close_sequence`. */
module CliBrackets {
  import opened Text

  /** `bracketChars`: what opens a run. */
  predicate Opens(c: byte) {
    c == '\"' || c == '\'' || c == '`' || IsBracket(c)
  }

  predicate IsBracket(c: byte) {
    c == '[' || c == '(' || c == '<' || c == '{'
  }

  /** The matching entry of `matchBracketChars`. */
  function Closer(c: byte): byte
    requires Opens(c)
  {
    if c == '[' then ']' else if c == '(' then ')' else if c == '<' then '>' else if c == '{' then '}' else c
  }

  predicate ClosesBracket(c: byte) {
    c == ']' || c == ')' || c == '>' || c == '}'
  }

  // ---------------------------------------------------------------------
  // Quotes
  // ---------------------------------------------------------------------

  /** The scan of `close_string_quote` from loc on. A backslash takes the next character along,
      so after a final backslash the result is one more than the length. */
  function StringQuote(s: text, loc: nat, closer: byte): (r: nat)
    requires loc <= |s| + 1
    ensures loc <= r <= |s| + 1
    ensures r < |s| ==> s[r] == closer
    decreases |s| + 1 - loc
  {
    if loc >= |s| || s[loc] == closer then loc
    else if s[loc] == '\\' then StringQuote(s, loc + 2, closer)
    else StringQuote(s, loc + 1, closer)
  }

  method CloseStringQuote(str: text, start: nat, closer: byte) returns (loc: nat)
    requires start <= |str|
    ensures loc == StringQuote(str, start + 1, closer)
  {
    loc := start + 1;
    while loc < |str|
      invariant loc <= |str| + 1
      invariant StringQuote(str, loc, closer) == StringQuote(str, start + 1, closer)
      decreases |str| + 1 - loc
    {
      if str[loc] == closer { break; }
      if str[loc] == '\\' { loc := loc + 1; }
      loc := loc + 1;
    }
  }

  /** `find_first_of(closer, loc)`, or the length when there is none (also for loc past the end). */
  function LiteralQuote(s: text, loc: nat, closer: byte): (r: nat)
    requires loc <= |s| + 1
    ensures r <= |s| && (loc <= |s| ==> loc <= r)
    ensures r < |s| ==> s[r] == closer
    decreases |s| + 1 - loc
  {
    if loc >= |s| then |s| else if s[loc] == closer then loc else LiteralQuote(s, loc + 1, closer)
  }

  /** The end of the quoted run that begins at loc. */
  function QuoteEnd(s: text, loc: nat): (r: nat)
    requires loc < |s| && Opens(s[loc]) && !IsBracket(s[loc])
    ensures loc < r <= |s| + 1
    ensures r < |s| ==> s[r] == s[loc]
  {
    if s[loc] == '\"' then StringQuote(s, loc + 1, s[loc]) else LiteralQuote(s, loc + 1, s[loc])
  }

  // ---------------------------------------------------------------------
  // The scan with a stack of expected closers
  // ---------------------------------------------------------------------

  /** `close_sequence` from loc on, the innermost expected closer last. */
  function Scan(s: text, loc: nat, closures: seq<byte>): (r: nat)
    requires closures != [] && forall k :: 0 <= k < |closures| ==> ClosesBracket(closures[k])
    ensures r <= |s| && (loc <= |s| ==> loc <= r)
    decreases |s| + 2 - loc
  {
    if loc >= |s| then |s|
    else if s[loc] == closures[|closures| - 1] then
      if |closures| == 1 then loc else Scan(s, loc + 1, closures[..|closures| - 1])
    else if IsBracket(s[loc]) then Scan(s, loc + 1, closures + [Closer(s[loc])])
    else if Opens(s[loc]) then Scan(s, QuoteEnd(s, loc) + 1, closures)
    else Scan(s, loc + 1, closures)
  }

  /** `close_sequence`. A closing quote character, or one that closes nothing, is searched for as a quote. */
  function SequenceEnd(s: text, start: nat, closer: byte): nat
    requires start <= |s|
  {
    if closer == '\"' then StringQuote(s, start + 1, closer)
    else if ClosesBracket(closer) then Scan(s, start + 1, [closer])
    else LiteralQuote(s, start + 1, closer)
  }

  method CloseSequence(str: text, start: nat, closer: byte) returns (r: nat)
    requires start <= |str|
    ensures r == SequenceEnd(str, start, closer)
    ensures start < |str| ==> start < r
  {
    if closer == '\"' {
      r := CloseStringQuote(str, start, closer);
      return;
    }
    if !ClosesBracket(closer) {
      return LiteralQuote(str, start + 1, closer);
    }
    var closures := [closer];
    var loc := start + 1;
    while loc < |str|
      invariant loc <= |str| + 2
      invariant closures != [] && forall k :: 0 <= k < |closures| ==> ClosesBracket(closures[k])
      invariant Scan(str, loc, closures) == Scan(str, start + 1, [closer])
      decreases |str| + 2 - loc
    {
      if str[loc] == closures[|closures| - 1] {
        closures := closures[..|closures| - 1];
        if closures == [] { return loc; }
      }
      if Opens(str[loc]) {
        if str[loc] == '\"' {
          loc := CloseStringQuote(str, loc, str[loc]);
        } else if !IsBracket(str[loc]) {
          loc := LiteralQuote(str, loc + 1, str[loc]);
        } else {
          closures := closures + [Closer(str[loc])];
        }
      }
      loc := loc + 1;
    }
    if loc > |str| { loc := |str|; }
    return loc;
  }

  // ---------------------------------------------------------------------
  // The grammar: a run of content is made of plain characters, quoted runs and bracketed runs
  // of content; a closer that is not the expected one is plain.
  // ---------------------------------------------------------------------

  /** s[i..j] is content of a bracket that closes with c, with no c of its own level in it. */
  ghost predicate Content(s: text, i: nat, j: nat, c: byte)
    requires i <= j <= |s|
    decreases j - i
  {
    i == j
    || (s[i] != c
        && if IsBracket(s[i]) then
             exists m :: i < m < j && s[m] == Closer(s[i]) && Content(s, i + 1, m, Closer(s[i])) && Content(s, m + 1, j, c)
           else if Opens(s[i]) then QuoteEnd(s, i) < j && Content(s, QuoteEnd(s, i) + 1, j, c)
           else Content(s, i + 1, j, c))
  }

  ghost predicate Closers(st: seq<byte>) {
    st != [] && forall k :: 0 <= k < |st| ==> ClosesBracket(st[k])
  }

  /** What the scan does once it has found the closer at j for the top of the stack. */
  function AfterPop(s: text, j: nat, st: seq<byte>): nat
    requires Closers(st)
  {
    if |st| == 1 then j else Scan(s, j + 1, st[..|st| - 1])
  }

  /** Content is passed over with the stack unchanged, and the closer after it pops. */
  lemma {:induction false} ScanContent(s: text, i: nat, j: nat, st: seq<byte>)
    requires Closers(st) && i <= j < |s| && s[j] == st[|st| - 1] && Content(s, i, j, st[|st| - 1])
    ensures Scan(s, i, st) == AfterPop(s, j, st)
    decreases j - i
  {
    var c := st[|st| - 1];
    if i < j {
      if IsBracket(s[i]) {
        var m :| i < m < j && s[m] == Closer(s[i]) && Content(s, i + 1, m, Closer(s[i])) && Content(s, m + 1, j, c);
        var inner := st + [Closer(s[i])];
        ScanContent(s, i + 1, m, inner);
        assert inner[..|inner| - 1] == st;
        ScanContent(s, m + 1, j, st);
      } else if Opens(s[i]) {
        ScanContent(s, QuoteEnd(s, i) + 1, j, st);
      } else {
        ScanContent(s, i + 1, j, st);
      }
    }
  }

  /** A scan that ends inside the text has passed over content up to a closer for the top. */
  lemma {:induction false} ScanFinds(s: text, i: nat, st: seq<byte>) returns (j: nat)
    requires Closers(st) && Scan(s, i, st) < |s|
    ensures i <= j < |s| && s[j] == st[|st| - 1] && Content(s, i, j, st[|st| - 1])
    ensures Scan(s, i, st) == AfterPop(s, j, st)
    decreases |s| + 2 - i
  {
    var c := st[|st| - 1];
    if s[i] == c {
      j := i;
    } else if IsBracket(s[i]) {
      var inner := st + [Closer(s[i])];
      var m := ScanFinds(s, i + 1, inner);
      assert inner[..|inner| - 1] == st;
      j := ScanFinds(s, m + 1, st);
    } else if Opens(s[i]) {
      j := ScanFinds(s, QuoteEnd(s, i) + 1, st);
    } else {
      j := ScanFinds(s, i + 1, st);
    }
  }

  /** For a bracket, `close_sequence` returns r inside the text exactly when r is the matching closer
      in the grammar; otherwise it returns the length, and then there is no matching closer. */
  lemma BracketEnd(s: text, start: nat, closer: byte, r: nat)
    requires start < |s| && ClosesBracket(closer) && r < |s|
    ensures SequenceEnd(s, start, closer) == r
       <==> start < r && s[r] == closer && Content(s, start + 1, r, closer)
    ensures SequenceEnd(s, start, closer) <= |s|
  {
    if start < r && s[r] == closer && Content(s, start + 1, r, closer) {
      ScanContent(s, start + 1, r, [closer]);
    }
    if SequenceEnd(s, start, closer) == r {
      var j := ScanFinds(s, start + 1, [closer]);
    }
  }

  lemma BracketUnmatched(s: text, start: nat, closer: byte)
    requires start < |s| && ClosesBracket(closer)
    ensures SequenceEnd(s, start, closer) == |s|
       <==> forall r :: start < r < |s| && s[r] == closer ==> !Content(s, start + 1, r, closer)
  {
    var e := SequenceEnd(s, start, closer);
    if e < |s| {
      BracketEnd(s, start, closer, e);
    } else {
      forall r | start < r < |s| && s[r] == closer ensures !Content(s, start + 1, r, closer) {
        BracketEnd(s, start, closer, r);
      }
    }
  }

  // ---------------------------------------------------------------------
  // Quotes, exactly
  // ---------------------------------------------------------------------

  /** s[i..j] is quoted text: no bare closer in it, and no backslash that takes s[j] along. */
  ghost predicate QuotedText(s: text, i: nat, j: nat, closer: byte)
    requires i <= j <= |s|
    decreases j - i
  {
    i == j || (s[i] != closer && if s[i] == '\\' then i + 2 <= j && QuotedText(s, i + 2, j, closer)
                                 else QuotedText(s, i + 1, j, closer))
  }

  lemma {:induction false} StringQuoteFinds(s: text, i: nat, j: nat, closer: byte)
    requires i <= j < |s| && closer != '\\'
    ensures StringQuote(s, i, closer) == j <==> s[j] == closer && QuotedText(s, i, j, closer)
    decreases |s| - i
  {
    if i < j && s[i] != closer {
      if s[i] == '\\' {
        if i + 2 <= j { StringQuoteFinds(s, i + 2, j, closer); }
      } else {
        StringQuoteFinds(s, i + 1, j, closer);
      }
    }
  }

  /** The search runs past the end of the text exactly when its last character is a backslash that takes nothing along. */
  lemma {:induction false} StringQuotePastEnd(s: text, i: nat, closer: byte)
    requires i < |s| && closer != '\\'
    ensures StringQuote(s, i, closer) == |s| + 1 <==> s[|s| - 1] == '\\' && QuotedText(s, i, |s| - 1, closer)
    decreases |s| - i
  {
    if s[i] != closer {
      if s[i] == '\\' {
        if i + 2 < |s| { StringQuotePastEnd(s, i + 2, closer); }
      } else if i + 1 < |s| {
        StringQuotePastEnd(s, i + 1, closer);
      }
    }
  }

  /** The shortest text for which `close_string_quote` returns a position past the end: a quote and a backslash. */
  lemma BackslashAtEndOverruns()
    ensures SequenceEnd(['\"', '\\'], 0, '\"') == 3
  {
    StringQuotePastEnd(['\"', '\\'], 1, '\"');
  }

  lemma {:induction false} LiteralQuoteFinds(s: text, i: nat, j: nat, closer: byte)
    requires i <= j < |s|
    ensures LiteralQuote(s, i, closer) == j <==> s[j] == closer && forall k :: i <= k < j ==> s[k] != closer
    decreases |s| - i
  {
    if i < j && s[i] != closer { LiteralQuoteFinds(s, i + 1, j, closer); }
  }

  /** The search passes over a stretch without the closer. */
  lemma {:induction false} LiteralQuoteSkips(s: text, i: nat, j: nat, closer: byte)
    requires i <= j <= |s| && forall k :: i <= k < j ==> s[k] != closer
    ensures LiteralQuote(s, i, closer) == LiteralQuote(s, j, closer)
    decreases j - i
  {
    if i < j { LiteralQuoteSkips(s, i + 1, j, closer); }
  }

  // ---------------------------------------------------------------------
  // What stands after the closer does not matter
  // ---------------------------------------------------------------------

  lemma {:induction false} StringQuoteLocal(s: text, t: text, loc: nat, closer: byte)
    requires loc <= |s| && StringQuote(s, loc, closer) < |s|
    requires StringQuote(s, loc, closer) < |t| && s[..StringQuote(s, loc, closer) + 1] == t[..StringQuote(s, loc, closer) + 1]
    ensures StringQuote(t, loc, closer) == StringQuote(s, loc, closer)
    decreases |s| - loc
  {
    var r := StringQuote(s, loc, closer);
    assert forall k :: 0 <= k <= r ==> s[k] == s[..r + 1][k] && t[k] == t[..r + 1][k];
    if s[loc] != closer { StringQuoteLocal(s, t, if s[loc] == '\\' then loc + 2 else loc + 1, closer); }
  }

  lemma {:induction false} LiteralQuoteLocal(s: text, t: text, loc: nat, closer: byte)
    requires loc <= |s| && LiteralQuote(s, loc, closer) < |s|
    requires LiteralQuote(s, loc, closer) < |t| && s[..LiteralQuote(s, loc, closer) + 1] == t[..LiteralQuote(s, loc, closer) + 1]
    ensures LiteralQuote(t, loc, closer) == LiteralQuote(s, loc, closer)
    decreases |s| - loc
  {
    var r := LiteralQuote(s, loc, closer);
    assert forall k :: 0 <= k <= r ==> s[k] == s[..r + 1][k] && t[k] == t[..r + 1][k];
    if s[loc] != closer { LiteralQuoteLocal(s, t, loc + 1, closer); }
  }

  lemma {:induction false} ScanLocal(s: text, t: text, loc: nat, st: seq<byte>, e: nat)
    requires Closers(st) && Scan(s, loc, st) == e < |s| && e < |t|
    requires forall k :: 0 <= k <= e ==> s[k] == t[k]
    ensures Scan(t, loc, st) == e
    decreases |s| + 2 - loc
  {
    if s[loc] == st[|st| - 1] {
      if |st| > 1 { ScanLocal(s, t, loc + 1, st[..|st| - 1], e); }
    } else if IsBracket(s[loc]) {
      ScanLocal(s, t, loc + 1, st + [Closer(s[loc])], e);
    } else if Opens(s[loc]) {
      QuoteEndLocal(s, t, loc, e);
      ScanLocal(s, t, QuoteEnd(s, loc) + 1, st, e);
    } else {
      ScanLocal(s, t, loc + 1, st, e);
    }
  }

  lemma QuoteEndLocal(s: text, t: text, loc: nat, e: nat)
    requires loc <= e < |s| && e < |t| && Opens(s[loc]) && !IsBracket(s[loc]) && QuoteEnd(s, loc) <= e
    requires forall k :: 0 <= k <= e ==> s[k] == t[k]
    ensures QuoteEnd(t, loc) == QuoteEnd(s, loc)
  {
    var r := QuoteEnd(s, loc);
    assert s[..r + 1] == t[..r + 1];
    if s[loc] == '\"' { StringQuoteLocal(s, t, loc + 1, s[loc]); } else { LiteralQuoteLocal(s, t, loc + 1, s[loc]); }
  }

  /** A quoted or bracketed run at the head of a text ends where it ends by itself. */
  lemma RunEndsItself(p: text, rest: text)
    requires |p| >= 2 && Opens(p[0]) && SequenceEnd(p, 0, Closer(p[0])) == |p| - 1
    ensures SequenceEnd(p + rest, 0, Closer(p[0])) == |p| - 1
  {
    var s, e, c := p + rest, |p| - 1, Closer(p[0]);
    assert s[..e + 1] == p[..e + 1] == p;
    if c == '\"' { StringQuoteLocal(p, s, 1, c); }
    else if ClosesBracket(c) { ScanLocal(p, s, 1, [c], e); }
    else { LiteralQuoteLocal(p, s, 1, c); }
  }

  // ---------------------------------------------------------------------
  // Which character closes which
  // ---------------------------------------------------------------------

  /** The seven pairs. */
  predicate IsPair(open: byte, close: byte) {
    || (open == '[' && close == ']') || (open == '(' && close == ')') || (open == '<' && close == '>')
    || (open == '{' && close == '}')
    || (open == close && (open == '\"' || open == '\'' || open == '`'))
  }

  predicate PlainText(s: text, close: byte) {
    forall i :: 0 <= i < |s| ==> !Opens(s[i]) && s[i] != close && s[i] != '\\'
  }

  lemma {:induction false} PlainIsContent(s: text, i: nat, j: nat, close: byte)
    requires i <= j <= |s| && forall k :: i <= k < j ==> !Opens(s[k]) && s[k] != close
    ensures Content(s, i, j, close)
    decreases j - i
  {
    if i < j { PlainIsContent(s, i + 1, j, close); }
  }

  lemma {:induction false} PlainIsQuoted(s: text, i: nat, j: nat, close: byte)
    requires i <= j <= |s| && forall k :: i <= k < j ==> s[k] != '\\' && s[k] != close
    ensures QuotedText(s, i, j, close)
    decreases j - i
  {
    if i < j { PlainIsQuoted(s, i + 1, j, close); }
  }

  /** Text in quotes or brackets ends at the partner of the character it begins with, and at no other closer. */
  lemma EachPairCloses(open: byte, inside: text, close: byte, rest: text)
    requires IsPair(open, close) && PlainText(inside, close)
    ensures Opens(open) && SequenceEnd([open] + inside + [close] + rest, 0, Closer(open)) == |inside| + 1
  {
    var s, e := [open] + inside + [close] + rest, |inside| + 1;
    assert s[e] == close;
    assert forall k :: 1 <= k < e ==> s[k] == inside[k - 1];
    if IsBracket(open) {
      PlainIsContent(s, 1, e, close);
      BracketEnd(s, 0, close, e);
    } else if open == '\"' {
      PlainIsQuoted(s, 1, e, close);
      StringQuoteFinds(s, 1, e, close);
    } else {
      LiteralQuoteFinds(s, 1, e, close);
    }
  }
}
