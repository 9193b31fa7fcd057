/** Option values in a configuration file, CLI11.hpp: `convert_arg_for_ini` and `ini_join` write
    them, `split_up` and `process_quoted_string` read them back. The formatting characters are the
    defaults: brackets and commas for arrays, double quotes for strings, single quotes for literals. */
module CliValues {
  import opened CliBinary
  import opened CliBrackets
  import opened CliEscapes
  import opened CliSplit
  import opened Text

  const STRING_QUOTE: byte := '\"'
  const LITERAL_QUOTE: byte := '\''
  const SEPARATOR: byte := ','
  const COMMENT: byte := '#'
  const MULTILINE: text := ['\'', '\'', '\'']

  // ---------------------------------------------------------------------
  // Writing one value
  // ---------------------------------------------------------------------

  /** Printable text, newlines and tabs. */
  predicate IsPrintable(s: text) {
    forall i :: 0 <= i < |s| ==> IsPrint(s[i]) || s[i] == '\n' || s[i] == '\t'
  }

  /** One of "0123456789.-+eE". */
  predicate IsNumberChar(c: byte) {
    IsDigit(c) || c == '.' || c == '-' || c == '+' || c == 'e' || c == 'E'
  }

  predicate IsWord(s: text) {
    s == ['t', 'r', 'u', 'e'] || s == ['f', 'a', 'l', 's', 'e'] || s == ['n', 'a', 'n'] || s == ['i', 'n', 'f']
  }

  /** A number in the sense of the lexical cast, which is any predicate here, and in its characters. */
  predicate IsNumber(s: text, castable: text -> bool) {
    !StartsWith(s, ['0', 'x']) && !StartsWith(s, ['0', 'X']) && castable(s)
    && forall i :: 0 <= i < |s| ==> IsNumberChar(s[i])
  }

  /** 0x, 0o or 0b and digits of the base, possibly none. */
  predicate IsBased(s: text) {
    |s| >= 2 && s[0] == '0'
    && ((s[1] == 'x' && forall i :: 2 <= i < |s| ==> IsHex(s[i]))
        || (s[1] == 'o' && forall i :: 2 <= i < |s| ==> '0' <= s[i] <= '7')
        || (s[1] == 'b' && forall i :: 2 <= i < |s| ==> s[i] == '0' || s[i] == '1'))
  }

  /** `convert_arg_for_ini`. */
  function Converted(arg: text, castable: text -> bool, noMultiline: bool): text {
    if arg == [] then [STRING_QUOTE, STRING_QUOTE]
    else if IsWord(arg) || IsNumber(arg, castable) then arg
    else if |arg| == 1 then
      if !IsPrint(arg[0]) then BinaryEscaped(arg)
      else if arg[0] == '\'' then [STRING_QUOTE, '\'', STRING_QUOTE]
      else [LITERAL_QUOTE] + arg + [LITERAL_QUOTE]
    else if IsBased(arg) then arg
    else if !IsPrintable(arg) then BinaryEscaped(arg)
    else if HasEscapable(arg) then
      if |arg| > 100 && !noMultiline then MULTILINE + arg + MULTILINE
      else [STRING_QUOTE] + Escaped(arg) + [STRING_QUOTE]
    else [STRING_QUOTE] + arg + [STRING_QUOTE]
  }

  method ConvertArgForIni(arg: text, castable: text -> bool, noMultiline: bool) returns (r: text)
    ensures r == Converted(arg, castable, noMultiline)
  {
    hide BinaryEscaped, Escaped, IsWord, IsNumber, IsBased, IsPrintable, HasEscapable, IsPrint;
    if arg == [] { return [STRING_QUOTE, STRING_QUOTE]; }
    if IsWord(arg) { return arg; }
    if IsNumber(arg, castable) { return arg; }
    if |arg| == 1 {
      if !IsPrint(arg[0]) {
        r := BinaryEscapeString(arg);
        return;
      }
      if arg[0] == '\'' { return [STRING_QUOTE, '\'', STRING_QUOTE]; }
      return [LITERAL_QUOTE] + arg + [LITERAL_QUOTE];
    }
    if IsBased(arg) { return arg; }
    if !IsPrintable(arg) {
      r := BinaryEscapeString(arg);
      return;
    }
    if HasEscapable(arg) {
      if |arg| > 100 && !noMultiline { return MULTILINE + arg + MULTILINE; }
      var inside := AddEscapedCharacters(arg);
      return [STRING_QUOTE] + inside + [STRING_QUOTE];
    }
    return [STRING_QUOTE] + arg + [STRING_QUOTE];
  }

  // ---------------------------------------------------------------------
  // Writing a list
  // ---------------------------------------------------------------------

  function JoinedTail(args: seq<text>, castable: text -> bool, noMultiline: bool): text {
    if args == [] then []
    else [SEPARATOR, ' '] + (Converted(args[0], castable, noMultiline) + JoinedTail(args[1..], castable, noMultiline))
  }

  /** `ini_join`: brackets only round two values or more. */
  function Joined(args: seq<text>, castable: text -> bool): text {
    if args == [] then []
    else
      var many := |args| > 1;
      var inside := Converted(args[0], castable, many) + JoinedTail(args[1..], castable, many);
      if many then ['['] + inside + [']'] else inside
  }

  ghost predicate Written(args: seq<text>, castable: text -> bool, k: nat, open: text, joined: text)
    requires k <= |args|
  {
    if k == 0 then joined == open
    else
      var many := |args| > 1;
      var all := Converted(args[0], castable, many) + JoinedTail(args[1..], castable, many);
      joined + JoinedTail(args[k..], castable, many) == open + all
  }

  lemma WriteNext(args: seq<text>, castable: text -> bool, k: nat, open: text, joined: text, piece: text)
    requires k < |args| && Written(args, castable, k, open, joined)
    requires piece == Converted(args[k], castable, |args| > 1)
    ensures Written(args, castable, k + 1, open, joined + (if k > 0 then [SEPARATOR, ' '] else []) + piece)
  {
    hide Converted;
    var rest := JoinedTail(args[k + 1..], castable, |args| > 1);
    if k == 0 {
      assert joined + [] + piece + rest == open + (piece + rest);
    } else {
      assert args[k..][1..] == args[k + 1..];
      assert joined + [SEPARATOR, ' '] + piece + rest == joined + ([SEPARATOR, ' '] + (piece + rest));
    }
  }

  method IniJoin(args: seq<text>, castable: text -> bool) returns (joined: text)
    ensures joined == Joined(args, castable)
  {
    hide Converted, Written;
    joined := [];
    if |args| > 1 { joined := joined + ['[']; }
    ghost var open := joined;
    assert Written(args, castable, 0, open, joined) by { StartWriting(args, castable, open); }
    for k := 0 to |args|
      invariant Written(args, castable, k, open, joined)
    {
      ghost var before := joined;
      if k > 0 { joined := joined + [SEPARATOR, ' ']; }
      var piece := ConvertArgForIni(args[k], castable, |args| > 1);
      joined := joined + piece;
      WriteNext(args, castable, k, open, before, piece);
      assert before + [] == before;
    }
    ghost var inside := joined;
    if |args| > 1 { joined := joined + [']']; }
    EndWriting(args, castable, open, inside);
  }

  lemma StartWriting(args: seq<text>, castable: text -> bool, open: text)
    ensures Written(args, castable, 0, open, open)
  {
  }

  lemma EndWriting(args: seq<text>, castable: text -> bool, open: text, joined: text)
    requires Written(args, castable, |args|, open, joined) && open == if |args| > 1 then ['['] else []
    ensures Joined(args, castable) == if |args| > 1 then joined + [']'] else joined
  {
    hide Converted;
    if args != [] {
      assert args[|args|..] == [] && joined + [] == joined;
      if |args| == 1 { assert forall t: text :: [] + t == t; }
    }
  }

  // ---------------------------------------------------------------------
  // Reading
  // ---------------------------------------------------------------------

  /** `remove_outer`. */
  function WithoutOuter(s: text, key: byte): text {
    if |s| > 1 && s[0] == key && s[|s| - 1] == key then s[1..|s| - 1] else s
  }

  /** `process_quoted_string` with the default quotes: what the string becomes. */
  function Processed(s: text): Result<text> {
    if |s| <= 1 then Ok(s)
    else if IsBinaryEscaped(s) then Ok(ExtractedBinary(s))
    else if s[0] == STRING_QUOTE && s[|s| - 1] == STRING_QUOTE then
      var inside := WithoutOuter(s, STRING_QUOTE);
      if '\\' in inside then Unescaped(inside) else Ok(inside)
    else if (s[0] == LITERAL_QUOTE || s[0] == '`') && s[|s| - 1] == s[0] then Ok(WithoutOuter(s, s[0]))
    else Ok(s)
  }

  method ProcessQuotedString(str: text) returns (r: Result<text>)
    ensures r == Processed(str)
  {
    hide IsBinaryEscaped, ExtractedBinary, Unescaped;
    if |str| <= 1 { return Ok(str); }
    if IsBinaryEscaped(str) {
      var b := ExtractBinaryString(str);
      return Ok(b);
    }
    if str[0] == STRING_QUOTE && str[|str| - 1] == STRING_QUOTE {
      var inside := WithoutOuter(str, STRING_QUOTE);
      if '\\' in inside {
        r := RemoveEscapedCharacters(inside);
        return;
      }
      return Ok(inside);
    }
    if (str[0] == LITERAL_QUOTE || str[0] == '`') && str[|str| - 1] == str[0] {
      return Ok(WithoutOuter(str, str[0]));
    }
    return Ok(str);
  }

  function ProcessedAll(pieces: seq<text>): Result<seq<text>> {
    if pieces == [] then Ok([])
    else
      var first := Processed(pieces[0]);
      if first.Invalid? then Invalid
      else
        var rest := ProcessedAll(pieces[1..]);
        if rest.Invalid? then Invalid else Ok([first.value] + rest.value)
  }

  /** How the reader cuts an item that is all on its line: an array between brackets, else a list with
      commas, else with blanks, else one value. */
  function ItemPieces(item: text): seq<text> {
    if |item| > 1 && item[0] == '[' then
      if item[|item| - 1] == ']' then Split(item[1..|item| - 1], SEPARATOR) else Split(item[1..], SEPARATOR)
    else if SEPARATOR in item then Split(item, SEPARATOR)
    else if ' ' in item then Split(item, '\0')
    else [item]
  }

  function ItemRead(item: text): Result<seq<text>> {
    ProcessedAll(ItemPieces(item))
  }

  /** The part of `from_config` that turns the text after the equals sign into values. */
  method ReadItem(item: text) returns (r: Result<seq<text>>)
    ensures r == ItemRead(item)
  {
    hide Split, Processed;
    var buffer: seq<text>;
    if |item| > 1 && item[0] == '[' {
      if item[|item| - 1] == ']' {
        buffer := SplitUp(item[1..|item| - 1], SEPARATOR);
      } else {
        buffer := SplitUp(item[1..], SEPARATOR);
      }
    } else if SEPARATOR in item {
      buffer := SplitUp(item, SEPARATOR);
    } else if ' ' in item {
      buffer := SplitUp(item, '\0');
    } else {
      buffer := [item];
    }
    var values: seq<text> := [];
    assert buffer[0..] == buffer;
    PrependNone(ProcessedAll(buffer));
    for k := 0 to |buffer|
      invariant ProcessedAll(buffer) == PrependAll(values, ProcessedAll(buffer[k..]))
    {
      assert buffer[k..][1..] == buffer[k + 1..];
      var v := ProcessQuotedString(buffer[k]);
      if v.Invalid? { return Invalid; }
      PrependMore(values, v.value, ProcessedAll(buffer[k + 1..]));
      values := values + [v.value];
    }
    assert buffer[|buffer|..] == [] && values + [] == values;
    return Ok(values);
  }

  function PrependAll(front: seq<text>, r: Result<seq<text>>): Result<seq<text>> {
    if r.Invalid? then Invalid else Ok(front + r.value)
  }

  lemma PrependNone(r: Result<seq<text>>)
    ensures PrependAll([], r) == r
  {
    if r.Ok? { assert [] + r.value == r.value; }
  }

  lemma PrependMore(front: seq<text>, v: text, r: Result<seq<text>>)
    ensures PrependAll(front, PrependAll([v], r)) == PrependAll(front + [v], r)
  {
    if r.Ok? { assert front + ([v] + r.value) == front + [v] + r.value; }
  }

  // ---------------------------------------------------------------------
  // What every written value looks like
  // ---------------------------------------------------------------------

  /** A value without quotes: nothing in it that cuts a list or opens anything. */
  predicate IsBareText(p: text) {
    p != [] && forall i :: 0 <= i < |p| ==> IsBareChar(p[i])
  }

  predicate IsBareChar(c: byte) {
    IsPrint(c) && c != SEPARATOR && c != COMMENT && c != ' ' && !Opens(c) && !ClosesBracket(c)
  }

  /** A value between quotes whose end is found, whatever follows it. */
  ghost predicate IsQuotedText(p: text) {
    |p| >= 2 && ((p[0] == STRING_QUOTE && p[|p| - 1] == STRING_QUOTE && QuotedText(p, 1, |p| - 1, STRING_QUOTE))
                 || (p[0] == LITERAL_QUOTE && p[|p| - 1] == LITERAL_QUOTE
                     && forall i :: 1 <= i < |p| - 1 ==> p[i] != LITERAL_QUOTE))
  }

  ghost predicate IsPiece(p: text) {
    IsBareText(p) || IsQuotedText(p)
  }

  /** Being quoted text does not depend on what stands round it. */
  lemma {:induction false} QuotedTextIn(front: text, p: text, rest: text, i: nat, j: nat, closer: byte)
    requires i <= j <= |p|
    ensures QuotedText(front + p + rest, |front| + i, |front| + j, closer) <==> QuotedText(p, i, j, closer)
    decreases j - i
  {
    if i < j {
      assert (front + p + rest)[|front| + i] == p[i];
      if p[i] == '\\' {
        if i + 2 <= j { QuotedTextIn(front, p, rest, i + 2, j, closer); }
      } else {
        QuotedTextIn(front, p, rest, i + 1, j, closer);
      }
    }
  }

  /** The closing quote of a written value is found at its end, whatever stands round it. */
  lemma QuotedPieceEnds(front: text, p: text, rest: text)
    requires IsQuotedText(p)
    ensures Opens(p[0]) && !IsBracket(p[0]) && Closer(p[0]) == p[0]
    ensures var s, i := front + p + rest, |front|;
            s[i] == p[0] && SequenceEnd(s, i, p[0]) == i + |p| - 1 && QuoteEnd(s, i) == i + |p| - 1
  {
    var s, i, j := front + p + rest, |front|, |front| + |p| - 1;
    assert s[i] == p[0] && s[j] == p[|p| - 1];
    if p[0] == STRING_QUOTE {
      QuotedTextIn(front, p, rest, 1, |p| - 1, STRING_QUOTE);
      StringQuoteFinds(s, i + 1, j, STRING_QUOTE);
    } else {
      forall k | i + 1 <= k < j ensures s[k] != LITERAL_QUOTE { assert s[k] == p[k - i]; }
      LiteralQuoteFinds(s, i + 1, j, LITERAL_QUOTE);
    }
  }

  /** Escaped text has no bare double quote, and its backslashes come in complete pairs. */
  lemma {:induction false} EscapedIsQuoted(s: text, front: text, back: text)
    ensures QuotedText(front + Escaped(s) + back, |front|, |front| + |Escaped(s)|, STRING_QUOTE)
    decreases |s|
  {
    hide Escapable, CodeOf;
    if s != [] {
      var head := EscapedChar(s[0]);
      var whole := front + Escaped(s) + back;
      assert whole == (front + head) + Escaped(s[1..]) + back;
      EscapedIsQuoted(s[1..], front + head, back);
      EscapedCharShape(s[0]);
      assert whole[|front|] == head[0];
    }
  }

  lemma EscapedCharShape(c: byte)
    ensures var h := EscapedChar(c);
            if Escapable(c) then |h| == 2 && h[0] == '\\' else h == [c] && c != '\\' && c != STRING_QUOTE
  {
  }

  lemma {:induction false} NoEscapableIsQuoted(s: text, i: nat, j: nat)
    requires i <= j <= |s| && forall k :: i <= k < j ==> !Escapable(s[k])
    ensures QuotedText(s, i, j, STRING_QUOTE)
    decreases j - i
  {
    if i < j { NoEscapableIsQuoted(s, i + 1, j); }
  }

  lemma StringIsPiece(arg: text)
    requires !HasEscapable(arg)
    ensures IsQuotedText([STRING_QUOTE] + arg + [STRING_QUOTE])
  {
    var p := [STRING_QUOTE] + arg + [STRING_QUOTE];
    forall k | 1 <= k < |p| - 1 ensures !Escapable(p[k]) { assert p[k] == arg[k - 1]; }
    NoEscapableIsQuoted(p, 1, |p| - 1);
  }

  lemma EscapedIsPiece(arg: text)
    ensures IsQuotedText([STRING_QUOTE] + Escaped(arg) + [STRING_QUOTE])
  {
    EscapedIsQuoted(arg, [STRING_QUOTE], [STRING_QUOTE]);
  }

  lemma {:induction false} QuotelessNoQuote(m: text, i: nat)
    requires i < |QuotelessAll(m)|
    ensures QuotelessAll(m)[i] != LITERAL_QUOTE
    decreases |m|
  {
    hide HexByte;
    var head := Quoteless(m[0]);
    if i < |head| {
      HexBytePrints(m[0]);
    } else {
      assert QuotelessAll(m)[i] == QuotelessAll(m[1..])[i - |head|];
      QuotelessNoQuote(m[1..], i - |head|);
    }
  }

  lemma BinaryIsPiece(arg: text)
    requires HasUnprintable(arg)
    ensures IsQuotedText(BinaryEscaped(arg))
  {
    hide QuotelessAll, Mangled, BinaryEscaped;
    BinaryShape(arg);
    var q := QuotelessAll(Mangled(0, arg));
    var p := BinaryEscaped(arg);
    forall i | 1 <= i < |p| - 1 ensures p[i] != LITERAL_QUOTE {
      if 4 <= i < 4 + |q| {
        QuotelessNoQuote(Mangled(0, arg), i - 4);
        assert p[i] == q[i - 4];
      }
    }
  }

  // ---------------------------------------------------------------------
  // Every value is written as a piece, and the piece is read as the value
  // ---------------------------------------------------------------------

  /** The values that are written as binary strings: text with anything but printable characters, newlines
      and tabs, and a single newline or tab. */
  predicate NeedsBinary(arg: text) {
    if |arg| == 1 then !IsPrint(arg[0]) else !IsPrintable(arg)
  }

  /** The values that come back. */
  predicate Faithful(arg: text) {
    NeedsBinary(arg) ==> QuotesAtEnds(arg) && NoLookalike(arg)
  }

  /** What a value is read back as. */
  function Reread(arg: text): text {
    if NeedsBinary(arg) then ExtractedBinary(BinaryEscaped(arg)) else arg
  }

  predicate IsMultiline(arg: text) {
    |arg| > 100 && IsPrintable(arg) && HasEscapable(arg)
  }

  lemma WordIsBare(p: text)
    requires IsWord(p)
    ensures IsBareText(p) && !NeedsBinary(p)
  {
  }

  lemma NumberIsBare(p: text)
    requires p != [] && forall i :: 0 <= i < |p| ==> IsNumberChar(p[i])
    ensures IsBareText(p) && !NeedsBinary(p)
  {
  }

  lemma BasedIsBare(p: text)
    requires IsBased(p)
    ensures IsBareText(p) && !NeedsBinary(p)
  {
    forall i | 0 <= i < |p| ensures IsBareChar(p[i]) {
      assert i >= 2 ==> IsHex(p[i]);
    }
  }

  lemma NeedsBinaryUnprintable(arg: text)
    requires NeedsBinary(arg)
    ensures HasUnprintable(arg)
  {
  }

  /** A bare value is left alone. */
  lemma BareReads(p: text)
    requires IsBareText(p)
    ensures Processed(p) == Ok(p)
  {
    hide IsBareChar, ExtractedBinary, Unescaped;
    BareChars();
    assert IsBareChar(p[0]);
    NotStarts(p, OPENING, 0);
    if |p| > 1 {
      assert IsBareChar(p[1]);
      NotStarts(p, BARE_OPENING, 1);
    }
  }

  lemma NotStarts(s: text, t: text, i: nat)
    requires i < |s| && i < |t| && s[i] != t[i]
    ensures !StartsWith(s, t)
  {
    if |t| <= |s| { assert s[..|t|][i] == s[i]; }
  }

  lemma BareChars()
    ensures !IsBareChar('\"') && !IsBareChar('\'') && !IsBareChar('`') && !IsBareChar('[') && !IsBareChar(' ') && !IsBareChar(',')
  {
  }

  /** A string between double quotes is read as its inside, unescaped when there is a backslash. */
  lemma StringReads(inside: text)
    ensures Processed([STRING_QUOTE] + inside + [STRING_QUOTE]) == if '\\' in inside then Unescaped(inside) else Ok(inside)
  {
    hide ExtractedBinary, Unescaped;
    var p := [STRING_QUOTE] + inside + [STRING_QUOTE];
    assert p[1..|p| - 1] == inside;
    NotStarts(p, BARE_OPENING, 0);
    NotStarts(p, OPENING, 0);
  }

  lemma LiteralReads(c: byte)
    ensures Processed([LITERAL_QUOTE, c, LITERAL_QUOTE]) == Ok([c])
  {
    var p := [LITERAL_QUOTE, c, LITERAL_QUOTE];
    assert p[1..2] == [c];
    NotStarts(p, BARE_OPENING, 0);
  }

  lemma {:induction false} EscapedHasBackslash(s: text)
    requires HasEscapable(s)
    ensures '\\' in Escaped(s)
  {
    hide Escapable, CodeOf;
    EscapedCharShape(s[0]);
    if Escapable(s[0]) {
      assert Escaped(s)[0] == '\\';
    } else {
      var i :| 0 <= i < |s| && Escapable(s[i]);
      assert s[1..][i - 1] == s[i];
      EscapedHasBackslash(s[1..]);
    }
  }

  lemma NoBackslash(s: text)
    requires !HasEscapable(s)
    ensures '\\' !in s
  {
    assert Escapable('\\');
    assert forall i :: 0 <= i < |s| ==> !Escapable(s[i]);
  }

  /** The main fact about one value. */
  lemma ConvertedReads(arg: text, castable: text -> bool, noMultiline: bool)
    requires noMultiline || !IsMultiline(arg)
    ensures var p := Converted(arg, castable, noMultiline); IsPiece(p) && Processed(p) == Ok(Reread(arg))
  {
    hide Processed, BinaryEscaped, Escaped, Unescaped, IsBareText, IsQuotedText, IsWord, IsBased, IsNumberChar, IsPrint,
         HasEscapable, ExtractedBinary, HasUnprintable, StartsWith;
    if arg == [] {
      StringReads([]);
      NothingEscapable();
      StringIsPiece([]);
      assert [STRING_QUOTE] + [] + [STRING_QUOTE] == [STRING_QUOTE, STRING_QUOTE];
    } else if IsWord(arg) {
      WordIsBare(arg);
      BareReads(arg);
    } else if IsNumber(arg, castable) {
      NumberIsBare(arg);
      BareReads(arg);
    } else if NeedsBinary(arg) {
      if |arg| > 1 && IsBased(arg) { BasedIsBare(arg); }
      BinaryReads(arg);
    } else if |arg| == 1 {
      SingleReads(arg);
    } else if IsBased(arg) {
      BasedIsBare(arg);
      BareReads(arg);
    } else if HasEscapable(arg) {
      EscapedIsPiece(arg);
      StringReads(Escaped(arg));
      EscapedHasBackslash(arg);
      UnescapeEscaped(arg);
    } else {
      StringIsPiece(arg);
      StringReads(arg);
      NoBackslash(arg);
    }
  }

  lemma NothingEscapable()
    ensures !HasEscapable([])
  {
  }

  lemma BinaryReads(arg: text)
    requires NeedsBinary(arg)
    ensures IsQuotedText(BinaryEscaped(arg)) && Processed(BinaryEscaped(arg)) == Ok(Reread(arg))
  {
    hide BinaryEscaped, ExtractedBinary;
    NeedsBinaryUnprintable(arg);
    BinaryShape(arg);
    BinaryIsPiece(arg);
  }

  lemma SingleReads(arg: text)
    requires |arg| == 1 && IsPrint(arg[0])
    ensures var p := if arg[0] == '\'' then [STRING_QUOTE, '\'', STRING_QUOTE] else [LITERAL_QUOTE] + arg + [LITERAL_QUOTE];
            IsQuotedText(p) && Processed(p) == Ok(arg)
  {
    if arg[0] == '\'' {
      assert arg == ['\''];
      assert [STRING_QUOTE] + ['\''] + [STRING_QUOTE] == [STRING_QUOTE, '\'', STRING_QUOTE];
      StringReads(['\'']);
      StringIsPiece(['\'']);
    } else {
      assert [LITERAL_QUOTE] + arg + [LITERAL_QUOTE] == [LITERAL_QUOTE, arg[0], LITERAL_QUOTE];
      assert arg == [arg[0]];
      LiteralReads(arg[0]);
    }
  }

  lemma FaithfulExactly(arg: text)
    ensures Reread(arg) == arg <==> Faithful(arg)
  {
    hide BinaryEscaped, ExtractedBinary, QuotesAtEnds, NoLookalike;
    if NeedsBinary(arg) {
      NeedsBinaryUnprintable(arg);
      BinaryRoundTrip(arg);
    }
  }

  // ---------------------------------------------------------------------
  // Cutting a written list
  // ---------------------------------------------------------------------

  /** Text that trimming leaves alone. */
  predicate Solid(s: text) {
    s != [] && !IsSpace(s[0]) && !IsSpace(s[|s| - 1])
  }

  lemma TrimSolid(s: text)
    requires Solid(s)
    ensures Trim(s) == s && Trim([' '] + s) == s
  {
    var t := [' '] + s;
    assert t[|t| - 1] == s[|s| - 1];
    assert t[1..] == s;
  }

  lemma PieceSolid(p: text)
    requires IsPiece(p)
    ensures Solid(p)
  {
    if IsBareText(p) {
      assert IsBareChar(p[0]) && IsBareChar(p[|p| - 1]);
    }
  }

  lemma SolidJoin(p: text, rest: text)
    requires Solid(p) && (rest == [] || !IsSpace(rest[|rest| - 1]))
    ensures Solid(p + rest)
  {
    if rest == [] { assert p + rest == p; }
  }

  lemma {:induction false} FindDelimiterSkips(s: text, i: nat, j: nat, delimiter: byte)
    requires i <= j <= |s| && forall k :: i <= k < j ==> !Delimits(s[k], delimiter)
    ensures FindDelimiter(s, i, delimiter) == FindDelimiter(s, j, delimiter)
    decreases j - i
  {
    if i < j { FindDelimiterSkips(s, i + 1, j, delimiter); }
  }

  /** The first piece of a written list is cut off with its comma, and the rest trimmed. */
  lemma FirstPiece(p: text, more: text)
    requires IsPiece(p) && Solid(more)
    ensures Pieces(p + ([SEPARATOR, ' '] + more), SEPARATOR) == [p] + Pieces(more, SEPARATOR)
  {
    hide IsBareText, IsQuotedText, IsBareChar, Trim, Solid, Delimits;
    var s := p + ([SEPARATOR, ' '] + more);
    TrimSolid(more);
    if IsQuotedText(p) {
      QuotedFirst(p, [SEPARATOR, ' '] + more);
      assert s[..|p|] == p && s[|p| + 1..] == [' '] + more;
    } else {
      BareFirst(p, [SEPARATOR, ' '] + more);
      assert s[..|p|] == p && s[|p| + 1..] == [' '] + more;
    }
  }

  lemma QuotedFirst(p: text, rest: text)
    requires IsQuotedText(p)
    ensures var s := p + rest; |p| >= 2 && Opens(s[0]) && SequenceEnd(s, 0, Closer(s[0])) == |p| - 1
  {
    QuotedPieceEnds([], p, rest);
    assert [] + p + rest == p + rest;
  }

  lemma BareFirst(p: text, rest: text)
    requires IsBareText(p) && (rest == [] || rest[0] == SEPARATOR)
    ensures var s := p + rest; p != [] && !Opens(s[0]) && FindDelimiter(s, 0, SEPARATOR) == |p|
  {
    var s := p + rest;
    forall k | 0 <= k < |p| ensures !Delimits(s[k], SEPARATOR) { assert IsBareChar(p[k]); }
    FindDelimiterSkips(s, 0, |p|, SEPARATOR);
    assert IsBareChar(p[0]);
  }

  /** A piece alone stays whole, whatever the delimiter when it is quoted. */
  lemma OnlyPiece(p: text, delimiter: byte)
    requires IsPiece(p) && (delimiter == SEPARATOR || IsQuotedText(p))
    ensures Pieces(p, delimiter) == [p]
  {
    hide IsBareText, IsQuotedText, Delimits, Trim;
    assert p + [] == p;
    if IsQuotedText(p) {
      QuotedFirst(p, []);
      assert p[..|p|] == p;
      TrimNothing();
    } else {
      BareFirst(p, []);
    }
  }

  function ConvertedAll(args: seq<text>, castable: text -> bool, noMultiline: bool): (r: seq<text>)
    ensures |r| == |args|
  {
    if args == [] then [] else [Converted(args[0], castable, noMultiline)] + ConvertedAll(args[1..], castable, noMultiline)
  }

  lemma {:induction false} TailEnds(args: seq<text>, castable: text -> bool)
    ensures var t := JoinedTail(args, castable, true); t == [] || !IsSpace(t[|t| - 1])
    decreases |args|
  {
    hide Converted, IsPiece;
    if args != [] {
      var p, t := Converted(args[0], castable, true), JoinedTail(args[1..], castable, true);
      ConvertedReads(args[0], castable, true);
      PieceSolid(p);
      TailEnds(args[1..], castable);
      SolidJoin(p, t);
    }
  }

  /** Cutting the inside of a written array gives the written values. */
  lemma {:induction false} PiecesOfList(first: text, args: seq<text>, castable: text -> bool)
    ensures var inside := Converted(first, castable, true) + JoinedTail(args, castable, true);
            Solid(inside) && Pieces(inside, SEPARATOR) == [Converted(first, castable, true)] + ConvertedAll(args, castable, true)
    decreases |args|
  {
    hide Converted, IsPiece, Pieces, Solid;
    var p, t := Converted(first, castable, true), JoinedTail(args, castable, true);
    ConvertedReads(first, castable, true);
    PieceSolid(p);
    TailEnds(args, castable);
    SolidJoin(p, t);
    if args == [] {
      assert p + [] == p && [p] + [] == [p];
      OnlyPiece(p, SEPARATOR);
    } else {
      PiecesOfList(args[0], args[1..], castable);
      FirstPiece(p, Converted(args[0], castable, true) + JoinedTail(args[1..], castable, true));
    }
  }

  /** The pieces of every written list are its written values. */
  lemma PiecesOfJoined(args: seq<text>, castable: text -> bool)
    requires args != [] && (|args| == 1 ==> !IsMultiline(args[0]))
    ensures ItemPieces(Joined(args, castable)) == ConvertedAll(args, castable, |args| > 1)
  {
    hide Converted, Pieces, IsPiece, JoinedTail, Trim, Solid, IsMultiline;
    var many := |args| > 1;
    var inside := Converted(args[0], castable, many) + JoinedTail(args[1..], castable, many);
    if many {
      PiecesOfList(args[0], args[1..], castable);
      TrimSolid(inside);
      var item := ['['] + inside + [']'];
      assert item[1..|item| - 1] == inside;
    } else {
      assert args[1..] == [];
      OnlyTail(castable);
      var p := Converted(args[0], castable, false);
      assert inside == p;
      ConvertedReads(args[0], castable, false);
      OneItem(p);
      assert ConvertedAll(args, castable, false) == [p];
    }
  }

  lemma OnlyTail(castable: text -> bool)
    ensures forall p: text :: p + JoinedTail([], castable, false) == p
  {
  }

  lemma OneItem(p: text)
    requires IsPiece(p)
    ensures ItemPieces(p) == [p]
  {
    hide Pieces, Trim, Solid, IsBareChar;
    PieceSolid(p);
    TrimSolid(p);
    BareChars();
    if IsQuotedText(p) {
      OnlyPiece(p, SEPARATOR);
      OnlyPiece(p, '\0');
    } else {
      forall i | 0 <= i < |p| ensures p[i] != SEPARATOR && p[i] != ' ' { assert IsBareChar(p[i]); }
      assert IsBareChar(p[0]);
    }
  }

  function RereadAll(args: seq<text>): (r: seq<text>)
    ensures |r| == |args|
  {
    if args == [] then [] else [Reread(args[0])] + RereadAll(args[1..])
  }

  lemma {:induction false} ProcessedPieces(args: seq<text>, castable: text -> bool, noMultiline: bool)
    requires noMultiline || forall i :: 0 <= i < |args| ==> !IsMultiline(args[i])
    ensures ProcessedAll(ConvertedAll(args, castable, noMultiline)) == Ok(RereadAll(args))
    decreases |args|
  {
    hide Converted, Processed, Reread, IsMultiline, IsPiece;
    if args != [] {
      ConvertedReads(args[0], castable, noMultiline);
      ProcessedPieces(args[1..], castable, noMultiline);
      var ps := ConvertedAll(args, castable, noMultiline);
      assert ps[1..] == ConvertedAll(args[1..], castable, noMultiline);
    }
  }

  lemma {:induction false} RereadAllExactly(args: seq<text>)
    ensures RereadAll(args) == args <==> forall i :: 0 <= i < |args| ==> Faithful(args[i])
    decreases |args|
  {
    hide Reread, Faithful;
    if args != [] {
      FaithfulExactly(args[0]);
      RereadAllExactly(args[1..]);
      assert args == [args[0]] + args[1..];
      assert RereadAll(args)[1..] == RereadAll(args[1..]) && RereadAll(args)[0] == Reread(args[0]);
      FaithfulTail(args);
    }
  }

  lemma FaithfulTail(args: seq<text>)
    requires args != []
    ensures (forall i :: 0 <= i < |args| ==> Faithful(args[i]))
       <==> Faithful(args[0]) && forall i :: 0 <= i < |args[1..]| ==> Faithful(args[1..][i])
  {
    hide Faithful;
    if forall i :: 0 <= i < |args[1..]| ==> Faithful(args[1..][i]) {
      forall i | 1 <= i < |args| ensures Faithful(args[i]) { assert args[i] == args[1..][i - 1]; }
    }
  }

  /** Reading what was written never throws, and it gives the list back exactly when the list is not empty
      and every value that needs the binary form has single quotes at its ends only and nothing that looks
      like a hex form. (A single long value is written over several lines; that is left out.) */
  lemma RoundTrip(args: seq<text>, castable: text -> bool)
    requires |args| == 1 ==> !IsMultiline(args[0])
    ensures ItemRead(Joined(args, castable)).Ok?
    ensures ItemRead(Joined(args, castable)) == Ok(args)
       <==> args != [] && forall i :: 0 <= i < |args| ==> Faithful(args[i])
  {
    hide Converted, Joined, Faithful, IsMultiline, Processed, Reread;
    if args == [] {
      EmptyList(castable);
    } else {
      PiecesOfJoined(args, castable);
      ProcessedPieces(args, castable, |args| > 1);
      RereadAllExactly(args);
    }
  }

  /** An empty list is written as nothing, which is read as one empty value. */
  lemma EmptyList(castable: text -> bool)
    ensures ItemRead(Joined([], castable)) == Ok([[]])
  {
    var nothing: text := [];
    var pieces: seq<text> := [nothing];
    assert ItemPieces(nothing) == pieces;
    assert Processed(nothing) == Ok(nothing);
    assert ProcessedAll(pieces[1..]) == Ok([]);
    assert [nothing] + [] == pieces;
  }

  // ---------------------------------------------------------------------
  // A written array as a bracketed run: the reader may cut the item at a comment character first
  // ---------------------------------------------------------------------

  /** Characters of a bare value, or the separator and its blank, are plain content of a bracket. */
  lemma {:induction false} PlainContent(s: text, i: nat, k: nat, j: nat)
    requires i <= k <= j <= |s| && Content(s, k, j, ']')
    requires forall n :: i <= n < k ==> !Opens(s[n]) && s[n] != ']'
    ensures Content(s, i, j, ']')
    decreases k - i
  {
    if i < k { PlainContent(s, i + 1, k, j); }
  }

  lemma PieceContent(front: text, p: text, rest: text, j: nat)
    requires IsPiece(p)
    requires |front| + |p| <= j <= |front + p + rest| && Content(front + p + rest, |front| + |p|, j, ']')
    ensures Content(front + p + rest, |front|, j, ']')
  {
    hide IsQuotedText;
    var s, i := front + p + rest, |front|;
    if IsQuotedText(p) {
      QuotedPieceEnds(front, p, rest);
    } else {
      forall n | i <= n < i + |p| ensures !Opens(s[n]) && s[n] != ']' {
        assert s[n] == p[n - i] && IsBareChar(p[n - i]);
      }
      PlainContent(s, i, i + |p|, j);
    }
  }

  /** A separator, its blank and a piece before some content. */
  lemma SeparatedContent(front: text, p: text, more: text, s: text, j: nat)
    requires IsPiece(p) && s == front + [SEPARATOR, ' '] + p + more
    requires |front| + 2 + |p| <= j <= |s| && Content(s, |front| + 2 + |p|, j, ']')
    ensures Content(s, |front|, j, ']')
  {
    hide IsPiece, Opens, Content;
    PieceContent(front + [SEPARATOR, ' '], p, more, j);
    SeparatorPlain();
    assert s[|front|] == SEPARATOR && s[|front| + 1] == ' ';
    PlainContent(s, |front|, |front| + 2, j);
  }

  /** The rest of a list before some content. */
  lemma {:induction false} TailContent(front: text, args: seq<text>, castable: text -> bool, rest: text, j: nat)
    requires var t := JoinedTail(args, castable, true); var i := |front| + |t|;
             i <= j <= i + |rest| && Content(front + t + rest, i, j, ']')
    ensures var t := JoinedTail(args, castable, true); Content(front + t + rest, |front|, j, ']')
    decreases |args|
  {
    hide Converted, IsPiece, Opens, Content;
    var t := JoinedTail(args, castable, true);
    var s := front + t + rest;
    if args != [] {
      var p, u := Converted(args[0], castable, true), JoinedTail(args[1..], castable, true);
      var head := front + [SEPARATOR, ' '] + p;
      assert head + u + rest == s && head + (u + rest) == s;
      TailContent(head, args[1..], castable, rest, j);
      ConvertedReads(args[0], castable, true);
      SeparatedContent(front, p, u + rest, s, j);
    }
  }

  lemma NoContent(s: text, i: nat)
    requires i <= |s|
    ensures Content(s, i, i, ']')
  {
  }

  lemma SeparatorPlain()
    ensures !Opens(SEPARATOR) && !Opens(' ')
  {
  }

  /** A written array is one bracketed run to its end, so cutting the item at a comment character, or at
      any delimiter, leaves it whole, even with that character inside its values. */
  lemma ArrayStaysWhole(args: seq<text>, castable: text -> bool, delimiter: byte)
    requires |args| > 1
    ensures var item := Joined(args, castable);
            SequenceEnd(item, 0, ']') == |item| - 1 && Split(item, delimiter) == [item]
  {
    hide SequenceEnd, Split, Joined;
    ArrayIsRun(args, castable);
    WholeRun(Joined(args, castable), delimiter);
  }

  lemma ArrayIsRun(args: seq<text>, castable: text -> bool)
    requires |args| > 1
    ensures var item := Joined(args, castable);
            |item| > 1 && item[0] == '[' && item[|item| - 1] == ']' && SequenceEnd(item, 0, ']') == |item| - 1
  {
    hide Converted, IsPiece, Content, SequenceEnd, JoinedTail;
    var item := Joined(args, castable);
    NoContent(item, |item| - 1);
    OpenContent(args, castable, [']'], |item| - 1);
    BracketEnd(item, 0, ']', |item| - 1);
  }

  /** After the opening bracket, the values and their separators are content of the bracket. */
  lemma OpenContent(args: seq<text>, castable: text -> bool, rest: text, j: nat)
    requires args != []
    requires var inside := Converted(args[0], castable, true) + JoinedTail(args[1..], castable, true);
             1 + |inside| <= j <= 1 + |inside| + |rest| && Content(['['] + inside + rest, 1 + |inside|, j, ']')
    ensures var inside := Converted(args[0], castable, true) + JoinedTail(args[1..], castable, true);
            Content(['['] + inside + rest, 1, j, ']')
  {
    hide Converted, IsPiece, Content, JoinedTail;
    var p, t := Converted(args[0], castable, true), JoinedTail(args[1..], castable, true);
    var open: text := ['['];
    assert open + (p + t) + rest == (open + p) + t + rest;
    TailContent(open + p, args[1..], castable, rest, j);
    assert open + (p + t) + rest == open + p + (t + rest);
    ConvertedReads(args[0], castable, true);
    PieceContent(open, p, t + rest, j);
  }

  lemma WholeRun(item: text, delimiter: byte)
    requires |item| > 1 && item[0] == '[' && item[|item| - 1] == ']' && SequenceEnd(item, 0, ']') == |item| - 1
    ensures Split(item, delimiter) == [item]
  {
    hide SequenceEnd, Trim;
    TrimSolid(item);
    TrimNothing();
    assert item[..|item|] == item;
    assert Closer(item[0]) == ']';
    assert Pieces([], delimiter) == [];
    assert [item] + [] == [item];
  }

  // ---------------------------------------------------------------------
  // The printed forms, by example
  // ---------------------------------------------------------------------

  /** Bare words, numbers and based numbers, single characters between single quotes, text between double quotes. */
  lemma Forms(castable: text -> bool, noMultiline: bool)
    ensures Converted([], castable, noMultiline) == ['\"', '\"']
    ensures Converted(['t', 'r', 'u', 'e'], castable, noMultiline) == ['t', 'r', 'u', 'e']
    ensures castable(['1', '2']) ==> Converted(['1', '2'], castable, noMultiline) == ['1', '2']
    ensures !castable(['1', '2']) ==> Converted(['1', '2'], castable, noMultiline) == ['\"', '1', '2', '\"']
    ensures Converted(['a'], castable, noMultiline) == ['\'', 'a', '\'']
    ensures Converted(['\''], castable, noMultiline) == ['\"', '\'', '\"']
    ensures Converted(['0', 'x', 'F'], castable, noMultiline) == ['0', 'x', 'F']
    ensures Converted(['a', ' '], castable, noMultiline) == ['\"', 'a', ' ', '\"']
  {
    hide BinaryEscaped;
    FormBased(castable, noMultiline);
    FormText(castable, noMultiline);
    FormNumber(castable, noMultiline);
    FormSingle(castable, noMultiline);
  }

  lemma FormBased(castable: text -> bool, noMultiline: bool)
    ensures Converted(['0', 'x', 'F'], castable, noMultiline) == ['0', 'x', 'F']
  {
    var s: text := ['0', 'x', 'F'];
    assert s[..2] == ['0', 'x'];
    assert IsBased(s);
  }

  lemma FormNumber(castable: text -> bool, noMultiline: bool)
    ensures Converted(['1', '2'], castable, noMultiline) == if castable(['1', '2']) then ['1', '2'] else ['\"', '1', '2', '\"']
  {
    hide BinaryEscaped;
    var s: text := ['1', '2'];
    assert s[..2] != ['0', 'x'] && s[..2] != ['0', 'X'] by { assert s[..2][0] == '1'; }
    assert forall i :: 0 <= i < |s| ==> IsNumberChar(s[i]) && IsPrint(s[i]) && !Escapable(s[i]);
  }

  lemma FormText(castable: text -> bool, noMultiline: bool)
    ensures Converted(['a', ' '], castable, noMultiline) == ['\"', 'a', ' ', '\"']
  {
    hide BinaryEscaped;
    var s: text := ['a', ' '];
    assert !IsNumberChar(s[1]);
    assert forall i :: 0 <= i < |s| ==> IsPrint(s[i]) && !Escapable(s[i]);
  }

  lemma FormSingle(castable: text -> bool, noMultiline: bool)
    ensures Converted(['a'], castable, noMultiline) == ['\'', 'a', '\''] && Converted(['\''], castable, noMultiline) == ['\"', '\'', '\"']
  {
    hide BinaryEscaped;
    var s: text, t: text := ['a'], ['\''];
    assert !IsNumberChar(s[0]) && !IsNumberChar(t[0]);
  }
}
