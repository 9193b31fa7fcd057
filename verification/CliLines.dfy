/** A value as it stands in a configuration file, CLI11.hpp: what `from_config` makes of the text after the equals sign
    and of the lines that follow it to the end of the file. A single long value is written over several lines. */
module CliLines {
  import opened CliBinary
  import opened CliBrackets
  import opened CliEscapes
  import opened CliSplit
  import opened CliValues
  import opened Text

  // ---------------------------------------------------------------------
  // Lines
  // ---------------------------------------------------------------------

  /** What `getline` reads, one line after the other. */
  function Lines(s: text): (r: seq<text>)
    ensures r != []
  {
    if s == [] then [[]]
    else
      var rest := Lines(s[1..]);
      if s[0] == '\n' then [[]] + rest else [[s[0]] + rest[0]] + rest[1..]
  }

  function Unlined(lines: seq<text>): text {
    if lines == [] then [] else if |lines| == 1 then lines[0] else lines[0] + (['\n'] + Unlined(lines[1..]))
  }

  lemma {:induction false} UnlinedLines(s: text)
    ensures Unlined(Lines(s)) == s
    ensures forall k :: 0 <= k < |Lines(s)| ==> '\n' !in Lines(s)[k]
  {
    if s != [] {
      UnlinedLines(s[1..]);
      var rest := Lines(s[1..]);
      assert s == [s[0]] + s[1..];
      if s[0] == '\n' {
        assert ([[]] + rest)[1..] == rest;
        assert [] + (['\n'] + Unlined(rest)) == ['\n'] + s[1..];
      } else {
        var first := [s[0]] + rest[0];
        assert ([first] + rest[1..])[1..] == rest[1..];
        if |rest| > 1 { assert first + (['\n'] + Unlined(rest[1..])) == [s[0]] + (rest[0] + (['\n'] + Unlined(rest[1..]))); }
      }
    }
  }

  lemma {:induction false} LinesAfter(front: text, s: text)
    requires '\n' !in front
    ensures Lines(front + s) == [front + Lines(s)[0]] + Lines(s)[1..]
  {
    if front == [] {
      assert front + s == s && front + Lines(s)[0] == Lines(s)[0];
    } else {
      LinesAfter(front[1..], s);
      assert (front + s)[1..] == front[1..] + s;
      assert [front[0]] + (front[1..] + Lines(s)[0]) == front + Lines(s)[0];
    }
  }

  function Front<T>(s: seq<T>): seq<T>
    requires s != []
  {
    s[..|s| - 1]
  }

  function Last<T>(s: seq<T>): T
    requires s != []
  {
    s[|s| - 1]
  }

  lemma NoLineBreak(back: text)
    requires '\n' !in back
    ensures Lines(back) == [back]
  {
    LinesAfter(back, []);
    assert Lines([]) == [[]] && back + [] == back;
  }

  lemma {:induction false} LinesBefore(s: text, back: text)
    requires '\n' !in back
    ensures Lines(s + back) == Front(Lines(s)) + [Last(Lines(s)) + back]
  {
    if s == [] {
      assert s + back == back && [] + back == back;
      NoLineBreak(back);
    } else {
      LinesBefore(s[1..], back);
      assert (s + back)[1..] == s[1..] + back;
      LastLineGrows(s[0], Lines(s[1..]), back);
    }
  }

  lemma LastLineGrows(c: byte, rest: seq<text>, back: text)
    requires rest != []
    ensures [[]] + (Front(rest) + [Last(rest) + back]) == Front([[]] + rest) + [Last([[]] + rest) + back]
    ensures var more := Front(rest) + [Last(rest) + back];
      var lines := [[c] + rest[0]] + rest[1..];
      [[c] + more[0]] + more[1..] == Front(lines) + [Last(lines) + back]
  {
    if |rest| == 1 {
      assert [c] + (rest[0] + back) == [c] + rest[0] + back;
    } else {
      var more := Front(rest) + [Last(rest) + back];
      var lines := [[c] + rest[0]] + rest[1..];
      assert more[0] == rest[0] && Last(lines) == Last(rest);
      assert more[1..] == Front(lines)[1..] + [Last(rest) + back];
    }
  }

  // ---------------------------------------------------------------------
  // Reading
  // ---------------------------------------------------------------------

  const TRIPLE: text := ['\"', '\"', '\"']

  /** `hasMLString`. */
  predicate EndsTriple(line: text, key: byte) {
    |line| >= 3 && line[|line| - 1] == key && line[|line| - 2] == key && line[|line| - 3] == key
  }

  predicate EndsWithBackslash(s: text) {
    s != [] && s[|s| - 1] == '\\'
  }

  function WithoutBackslash(s: text): text {
    if EndsWithBackslash(s) then s[..|s| - 1] else s
  }

  /** The newline between two lines, which an extended line and an empty beginning do without. */
  function Joint(item: text, first: bool, extended: bool): text {
    if extended || (first && item == []) then item else item + ['\n']
  }

  function WithoutNewline(s: text): text {
    if s != [] && s[|s| - 1] == '\n' then s[..|s| - 1] else s
  }

  /** A multi-line value, and whether its end was found. */
  datatype Multi = Multi(item: text, closed: bool)

  function MultiRead(item: text, more: seq<text>, first: bool, extended: bool, key: byte): Multi
    decreases |more|
  {
    if more == [] then Multi(item, false)
    else
      var line := Rtrim(more[0]);
      if EndsTriple(line, key) then
        var l := line[..|line| - 3];
        Multi(WithoutNewline(Joint(item, first, extended) + if extended then Ltrim(l) else l), true)
      else
        var l := if extended then Trim(more[0]) else more[0];
        MultiRead(Joint(item, first, extended) + WithoutBackslash(l), more[1..], false, EndsWithBackslash(l), key)
  }

  /** An array is continued on the next lines while it does not end in its bracket. */
  function Continued(item: text, more: seq<text>): text
    decreases |more|
  {
    if |item| > 1 && item[0] == '[' && item[|item| - 1] != ']' && more != [] then Continued(item + Trim(more[0]), more[1..]) else item
  }

  function IsMulti(item: text): bool { StartsWith(item, MULTILINE) || StartsWith(item, TRIPLE) }

  /** The comment goes, except from a multi-line value. */
  function CommentCut(first: text): text {
    var item := Trim(first);
    if COMMENT in first && Split(item, COMMENT) != [] then Trim(Split(item, COMMENT)[0]) else item
  }

  function MultiValue(first: text, more: seq<text>): Result<seq<text>> {
    var s := Ltrim(first);
    if |s| < 3 then Invalid
    else
      var m := MultiRead(WithoutBackslash(s[3..]), more, true, EndsWithBackslash(s[3..]), s[0]);
      var item := if m.closed && s[0] == '\"' then Unescaped(m.item) else Ok(m.item);
      if item.Invalid? then Invalid else ProcessedAll([item.value])
  }

  lemma OneProcessed(item: text)
    ensures ProcessedAll([item]) == if Processed(item).Invalid? then Invalid else Ok([Processed(item).value])
  {
    hide Processed;
    assert [item][1..] == [];
    assert forall v: text :: [v] + [] == [v];
  }

  /** The text after the equals sign, and the lines after it. */
  function ValueRead(first: text, more: seq<text>): Result<seq<text>> {
    if IsMulti(Trim(first)) then MultiValue(first, more) else ItemRead(Continued(CommentCut(first), more))
  }

  /** `from_config` on one value, to the end of the file. */
  method ReadValue(first: text, more: seq<text>) returns (r: Result<seq<text>>)
    ensures r == ValueRead(first, more)
  {
    hide Trim, Split, Processed, Unescaped, Ltrim, Rtrim;
    var item := Trim(first);
    if IsMulti(item) {
      r := ReadMulti(first, more);
      return;
    }
    if COMMENT in first {
      var citems := SplitUp(item, COMMENT);
      if citems != [] { item := Trim(citems[0]); }
    }
    ghost var start := item;
    var rest := more;
    while |item| > 1 && item[0] == '[' && item[|item| - 1] != ']' && rest != []
      invariant Continued(item, rest) == Continued(start, more)
      decreases |rest|
    {
      item := item + Trim(rest[0]);
      rest := rest[1..];
    }
    r := ReadItem(item);
  }

  method ReadMulti(first: text, more: seq<text>) returns (r: Result<seq<text>>)
    ensures r == MultiValue(first, more)
  {
    hide Processed, Unescaped, Ltrim, Rtrim, Trim;
    var s := Ltrim(first);
    if |s| < 3 { return Invalid; }
    var key := s[0];
    var item, extended, firstLine, rest, closed := WithoutBackslash(s[3..]), EndsWithBackslash(s[3..]), true, more, false;
    ghost var all := MultiRead(item, rest, firstLine, extended, key);
    while rest != [] && !closed
      invariant all == if closed then Multi(item, true) else MultiRead(item, rest, firstLine, extended, key)
      decreases |rest|, !closed
    {
      var line := Rtrim(rest[0]);
      item := Joint(item, firstLine, extended);
      if EndsTriple(line, key) {
        var l := line[..|line| - 3];
        item := WithoutNewline(item + if extended then Ltrim(l) else l);
        closed := true;
      } else {
        var l := if extended then Trim(rest[0]) else rest[0];
        extended, firstLine := EndsWithBackslash(l), false;
        item := item + WithoutBackslash(l);
        rest := rest[1..];
      }
    }
    if closed && key == '\"' {
      var u := RemoveEscapedCharacters(item);
      if u.Invalid? { return Invalid; }
      item := u.value;
    }
    var v := ProcessQuotedString(item);
    OneProcessed(item);
    return if v.Invalid? then Invalid else Ok([v.value]);
  }

  // ---------------------------------------------------------------------
  // Reading a value never makes it longer
  // ---------------------------------------------------------------------

  lemma {:induction false} ExtractedNoLonger(s: text, loc: nat, stop: int)
    ensures |Extracted(s, loc, stop)| <= if loc < stop then stop - loc else 0
    decreases stop - loc
  {
    hide HexAt, HexPairValue;
    if loc < stop { ExtractedNoLonger(s, if HexAt(s, loc) then loc + 4 else loc + 1, stop); }
  }

  lemma EscapeShort(s: text)
    requires |s| >= 2 && EscapeValue(s).Ok?
    ensures |EscapeValue(s).value| <= EscapeLength(s)
  {
    hide HexValue, AllHex;
  }

  lemma {:induction false} UnescapedNoLonger(s: text)
    requires Unescaped(s).Ok?
    ensures |Unescaped(s).value| <= |s|
    decreases |s|
  {
    hide EscapeValue, EscapeLength;
    if s != [] {
      if s[0] != '\\' {
        UnescapedNoLonger(s[1..]);
      } else {
        EscapeShort(s);
        UnescapedNoLonger(s[EscapeLength(s)..]);
      }
    }
  }

  /** Text that `process_quoted_string` leaves alone: no quote character round the whole, and no binary string. */
  predicate Unquoted(s: text) {
    |s| <= 1 || (!IsBinaryEscaped(s) && !(s[0] == s[|s| - 1] && (s[0] == '\"' || s[0] == '\'' || s[0] == '`')))
  }

  lemma ProcessedNoLonger(s: text)
    requires Processed(s).Ok?
    ensures Unquoted(s) ==> Processed(s).value == s
    ensures !Unquoted(s) ==> |Processed(s).value| < |s|
  {
    hide Extracted, Unescaped;
    if |s| > 1 {
      if IsBinaryEscaped(s) {
        ExtractedNoLonger(s, 3, |s| - 2);
        ExtractedNoLonger(s, 4, |s| - 3);
      } else if s[0] == STRING_QUOTE && s[|s| - 1] == STRING_QUOTE {
        var inside := WithoutOuter(s, STRING_QUOTE);
        if '\\' in inside { UnescapedNoLonger(inside); }
      }
    }
  }

  // ---------------------------------------------------------------------
  // Which long values come back
  // ---------------------------------------------------------------------

  /** Characters of the lines, each with the newline before it. */
  function Weight(more: seq<text>): nat {
    if more == [] then 0 else 1 + |more[0]| + Weight(more[1..])
  }

  /** The lines of a value after its first, as they are printed: the last one ends in the closing quotes. */
  ghost predicate Printed(more: seq<text>) {
    more != [] && EndsTriple(Last(more), LITERAL_QUOTE) && forall k :: 0 <= k < |more| ==> '\n' !in more[k]
  }

  /** No newline and no backslash gets lost, and the value does not end before its end. */
  predicate Kept(item: text, more: seq<text>, first: bool)
    requires more != []
  {
    && (first ==> item != [])
    && |Last(more)| > 3
    && forall k :: 0 <= k < |more| - 1 ==> !EndsTriple(Rtrim(more[k]), LITERAL_QUOTE) && !EndsWithBackslash(more[k])
  }

  function Tail(more: seq<text>): text
    requires more != [] && |Last(more)| >= 3
  {
    if |more| == 1 then ['\n'] + more[0][..|more[0]| - 3] else ['\n'] + (more[0] + Tail(more[1..]))
  }

  lemma {:induction false} RtrimKeeps(s: text, k: nat)
    requires k < |s| && !IsSpace(s[k])
    ensures k < |Rtrim(s)| && Rtrim(s) == s[..|Rtrim(s)|]
    decreases |s|
  {
    if IsSpace(s[|s| - 1]) {
      assert s[..|s| - 1][k] == s[k];
      RtrimKeeps(s[..|s| - 1], k);
      assert s[..|s| - 1][..|Rtrim(s)|] == s[..|Rtrim(s)|];
    } else {
      assert s[..|s|] == s;
    }
  }

  lemma LastLine(item: text, more: seq<text>, first: bool, extended: bool)
    requires Printed(more) && |more| == 1
    ensures var m := MultiRead(item, more, first, extended, LITERAL_QUOTE);
      m.closed && if !extended && Kept(item, more, first) then m.item == item + Tail(more) else |m.item| < |item| + Weight(more) - 3
  {
    hide Rtrim, Ltrim;
    var line := more[0];
    assert Rtrim(line) == line by { RtrimWhole(line); }
    var l := line[..|line| - 3];
    assert l != [] ==> l[|l| - 1] == line[|line| - 4];
    if !extended { assert item + ['\n'] + l == item + (['\n'] + l); }
    assert Weight(more) == 1 + |line| by { assert more[1..] == []; }
  }

  lemma RtrimWhole(s: text)
    requires s != [] && !IsSpace(s[|s| - 1])
    ensures Rtrim(s) == s
  {
  }

  lemma RtrimNoLonger(s: text)
    ensures |Rtrim(s)| <= |s| && |Ltrim(s)| <= |s| && |Trim(s)| <= |s|
  {
  }

  lemma WeightOfLast(more: seq<text>)
    requires more != []
    ensures Weight(more) == 1 + |more[0]| + Weight(more[1..])
    ensures |more| > 1 ==> Weight(more[1..]) >= 1
  {
  }

  /** A printed value is read up to its last line at the latest, and nothing in it is lost if and only if the lines
      are kept; otherwise it gets shorter. */
  lemma {:induction false} MultiExactly(item: text, more: seq<text>, first: bool, extended: bool)
    requires Printed(more)
    ensures var m := MultiRead(item, more, first, extended, LITERAL_QUOTE);
      m.closed && if !extended && Kept(item, more, first) then m.item == item + Tail(more) else |m.item| < |item| + Weight(more) - 3
    decreases |more|
  {
    hide Rtrim, Ltrim, Trim, Weight;
    if |more| == 1 {
      LastLine(item, more, first, extended);
    } else {
      WeightOfLast(more);
      RtrimNoLonger(more[0]);
      var line := Rtrim(more[0]);
      if EndsTriple(line, LITERAL_QUOTE) {
        RtrimNoLonger(line[..|line| - 3]);
      } else {
        MultiStep(item, more, first, extended);
      }
    }
  }

  lemma {:induction false} TailWeight(more: seq<text>)
    requires more != [] && |Last(more)| >= 3
    ensures |Tail(more)| == Weight(more) - 3
    decreases |more|
  {
    if |more| == 1 { assert more[1..] == []; } else { TailWeight(more[1..]); }
  }

  /** What a line adds, and when it loses something. */
  lemma NextItem(item: text, line: text, first: bool, extended: bool)
    ensures var l := if extended then Trim(line) else line;
      var next := Joint(item, first, extended) + WithoutBackslash(l);
      if !extended && (first ==> item != []) && !EndsWithBackslash(line) then next == item + (['\n'] + line)
      else |next| < |item| + 1 + |line|
  {
    hide Trim;
    RtrimNoLonger(line);
    assert item + ['\n'] + line == item + (['\n'] + line);
  }

  lemma KeptNext(item: text, next: text, more: seq<text>, first: bool)
    requires |more| > 1 && !EndsTriple(Rtrim(more[0]), LITERAL_QUOTE)
    ensures Kept(item, more, first) <==> (first ==> item != []) && !EndsWithBackslash(more[0]) && Kept(next, more[1..], false)
  {
    hide EndsTriple, Rtrim, EndsWithBackslash;
    assert Last(more[1..]) == Last(more);
    if Kept(item, more, first) {
      forall k | 0 <= k < |more| - 2 ensures more[1..][k] == more[k + 1] { }
    }
    if !EndsWithBackslash(more[0]) && Kept(next, more[1..], false) {
      forall k | 0 <= k < |more| - 1 ensures !EndsTriple(Rtrim(more[k]), LITERAL_QUOTE) && !EndsWithBackslash(more[k]) {
        if k > 0 { assert more[k] == more[1..][k - 1]; }
      }
    }
  }

  lemma MultiStep(item: text, more: seq<text>, first: bool, extended: bool)
    requires Printed(more) && |more| > 1 && !EndsTriple(Rtrim(more[0]), LITERAL_QUOTE)
    ensures var m := MultiRead(item, more, first, extended, LITERAL_QUOTE);
      m.closed && if !extended && Kept(item, more, first) then m.item == item + Tail(more) else |m.item| < |item| + Weight(more) - 3
    decreases |more|, 0
  {
    hide Rtrim, Ltrim, Trim, Weight, Kept, Joint, WithoutBackslash, EndsWithBackslash, EndsTriple;
    WeightOfLast(more);
    var l := if extended then Trim(more[0]) else more[0];
    var next := Joint(item, first, extended) + WithoutBackslash(l);
    assert Last(more[1..]) == Last(more);
    NextItem(item, more[0], first, extended);
    KeptNext(item, next, more, first);
    assert Printed(more[1..]) by { forall k | 0 <= k < |more| - 1 ensures more[1..][k] == more[k + 1] { } }
    assert |Last(more)| >= 3 by { TripleLength(Last(more)); }
    TailWeight(more[1..]);
    MultiExactly(next, more[1..], false, EndsWithBackslash(l));
    if !extended && Kept(item, more, first) {
      assert next + Tail(more[1..]) == item + (['\n'] + (more[0] + Tail(more[1..])));
    }
  }

  lemma TripleLength(s: text)
    requires EndsTriple(s, LITERAL_QUOTE)
    ensures |s| >= 3
  {
  }

  /** The values that come back from several lines: there are several, the first and the last are not empty, none but
      the last ends in a backslash, none between ends in three quotes, and no quotes stand round the whole. */
  predicate MultiFaithful(arg: text) {
    var lines := Lines(arg);
    && |lines| >= 2 && lines[0] != [] && Last(lines) != []
    && (forall k :: 0 <= k < |lines| - 1 ==> !EndsWithBackslash(lines[k]))
    && (forall k :: 1 <= k < |lines| - 1 ==> !EndsTriple(Rtrim(lines[k]), LITERAL_QUOTE))
    && Unquoted(arg)
  }

  /** The lines on which a long value stands in the file. */
  lemma PrintedLines(arg: text)
    ensures var lines, file := Lines(arg), Lines(MULTILINE + arg + MULTILINE);
      if |lines| == 1 then file == [MULTILINE + (arg + MULTILINE)]
      else file == [MULTILINE + lines[0]] + (lines[1..|lines| - 1] + [Last(lines) + MULTILINE])
  {
    hide Lines;
    var lines := Lines(arg);
    assert MULTILINE + arg + MULTILINE == MULTILINE + (arg + MULTILINE);
    LinesAfter(MULTILINE, arg + MULTILINE);
    LinesBefore(arg, MULTILINE);
    UnlinedLines(arg);
    if |lines| > 1 {
      assert Lines(arg + MULTILINE)[1..] == lines[1..|lines| - 1] + [Last(lines) + MULTILINE];
    }
  }

  lemma FirstIsMulti(s: text)
    ensures var first := MULTILINE + s; IsMulti(Trim(first)) && Ltrim(first) == first && first[3..] == s
  {
    var first := MULTILINE + s;
    RtrimKeeps(first, 2);
    assert Rtrim(first)[..3] == first[..3] == MULTILINE;
  }

  /** A long value without a newline runs on after its closing quotes, which are looked for from the next line on only. */
  lemma OneLineFails(arg: text)
    requires |arg| > 1 && |Lines(arg)| == 1
    ensures var file := Lines(MULTILINE + arg + MULTILINE); ValueRead(file[0], file[1..]) != Ok([arg])
  {
    hide Trim, Ltrim, Processed, Lines;
    PrintedLines(arg);
    var raw := arg + MULTILINE;
    FirstIsMulti(raw);
    var n := |raw|;
    assert raw[n - 1] == raw[n - 2] == raw[n - 3] == '\'';
    assert MultiRead(raw, [], true, false, LITERAL_QUOTE) == Multi(raw, false);
    OneProcessed(raw);
    if Processed(raw).Ok? {
      ProcessedNoLonger(raw);
      QuotesAtEnd(raw);
    }
  }

  /** With three quotes at its end a text loses two characters or none. */
  lemma QuotesAtEnd(raw: text)
    requires |raw| > 4 && raw[|raw| - 1] == raw[|raw| - 2] == raw[|raw| - 3] == '\'' && Processed(raw).Ok?
    ensures |Processed(raw).value| >= |raw| - 2
  {
    hide Extracted;
    var n := |raw|;
    assert !EndsWith(raw, BARE_CLOSING) by { assert raw[n - 2..][0] == raw[n - 2]; }
    assert !EndsWith(raw, CLOSING) by { assert raw[n - 3..][0] == raw[n - 3]; }
  }

  lemma {:induction false} TailOfLines(lines: seq<text>)
    requires lines != []
    ensures var more := Front(lines) + [Last(lines) + MULTILINE];
      Tail(more) == ['\n'] + Unlined(lines) && Weight(more) == |Unlined(lines)| + 4
    decreases |lines|
  {
    var more := Front(lines) + [Last(lines) + MULTILINE];
    if |lines| == 1 {
      assert more == [lines[0] + MULTILINE] && more[1..] == [];
    } else {
      TailOfLines(lines[1..]);
      assert more[1..] == Front(lines[1..]) + [Last(lines[1..]) + MULTILINE];
    }
  }

  /** A long value over several lines comes back exactly when it is faithful in that sense. */
  lemma SeveralLines(arg: text)
    requires |Lines(arg)| > 1
    ensures var file := Lines(MULTILINE + arg + MULTILINE); ValueRead(file[0], file[1..]) == Ok([arg]) <==> MultiFaithful(arg)
  {
    hide Trim, Ltrim, Rtrim, Processed, Lines, Unquoted, Weight, Tail;
    var lines := Lines(arg);
    PrintedLines(arg);
    FirstIsMulti(lines[0]);
    UnlinedLines(arg);
    var rest := lines[1..];
    var more := Front(rest) + [Last(rest) + MULTILINE];
    assert lines[1..|lines| - 1] == Front(rest) && Last(rest) == Last(lines);
    TailOfLines(rest);
    var item, extended := WithoutBackslash(lines[0]), EndsWithBackslash(lines[0]);
    assert Printed(more) by { PrintedRest(rest); }
    MultiExactly(item, more, true, extended);
    var m := MultiRead(item, more, true, extended, LITERAL_QUOTE);
    OneProcessed(m.item);
    assert arg == lines[0] + (['\n'] + Unlined(rest));
    KeptLines(lines, item, extended, more);
    if Processed(m.item).Ok? { ProcessedNoLonger(m.item); }
    if m.item == arg && Unquoted(arg) { UnquotedOk(arg); }
  }

  lemma UnquotedOk(s: text)
    requires Unquoted(s)
    ensures Processed(s) == Ok(s)
  {
  }

  lemma PrintedRest(rest: seq<text>)
    requires rest != [] && forall k :: 0 <= k < |rest| ==> '\n' !in rest[k]
    ensures Printed(Front(rest) + [Last(rest) + MULTILINE])
  {
    var line := Last(rest) + MULTILINE;
    var n := |line|;
    assert line[n - 1] == line[n - 2] == line[n - 3] == '\'';
  }

  lemma KeptLines(lines: seq<text>, item: text, extended: bool, more: seq<text>)
    requires |lines| > 1 && item == WithoutBackslash(lines[0]) && extended == EndsWithBackslash(lines[0])
    requires more == Front(lines[1..]) + [Last(lines[1..]) + MULTILINE]
    ensures !extended && Kept(item, more, true) <==>
      lines[0] != [] && Last(lines) != []
      && (forall k :: 0 <= k < |lines| - 1 ==> !EndsWithBackslash(lines[k]))
      && (forall k :: 1 <= k < |lines| - 1 ==> !EndsTriple(Rtrim(lines[k]), LITERAL_QUOTE))
  {
    hide Rtrim, EndsTriple;
    assert |more| == |lines| - 1 && Last(more) == Last(lines) + MULTILINE;
    forall k | 0 <= k < |more| - 1 ensures more[k] == lines[k + 1] { }
    if !extended && Kept(item, more, true) {
      forall k | 0 <= k < |lines| - 1 ensures !EndsWithBackslash(lines[k]) { if k > 0 { assert lines[k] == more[k - 1]; } }
      forall k | 1 <= k < |lines| - 1 ensures !EndsTriple(Rtrim(lines[k]), LITERAL_QUOTE) { assert lines[k] == more[k - 1]; }
    }
  }

  // ---------------------------------------------------------------------
  // Everything else stands on one line
  // ---------------------------------------------------------------------

  lemma CharOneLine(c: byte)
    ensures '\n' !in Quoteless(c)
  {
    forall k | 0 <= k < |Quoteless(c)| ensures Quoteless(c)[k] != '\n' { }
  }

  lemma {:induction false} QuotelessOneLine(m: text)
    ensures '\n' !in QuotelessAll(m)
  {
    if m != [] {
      QuotelessOneLine(m[1..]);
      CharOneLine(m[0]);
    }
  }

  lemma {:induction false} EscapedOneLine(s: text)
    ensures '\n' !in Escaped(s)
  {
    if s != [] {
      EscapedOneLine(s[1..]);
      assert '\n' !in EscapedChar(s[0]);
    }
  }

  lemma NotEscapable(s: text)
    requires !HasEscapable(s)
    ensures '\n' !in s
  {
    forall i | 0 <= i < |s| ensures s[i] != '\n' { assert !Escapable(s[i]); }
  }

  lemma WordsOneLine(s: text)
    requires IsWord(s) || IsBased(s) || forall i :: 0 <= i < |s| ==> IsNumberChar(s[i])
    ensures '\n' !in s
  {
    forall i | 0 <= i < |s| ensures s[i] != '\n' { }
  }

  lemma PieceOneLine(arg: text, castable: text -> bool, noMultiline: bool)
    requires noMultiline || !IsMultiline(arg)
    ensures '\n' !in Converted(arg, castable, noMultiline)
  {
    hide BinaryEscaped, Escaped, IsWord, IsNumberChar, IsBased, QuotelessAll, Mangled, HasEscapable;
    if arg == [] {
    } else if IsWord(arg) || IsNumber(arg, castable) {
      WordsOneLine(arg);
    } else if |arg| == 1 {
      if !IsPrint(arg[0]) { BinaryOneLine(arg); } else { assert arg == [arg[0]]; }
    } else if IsBased(arg) {
      WordsOneLine(arg);
    } else if !IsPrintable(arg) {
      BinaryOneLine(arg);
    } else if HasEscapable(arg) {
      EscapedOneLine(arg);
    } else {
      NotEscapable(arg);
    }
  }

  lemma BinaryOneLine(arg: text)
    requires NeedsBinary(arg)
    ensures '\n' !in BinaryEscaped(arg)
  {
    hide QuotelessAll, Mangled, BinaryEscaped, ExtractedBinary;
    NeedsBinaryUnprintable(arg);
    BinaryShape(arg);
    QuotelessOneLine(Mangled(0, arg));
  }

  lemma {:induction false} TailOneLine(args: seq<text>, castable: text -> bool)
    ensures '\n' !in JoinedTail(args, castable, true)
  {
    hide Converted;
    if args != [] {
      PieceOneLine(args[0], castable, true);
      TailOneLine(args[1..], castable);
    }
  }

  /** A printed list that is not a single long value. */
  predicate OnOneLine(args: seq<text>) {
    |args| == 1 ==> !IsMultiline(args[0])
  }

  lemma JoinedOneLine(args: seq<text>, castable: text -> bool)
    requires OnOneLine(args)
    ensures '\n' !in Joined(args, castable)
  {
    hide Converted, IsMultiline;
    if args != [] {
      PieceOneLine(args[0], castable, |args| > 1);
      if |args| > 1 { TailOneLine(args[1..], castable); } else { assert JoinedTail(args[1..], castable, false) == []; }
    }
  }

  lemma PieceNotMulti(p: text)
    requires IsPiece(p)
    ensures !IsMulti(p) && (IsBareText(p) ==> COMMENT !in p)
  {
    if IsBareText(p) {
      assert IsBareChar(p[0]);
      forall i | 0 <= i < |p| ensures p[i] != COMMENT { assert IsBareChar(p[i]); }
    } else if |p| >= 3 {
      assert p[1] != p[0];
    }
  }

  /** Nothing happens to it before it is cut into values. */
  lemma ReadWhole(args: seq<text>, castable: text -> bool)
    requires OnOneLine(args) && args != []
    ensures var item := Joined(args, castable); !IsMulti(Trim(item)) && CommentCut(item) == item
  {
    hide Converted, IsMultiline, IsPiece, Trim, Pieces, IsBareText, IsQuotedText;
    var item := Joined(args, castable);
    if |args| == 1 {
      ConvertedReads(args[0], castable, false);
      OnlyTail(castable);
      assert item == Converted(args[0], castable, false);
      OneWhole(item);
    } else {
      ArrayStaysWhole(args, castable, COMMENT);
      assert item[0] == '[' && item[|item| - 1] == ']';
      assert Trim(item) == item by { TrimSolid(item); }
    }
  }

  lemma OneWhole(p: text)
    requires IsPiece(p)
    ensures !IsMulti(Trim(p)) && CommentCut(p) == p
  {
    hide IsBareText, IsQuotedText, Trim, Pieces, IsMulti;
    PieceSolid(p);
    TrimSolid(p);
    PieceNotMulti(p);
    if COMMENT in p {
      OnlyPiece(p, COMMENT);
    }
  }

  /** A long value takes the branch of several lines. */
  lemma LongConverted(arg: text, castable: text -> bool)
    requires IsMultiline(arg)
    ensures Converted(arg, castable, false) == MULTILINE + arg + MULTILINE && Faithful(arg)
  {
    hide BinaryEscaped, Escaped, QuotesAtEnds, NoLookalike;
    var i :| 0 <= i < |arg| && Escapable(arg[i]);
    assert !IsNumberChar(arg[i]) && !IsHex(arg[i]);
    assert !IsNumber(arg, castable) && !IsBased(arg);
  }

  // ---------------------------------------------------------------------
  // Every list
  // ---------------------------------------------------------------------

  /** For every list of values, printed at the end of a configuration file: reading the file gives the list back if and
      only if it is not empty, every value survives its form, and a single long value survives its lines. */
  lemma RoundTrip(args: seq<text>, castable: text -> bool)
    ensures var file := Lines(Joined(args, castable));
      ValueRead(file[0], file[1..]) == Ok(args)
      <==> args != [] && (forall i :: 0 <= i < |args| ==> Faithful(args[i]))
           && (|args| == 1 && IsMultiline(args[0]) ==> MultiFaithful(args[0]))
  {
    hide Joined, ValueRead, Faithful, IsMultiline, MultiFaithful, Lines;
    if OnOneLine(args) {
      ShortRoundTrip(args, castable);
    } else {
      var arg := args[0];
      assert args == [arg];
      LongJoined(arg, castable);
      if |Lines(arg)| == 1 {
        LongEnough(arg);
        OneLineFails(arg);
        NotMultiFaithful(arg);
      } else {
        SeveralLines(arg);
      }
    }
  }

  lemma LongEnough(arg: text)
    requires IsMultiline(arg)
    ensures |arg| > 1
  {
  }

  lemma NotMultiFaithful(arg: text)
    requires |Lines(arg)| == 1
    ensures !MultiFaithful(arg)
  {
  }

  lemma LongJoined(arg: text, castable: text -> bool)
    requires IsMultiline(arg)
    ensures Joined([arg], castable) == MULTILINE + arg + MULTILINE && Faithful(arg)
  {
    hide Converted, IsMultiline, Faithful;
    LongConverted(arg, castable);
    OnlyTail(castable);
    assert [arg][1..] == [];
  }

  lemma ShortRoundTrip(args: seq<text>, castable: text -> bool)
    requires OnOneLine(args)
    ensures var file := Lines(Joined(args, castable));
      ValueRead(file[0], file[1..]) == Ok(args) <==> args != [] && forall i :: 0 <= i < |args| ==> Faithful(args[i])
  {
    hide Joined, Faithful, IsMultiline, Lines, CommentCut, ItemRead, IsMulti, Trim, MultiValue;
    var item := Joined(args, castable);
    JoinedOneLine(args, castable);
    NoLineBreak(item);
    assert Lines(item)[1..] == [];
    if args == [] {
      NothingRead(castable);
    } else {
      ReadWhole(args, castable);
      CliValues.RoundTrip(args, castable);
    }
  }

  lemma NothingRead(castable: text -> bool)
    ensures Joined([], castable) == [] && !IsMulti(Trim([])) && CommentCut([]) == [] && ItemRead([]) == Ok([[]])
  {
    TrimNothing();
    EmptyList(castable);
  }
}
