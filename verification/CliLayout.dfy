/** How a value is laid out in a configuration file does not matter, CLI11.hpp: arrays broken over several lines, blanks,
    comments and lines that a backslash extends. */
module CliLayout {
  import opened CliBinary
  import opened CliBrackets
  import opened CliEscapes
  import opened CliLines
  import opened CliSplit
  import opened CliValues
  import opened Text

  // ---------------------------------------------------------------------
  // Blanks
  // ---------------------------------------------------------------------

  predicate Blank(s: text) {
    forall i :: 0 <= i < |s| ==> IsSpace(s[i])
  }

  /** Solid text or none, with blanks round it. */
  ghost predicate Padded(line: text, s: text) {
    exists a: text, b: text :: Blank(a) && Blank(b) && line == a + s + b
  }

  lemma {:induction false} RtrimBlank(s: text, b: text)
    requires Blank(b) && (s == [] || !IsSpace(s[|s| - 1]))
    ensures Rtrim(s + b) == s
    decreases |b|
  {
    if b == [] {
      assert s + b == s;
    } else {
      var n := |b| - 1;
      assert (s + b)[..|s + b| - 1] == s + b[..n];
      RtrimBlank(s, b[..n]);
    }
  }

  lemma {:induction false} LtrimBlank(a: text, s: text)
    requires Blank(a) && (s == [] || !IsSpace(s[0]))
    ensures Ltrim(a + s) == s
    decreases |a|
  {
    if a == [] {
      assert a + s == s;
    } else {
      assert (a + s)[1..] == a[1..] + s;
      LtrimBlank(a[1..], s);
    }
  }

  lemma {:induction false} RtrimAllBlank(a: text)
    requires Blank(a)
    ensures Rtrim(a) == []
  {
    RtrimBlank([], a);
    assert [] + a == a;
  }

  /** Trimming takes the blanks at both ends and nothing else. */
  lemma TrimIs(a: text, s: text, b: text)
    requires Blank(a) && Blank(b) && (s == [] || Solid(s))
    ensures Trim(a + s + b) == s
  {
    if s == [] {
      assert a + s + b == a + b;
      RtrimAllBlank(a + b);
      TrimNothing();
    } else {
      assert (a + s)[|a + s| - 1] == s[|s| - 1];
      RtrimBlank(a + s, b);
      LtrimBlank(a, s);
    }
  }

  lemma PaddedTrim(line: text, s: text)
    requires Padded(line, s) && (s == [] || Solid(s))
    ensures Trim(line) == s
  {
    var a: text, b: text :| Blank(a) && Blank(b) && line == a + s + b;
    TrimIs(a, s, b);
  }

  // ---------------------------------------------------------------------
  // An array over several lines
  // ---------------------------------------------------------------------

  /** The values with their separators, without the brackets. */
  function Chunk(args: seq<text>, castable: text -> bool): text {
    if args == [] then [] else Converted(args[0], castable, true) + JoinedTail(args[1..], castable, true)
  }

  /** The last line of the array, and the ones before it, each with whole values up to a separator, or blank. */
  ghost predicate BrokenRest(args: seq<text>, castable: text -> bool, cuts: seq<nat>, lines: seq<text>)
    requires |lines| == |cuts| + 1
    decreases |lines|
  {
    if cuts == [] then args != [] && Padded(lines[0], Chunk(args, castable) + [']'])
    else
      && cuts[0] < |args|
      && Padded(lines[0], if cuts[0] == 0 then [] else Chunk(args[..cuts[0]], castable) + [SEPARATOR])
      && BrokenRest(args[cuts[0]..], castable, cuts[1..], lines[1..])
  }

  /** A printed array broken after its separators, with that many values on each line but the last. The first line has
      the bracket and a value at least. */
  ghost predicate Broken(args: seq<text>, castable: text -> bool, cuts: seq<nat>, lines: seq<text>) {
    && |lines| == |cuts| + 1 && cuts != [] && 0 < cuts[0] < |args|
    && Padded(lines[0], ['['] + Chunk(args[..cuts[0]], castable) + [SEPARATOR])
    && BrokenRest(args[cuts[0]..], castable, cuts[1..], lines[1..])
  }

  /** Cutting takes a blank away after a separator and nothing else. */
  lemma {:induction false} ChunksJoin(args: seq<text>, castable: text -> bool, k: nat)
    requires 0 < k < |args|
    ensures Chunk(args, castable) == Chunk(args[..k], castable) + [SEPARATOR] + [' '] + Chunk(args[k..], castable)
    ensures Joined(args, castable) == ['['] + Chunk(args, castable) + [']']
  {
    hide Converted;
    var p := Converted(args[0], castable, true);
    var t, u := JoinedTail(args[1..k], castable, true), Chunk(args[k..], castable);
    TailsJoin(args[1..k], args[k..], castable);
    assert args[1..] == args[1..k] + args[k..] && args[..k][1..] == args[1..k];
    assert JoinedTail(args[k..], castable, true) == [SEPARATOR, ' '] + u;
    SeparatedJoin(p, t, u);
  }

  lemma SeparatedJoin(p: text, t: text, u: text)
    ensures p + (t + ([SEPARATOR, ' '] + u)) == p + t + [SEPARATOR] + [' '] + u
  {
  }

  lemma {:induction false} TailsJoin(xs: seq<text>, ys: seq<text>, castable: text -> bool)
    ensures JoinedTail(xs + ys, castable, true) == JoinedTail(xs, castable, true) + JoinedTail(ys, castable, true)
    decreases |xs|
  {
    hide Converted;
    if xs == [] {
      assert xs + ys == ys;
    } else {
      assert (xs + ys)[1..] == xs[1..] + ys;
      TailsJoin(xs[1..], ys, castable);
      var p := Converted(xs[0], castable, true);
      assert p + (JoinedTail(xs[1..], castable, true) + JoinedTail(ys, castable, true))
          == p + JoinedTail(xs[1..], castable, true) + JoinedTail(ys, castable, true);
    }
  }

  lemma ChunkSolid(args: seq<text>, castable: text -> bool)
    requires args != []
    ensures Solid(Chunk(args, castable))
  {
    hide Converted, Solid;
    PiecesOfList(args[0], args[1..], castable);
  }

  lemma SolidThen(s: text, c: byte)
    requires Solid(s) && !IsSpace(c)
    ensures Solid(s + [c]) && (s + [c])[|s|] == c
  {
  }

  lemma LineTrim(line: text, args: seq<text>, castable: text -> bool, c: byte)
    requires args != [] && !IsSpace(c) && Padded(line, Chunk(args, castable) + [c])
    ensures Trim(line) == Chunk(args, castable) + [c]
  {
    hide Chunk, Padded, Solid, IsSpace, Trim;
    ChunkSolid(args, castable);
    SolidThen(Chunk(args, castable), c);
    PaddedTrim(line, Chunk(args, castable) + [c]);
  }

  lemma BlankTrim(line: text)
    requires Padded(line, [])
    ensures Trim(line) == []
  {
    PaddedTrim(line, []);
  }

  /** The lines without the blanks round them, one after the other. */
  function Flat(lines: seq<text>): text {
    if lines == [] then [] else Trim(lines[0]) + Flat(lines[1..])
  }

  /** The first values of a list, a separator without a blank, and the rest. */
  lemma {:induction false} PiecesThen(args: seq<text>, castable: text -> bool, more: text)
    requires args != [] && Solid(more)
    ensures Pieces(Chunk(args, castable) + [SEPARATOR] + more, SEPARATOR) == ConvertedAll(args, castable, true) + Pieces(more, SEPARATOR)
    ensures Solid(Chunk(args, castable) + [SEPARATOR] + more)
    decreases |args|
  {
    hide Converted, IsPiece, Pieces, Solid, Chunk, ConvertedAll;
    var p := Converted(args[0], castable, true);
    ConvertedReads(args[0], castable, true);
    ChunkSolid(args, castable);
    SolidRound(Chunk(args, castable), SEPARATOR, more);
    ChunkStarts(args, castable);
    if |args| == 1 {
      FirstTight(p, more);
      TightThen(p, more);
    } else {
      PiecesThen(args[1..], castable, more);
      var chunk := Chunk(args[1..], castable);
      FirstPiece(p, chunk + [SEPARATOR] + more);
      SeparatedThen(p, chunk, more);
    }
  }

  lemma ChunkStarts(args: seq<text>, castable: text -> bool)
    requires args != []
    ensures var p := Converted(args[0], castable, true);
      ConvertedAll(args, castable, true) == [p] + ConvertedAll(args[1..], castable, true)
      && Chunk(args, castable) == if |args| == 1 then p else p + ([SEPARATOR, ' '] + Chunk(args[1..], castable))
    ensures |args| == 1 ==> ConvertedAll(args, castable, true) == [Converted(args[0], castable, true)]
  {
    hide Converted;
  }

  lemma TightThen(p: text, more: text)
    ensures p + [SEPARATOR] + more == p + ([SEPARATOR] + more)
  {
  }

  lemma SeparatedThen(p: text, chunk: text, more: text)
    ensures p + ([SEPARATOR, ' '] + chunk) + [SEPARATOR] + more == p + ([SEPARATOR, ' '] + (chunk + [SEPARATOR] + more))
  {
  }

  lemma SolidRound(s: text, c: byte, more: text)
    requires Solid(s) && Solid(more)
    ensures Solid(s + [c] + more)
  {
    var t := s + [c] + more;
    assert t[|t| - 1] == more[|more| - 1];
  }

  /** As in a printed list, but without the blank. */
  lemma FirstTight(p: text, more: text)
    requires IsPiece(p) && Solid(more)
    ensures Pieces(p + ([SEPARATOR] + more), SEPARATOR) == [p] + Pieces(more, SEPARATOR)
  {
    hide IsBareText, IsQuotedText, IsBareChar, Trim, Solid, Delimits;
    var s := p + ([SEPARATOR] + more);
    TrimSolid(more);
    if IsQuotedText(p) {
      QuotedFirst(p, [SEPARATOR] + more);
      assert s[..|p|] == p && s[|p| + 1..] == more;
    } else {
      BareFirst(p, [SEPARATOR] + more);
      assert s[..|p|] == p && s[|p| + 1..] == more;
    }
  }

  /** Without the blanks, the rest of the array has its values as pieces. */
  lemma {:induction false} RestPieces(args: seq<text>, castable: text -> bool, cuts: seq<nat>, lines: seq<text>) returns (inside: text)
    requires |lines| == |cuts| + 1 && BrokenRest(args, castable, cuts, lines)
    ensures Flat(lines) == inside + [']'] && Solid(inside) && Pieces(inside, SEPARATOR) == ConvertedAll(args, castable, true)
    decreases |lines|
  {
    hide Chunk, Padded, Solid, Trim, Pieces, ConvertedAll;
    if cuts == [] {
      inside := Chunk(args, castable);
      LineTrim(lines[0], args, castable, ']');
      assert lines[1..] == [];
      assert inside + [']'] + [] == inside + [']'];
      ChunkPieces(args, castable);
    } else {
      var n := cuts[0];
      var more := RestPieces(args[n..], castable, cuts[1..], lines[1..]);
      if n == 0 {
        BlankTrim(lines[0]);
        inside := more;
        assert args[0..] == args && [] + Flat(lines[1..]) == Flat(lines[1..]);
      } else {
        LineTrim(lines[0], args[..n], castable, SEPARATOR);
        inside := Chunk(args[..n], castable) + [SEPARATOR] + more;
        PiecesThen(args[..n], castable, more);
        ConvertedJoin(args[..n], args[n..], castable);
        assert args[..n] + args[n..] == args;
      }
    }
  }

  lemma ChunkPieces(args: seq<text>, castable: text -> bool)
    requires args != []
    ensures Solid(Chunk(args, castable)) && Pieces(Chunk(args, castable), SEPARATOR) == ConvertedAll(args, castable, true)
  {
    hide Converted, Pieces, Solid;
    PiecesOfList(args[0], args[1..], castable);
  }

  lemma {:induction false} ConvertedJoin(xs: seq<text>, ys: seq<text>, castable: text -> bool)
    ensures ConvertedAll(xs, castable, true) + ConvertedAll(ys, castable, true) == ConvertedAll(xs + ys, castable, true)
    decreases |xs|
  {
    hide Converted;
    if xs == [] {
      assert xs + ys == ys;
    } else {
      assert (xs + ys)[1..] == xs[1..] + ys;
      ConvertedJoin(xs[1..], ys, castable);
    }
  }

  /** The lines up to the closing bracket are read, and no line after it. */
  lemma {:induction false} ContinuedFlat(item: text, args: seq<text>, castable: text -> bool, cuts: seq<nat>, lines: seq<text>, after: seq<text>)
    requires |lines| == |cuts| + 1 && BrokenRest(args, castable, cuts, lines)
    requires |item| > 1 && item[0] == '[' && item[|item| - 1] == SEPARATOR
    ensures Continued(item, lines + after) == item + Flat(lines)
    decreases |lines|
  {
    hide Chunk, Padded, Trim;
    var all := lines + after;
    assert all[0] == lines[0] && all[1..] == lines[1..] + after;
    var next := item + Trim(lines[0]);
    assert item + (Trim(lines[0]) + Flat(lines[1..])) == next + Flat(lines[1..]);
    if cuts == [] {
      LineTrim(lines[0], args, castable, ']');
      assert next[|next| - 1] == ']';
      assert lines[1..] == [] && next + [] == next;
    } else {
      if cuts[0] == 0 {
        BlankTrim(lines[0]);
        assert next == item;
      } else {
        LineTrim(lines[0], args[..cuts[0]], castable, SEPARATOR);
        assert next[|next| - 1] == SEPARATOR;
      }
      ContinuedFlat(next, args[cuts[0]..], castable, cuts[1..], lines[1..], after);
    }
  }

  // ---------------------------------------------------------------------
  // The first line: an open bracket keeps comment characters
  // ---------------------------------------------------------------------

  /** Content up to the end of the text holds no closer. */
  lemma {:induction false} ContentToEnd(s: text, i: nat, st: seq<byte>)
    requires Closers(st) && i <= |s| && Content(s, i, |s|, st[|st| - 1])
    ensures Scan(s, i, st) == |s|
    decreases |s| - i
  {
    var c := st[|st| - 1];
    if i < |s| {
      if IsBracket(s[i]) {
        var m :| i < m < |s| && s[m] == Closer(s[i]) && Content(s, i + 1, m, Closer(s[i])) && Content(s, m + 1, |s|, c);
        var inner := st + [Closer(s[i])];
        ScanContent(s, i + 1, m, inner);
        assert inner[..|inner| - 1] == st;
        ContentToEnd(s, m + 1, st);
      } else if Opens(s[i]) {
        ContentToEnd(s, QuoteEnd(s, i) + 1, st);
      } else {
        ContentToEnd(s, i + 1, st);
      }
    }
  }

  function FirstLine(args: seq<text>, castable: text -> bool): text {
    ['['] + Chunk(args, castable) + [SEPARATOR]
  }

  lemma FirstLineOpen(args: seq<text>, castable: text -> bool)
    requires args != []
    ensures var s := FirstLine(args, castable); Solid(s) && SequenceEnd(s, 0, ']') == |s|
  {
    hide Converted, IsPiece, Content, Scan;
    hide JoinedTail, Solid;
    var s := FirstLine(args, castable);
    assert Content(s, |s| - 1, |s|, ']') by { OneContent(s); }
    OpenContent(args, castable, [SEPARATOR], |s|);
    ContentToEnd(s, 1, [']']);
    ChunkSolid(args, castable);
    assert Solid(s) by { BracketSolid(Chunk(args, castable)); }
  }

  lemma BracketSolid(chunk: text)
    ensures Solid(['['] + chunk + [SEPARATOR])
  {
  }

  lemma OneContent(s: text)
    requires s != [] && s[|s| - 1] == SEPARATOR
    ensures Content(s, |s| - 1, |s|, ']')
  {
    SeparatorPlain();
  }

  /** So the line is kept whole, although it may hold comment characters, and is no multi-line value. */
  lemma FirstLineKept(line: text, args: seq<text>, castable: text -> bool)
    requires args != [] && Padded(line, FirstLine(args, castable))
    ensures !IsMulti(Trim(line)) && CommentCut(line) == FirstLine(args, castable)
  {
    hide Chunk, Padded, Trim, SequenceEnd, Solid;
    var s := FirstLine(args, castable);
    FirstLineOpen(args, castable);
    PaddedTrim(line, s);
    TrimSolid(s);
    assert Split(s, COMMENT) == [s] by { assert Closer('[') == ']'; }
  }

  /** For every list of two or more faithful values: printed as an array, broken into lines after its separators with any
      blanks round them and blank lines between, and whatever follows in the file, it is read as that list. */
  lemma BrokenArrayReads(args: seq<text>, castable: text -> bool, cuts: seq<nat>, lines: seq<text>, after: seq<text>)
    requires Broken(args, castable, cuts, lines) && forall i :: 0 <= i < |args| ==> Faithful(args[i])
    ensures ValueRead(lines[0], lines[1..] + after) == Ok(args)
  {
    hide Chunk, Padded, Trim, Faithful, Continued, CommentCut, Split, Pieces, IsMulti, MultiValue, Solid, BrokenRest;
    var n := cuts[0];
    var first := FirstLine(args[..n], castable);
    FirstLineKept(lines[0], args[..n], castable);
    ContinuedFlat(first, args[n..], castable, cuts[1..], lines[1..], after);
    var more := RestPieces(args[n..], castable, cuts[1..], lines[1..]);
    PiecesThen(args[..n], castable, more);
    ConvertedJoin(args[..n], args[n..], castable);
    assert args[..n] + args[n..] == args;
    var inside := Chunk(args[..n], castable) + [SEPARATOR] + more;
    assert first + Flat(lines[1..]) == ['['] + inside + [']'] by { Bracketed(Chunk(args[..n], castable), more); }
    ArrayItem(first + Flat(lines[1..]), inside);
    ReadFaithful(args, castable);
  }

  lemma Bracketed(chunk: text, more: text)
    ensures ['['] + chunk + [SEPARATOR] + (more + [']']) == ['['] + (chunk + [SEPARATOR] + more) + [']']
  {
  }

  lemma ReadFaithful(args: seq<text>, castable: text -> bool)
    requires forall i :: 0 <= i < |args| ==> Faithful(args[i])
    ensures ProcessedAll(ConvertedAll(args, castable, true)) == Ok(args)
  {
    hide Faithful;
    ProcessedPieces(args, castable, true);
    RereadAllExactly(args);
  }

  lemma ArrayItem(item: text, inside: text)
    requires item == ['['] + inside + [']'] && Solid(inside)
    ensures ItemPieces(item) == Pieces(inside, SEPARATOR)
  {
    hide Solid, Trim, Pieces;
    TrimSolid(inside);
    assert item[1..|item| - 1] == inside;
  }

  // ---------------------------------------------------------------------
  // Lists without brackets
  // ---------------------------------------------------------------------

  /** The brackets of a list of two or more values may be left out. */
  lemma BracketsOptional(args: seq<text>, castable: text -> bool)
    requires |args| > 1 && forall i :: 0 <= i < |args| ==> Faithful(args[i])
    ensures ItemRead(Chunk(args, castable)) == Ok(args)
  {
    hide Converted, Faithful, Pieces, Solid, Trim, IsPiece;
    var item := Chunk(args, castable);
    ChunkPieces(args, castable);
    TrimSolid(item);
    ConvertedReads(args[0], castable, true);
    NoArray(Converted(args[0], castable, true));
    assert item[|Converted(args[0], castable, true)|] == SEPARATOR;
    ReadFaithful(args, castable);
  }

  lemma NoArray(p: text)
    requires IsPiece(p)
    ensures p != [] && p[0] != '['
  {
    if IsBareText(p) { assert IsBareChar(p[0]); }
  }

  function Spaced(ps: seq<text>): text
    requires ps != []
  {
    if |ps| == 1 then ps[0] else ps[0] + ([' '] + Spaced(ps[1..]))
  }

  /** Values that hold no separator may stand with blanks between them. */
  lemma {:induction false} SpacedPieces(ps: seq<text>)
    requires ps != [] && forall i :: 0 <= i < |ps| ==> IsPiece(ps[i]) && SEPARATOR !in ps[i]
    ensures Pieces(Spaced(ps), '\0') == ps && Solid(Spaced(ps)) && SEPARATOR !in Spaced(ps) && Spaced(ps)[0] == ps[0][0]
    decreases |ps|
  {
    hide IsPiece, Solid, Pieces;
    PieceSolid(ps[0]);
    assert ps[0] != [] by { NoArray(ps[0]); }
    if |ps| == 1 {
      OneSpaced(ps[0]);
      assert ps == [ps[0]];
    } else {
      var more := Spaced(ps[1..]);
      SpacedPieces(ps[1..]);
      FirstSpaced(ps[0], more);
      assert Solid(ps[0] + ([' '] + more)) by { SolidSpace(ps[0], more); }
      assert [ps[0]] + ps[1..] == ps;
    }
  }

  lemma SolidSpace(p: text, more: text)
    requires Solid(p) && Solid(more)
    ensures Solid(p + ([' '] + more))
  {
    var t := p + ([' '] + more);
    assert t[|t| - 1] == more[|more| - 1];
  }

  lemma BareNoSpace(p: text, rest: text)
    requires IsBareText(p) && (rest == [] || rest[0] == ' ')
    ensures var s := p + rest; p != [] && !Opens(s[0]) && FindDelimiter(s, 0, '\0') == |p|
  {
    var s := p + rest;
    BareChars();
    forall k | 0 <= k < |p| ensures !Delimits(s[k], '\0') { assert IsBareChar(p[k]); }
    FindDelimiterSkips(s, 0, |p|, '\0');
    assert IsBareChar(p[0]);
  }

  lemma OneSpaced(p: text)
    requires IsPiece(p)
    ensures Pieces(p, '\0') == [p]
  {
    hide IsBareText, IsQuotedText, Delimits, Trim;
    assert p + [] == p;
    if IsQuotedText(p) { OnlyPiece(p, '\0'); } else { BareNoSpace(p, []); }
  }

  lemma FirstSpaced(p: text, more: text)
    requires IsPiece(p) && Solid(more)
    ensures Pieces(p + ([' '] + more), '\0') == [p] + Pieces(more, '\0')
  {
    hide IsBareText, IsQuotedText, IsBareChar, Trim, Solid, Delimits;
    var s := p + ([' '] + more);
    TrimSolid(more);
    if IsQuotedText(p) {
      QuotedFirst(p, [' '] + more);
      assert s[..|p|] == p && s[|p| + 1..] == more;
    } else {
      BareNoSpace(p, [' '] + more);
      assert s[..|p|] == p && s[|p| + 1..] == more;
    }
  }

  lemma SpacedReads(args: seq<text>, castable: text -> bool)
    requires |args| > 1 && forall i :: 0 <= i < |args| ==> Faithful(args[i]) && SEPARATOR !in Converted(args[i], castable, true)
    ensures ItemRead(Spaced(ConvertedAll(args, castable, true))) == Ok(args)
  {
    hide Converted, Faithful, Pieces, Solid, Trim, IsPiece, ConvertedAll;
    var ps := ConvertedAll(args, castable, true);
    forall i | 0 <= i < |ps| ensures IsPiece(ps[i]) && SEPARATOR !in ps[i] {
      ConvertedAt(args, castable, i);
      ConvertedReads(args[i], castable, true);
    }
    SpacedPieces(ps);
    TrimSolid(Spaced(ps));
    NoArray(ps[0]);
    assert Spaced(ps)[|ps[0]|] == ' ';
    ReadFaithful(args, castable);
  }

  lemma {:induction false} ConvertedAt(args: seq<text>, castable: text -> bool, i: nat)
    requires i < |args|
    ensures ConvertedAll(args, castable, true)[i] == Converted(args[i], castable, true)
    decreases |args|
  {
    hide Converted;
    if i > 0 { ConvertedAt(args[1..], castable, i - 1); }
  }

  // ---------------------------------------------------------------------
  // Comments
  // ---------------------------------------------------------------------

  /** A complete value as it is printed. */
  ghost predicate Complete(item: text) {
    && Solid(item)
    && if Opens(item[0]) then
         && |item| >= 2 && SequenceEnd(item, 0, Closer(item[0])) == |item| - 1
         && (item[0] == '[' ==> item[|item| - 1] == ']')
         && (|item| >= 3 && item[0] != '[' ==> !IsMulti(item))
       else COMMENT !in item
  }

  lemma PieceComplete(p: text)
    requires IsPiece(p)
    ensures Complete(p)
  {
    hide IsBareText, IsQuotedText, Solid, SequenceEnd, IsMulti;
    PieceSolid(p);
    PieceNotMulti(p);
    NoArray(p);
    if IsQuotedText(p) {
      QuotedFirst(p, []);
      assert p + [] == p;
    } else {
      BareOpensNot(p);
    }
  }

  lemma BareOpensNot(p: text)
    requires IsBareText(p)
    ensures !Opens(p[0])
  {
    assert IsBareChar(p[0]);
  }

  lemma JoinedComplete(args: seq<text>, castable: text -> bool)
    requires args != [] && OnOneLine(args)
    ensures Complete(Joined(args, castable))
  {
    hide Converted, IsMultiline, IsPiece, SequenceEnd, IsMulti, JoinedTail, Split;
    var item := Joined(args, castable);
    if |args| == 1 {
      ConvertedReads(args[0], castable, false);
      OnlyTail(castable);
      assert args[1..] == [];
      PieceComplete(item);
    } else {
      ArrayStaysWhole(args, castable, COMMENT);
      assert item[0] == '[' && item[|item| - 1] == ']';
    }
  }

  /** Trimming does not take the comment character. */
  lemma {:induction false} RtrimComment(s: text, comment: text) returns (c: text)
    ensures Rtrim(s + [COMMENT] + comment) == s + [COMMENT] + c
    ensures var t := s + [COMMENT] + c; !IsSpace(t[|t| - 1])
    decreases |comment|
  {
    var t := s + [COMMENT] + comment;
    if comment == [] || !IsSpace(comment[|comment| - 1]) {
      c := comment;
      assert t[|t| - 1] == if comment == [] then COMMENT else comment[|comment| - 1];
    } else {
      var n := |comment| - 1;
      assert t[|t| - 1] == comment[n] && t[..|t| - 1] == s + [COMMENT] + comment[..n];
      c := RtrimComment(s, comment[..n]);
    }
  }

  lemma CutAtComment(item: text, blanks: text, comment: text)
    requires Complete(item) && Blank(blanks)
    ensures var line := item + blanks + [COMMENT] + comment; !IsMulti(Trim(line)) && CommentCut(line) == item
  {
    hide Complete, Blank, Trim, Solid, IsMulti, Pieces;
    var line := item + blanks + [COMMENT] + comment;
    assert line[|item| + |blanks|] == COMMENT;
    var c := RtrimComment(item + blanks, comment);
    var t := item + blanks + [COMMENT] + c;
    assert Solid(item) by { assert Complete(item); CompleteSolid(item); }
    CommentTrim(item, blanks, line, t, c);
    TrimSolid(t);
    TrimSolid(item);
    assert !IsMulti(t) by { CommentNotMulti(item, blanks, c); }
    CommentPiece(item, blanks, c);
    CommentPieceTrim(item, blanks);
  }

  lemma CompleteSolid(item: text)
    requires Complete(item)
    ensures Solid(item)
  {
  }

  lemma CommentTrim(item: text, blanks: text, line: text, t: text, c: text)
    requires Solid(item) && Rtrim(line) == t == item + blanks + [COMMENT] + c && !IsSpace(t[|t| - 1])
    ensures Trim(line) == t && Solid(t)
  {
    assert t[0] == item[0];
  }

  lemma CommentNotMulti(item: text, blanks: text, c: text)
    requires Complete(item) && Blank(blanks)
    ensures !IsMulti(item + blanks + [COMMENT] + c)
  {
    hide SequenceEnd;
    var t := item + blanks + [COMMENT] + c;
    assert t[0] == item[0];
    if |item| >= 3 {
      assert t[..3] == item[..3];
    } else if |item| == 2 {
      assert t[2] == if blanks == [] then COMMENT else blanks[0];
      assert t[..3][2] == t[2];
    }
    assert |t| >= 3 ==> t[..3][0] == item[0];
  }

  /** The first piece is the value, with the blanks when it has no quotes or brackets. */
  lemma CommentPiece(item: text, blanks: text, c: text)
    requires Complete(item) && Blank(blanks)
    ensures var t := item + blanks + [COMMENT] + c;
      Pieces(t, COMMENT) != [] && (Pieces(t, COMMENT)[0] == item || Pieces(t, COMMENT)[0] == item + blanks)
  {
    hide Trim, Closer, SequenceEnd, IsMulti, Opens;
    var rest := blanks + [COMMENT] + c;
    var t := item + blanks + [COMMENT] + c;
    assert t == item + rest && t[0] == item[0];
    if Opens(item[0]) {
      RunEndsItself(item, rest);
      assert t[..|item|] == item;
    } else {
      var k := |item| + |blanks|;
      forall i | 0 <= i < k ensures !Delimits(t[i], COMMENT) { assert t[i] == if i < |item| then item[i] else blanks[i - |item|]; }
      FindDelimiterSkips(t, 0, k, COMMENT);
      assert t[k] == COMMENT && t[..k] == item + blanks;
    }
  }

  lemma CommentPieceTrim(item: text, blanks: text)
    requires Solid(item) && Blank(blanks)
    ensures Trim(item + blanks) == item
  {
    TrimIs([], item, blanks);
    assert [] + item + blanks == item + blanks;
  }

  /** Whatever stands after a comment character behind a complete value is not read, nor are the next lines. */
  lemma CommentIgnored(args: seq<text>, castable: text -> bool, blanks: text, comment: text, more: seq<text>)
    requires args != [] && OnOneLine(args) && Blank(blanks) && forall i :: 0 <= i < |args| ==> Faithful(args[i])
    ensures ValueRead(Joined(args, castable) + blanks + [COMMENT] + comment, more) == Ok(args)
  {
    hide Joined, Faithful, CommentCut, IsMulti, Trim, Blank, ItemRead, IsMultiline, SequenceEnd, Solid;
    var item := Joined(args, castable);
    JoinedComplete(args, castable);
    CutAtComment(item, blanks, comment);
    assert Continued(item, more) == item;
    CliValues.RoundTrip(args, castable);
  }

  /** But in the first line of an array that goes on, a comment is no comment: it becomes part of the next value. */
  lemma CommentBecomesValue()
    ensures ValueRead(['[', '1', ',', ' ', '#', 'a'], [['2', ']']]) == Ok([['1'], ['#', 'a', '2']])
  {
    hide ItemRead, Trim, Split;
    var first: text := ['[', '1', ',', ' ', '#', 'a'];
    var last: text := ['2', ']'];
    TrimSolid(first);
    TrimSolid(last);
    assert Split(first, COMMENT) == [first] by { OpenAtComment(first); }
    var item: text := ['[', '1', ',', ' ', '#', 'a', '2', ']'];
    assert first + last == item;
    assert Continued(first, [last]) == Continued(item, []) by { assert [last][1..] == []; }
    ReadAroundComment(item);
  }

  lemma OpenAtComment(first: text)
    requires first == ['[', '1', ',', ' ', '#', 'a']
    ensures Split(first, COMMENT) == [first]
  {
    hide Trim;
    TrimSolid(first);
    assert Closer('[') == ']';
    assert forall r :: 0 <= r < |first| ==> first[r] != ']';
    BracketUnmatched(first, 0, ']');
  }

  lemma ReadAroundComment(item: text)
    requires item == ['[', '1', ',', ' ', '#', 'a', '2', ']']
    ensures ItemRead(item) == Ok([['1'], ['#', 'a', '2']])
  {
    hide Trim, Pieces, Solid, ProcessedAll;
    var one: text := ['1'];
    var rest: text := ['#', 'a', '2'];
    assert IsBareChar('1');
    CommentTexts();
    TrimSolid(['1', ',', ' ', '#', 'a', '2']);
    FirstPiece(one, rest);
    assert one + ([SEPARATOR, ' '] + rest) == ['1', ',', ' ', '#', 'a', '2'] == item[1..|item| - 1];
    assert Pieces(rest, SEPARATOR) == [rest] by { RestAlone(rest); }
    assert [one] + [rest] == [one, rest];
    TwoProcessed(one, rest);
  }

  lemma CommentTexts()
    ensures Solid(['#', 'a', '2']) && Solid(['1', ',', ' ', '#', 'a', '2'])
  {
  }

  lemma RestAlone(rest: text)
    requires rest == ['#', 'a', '2']
    ensures Pieces(rest, SEPARATOR) == [rest]
  {
    FindDelimiterSkips(rest, 0, 3, SEPARATOR);
  }

  lemma TwoProcessed(v: text, w: text)
    requires v == ['1'] && w == ['#', 'a', '2']
    ensures ProcessedAll([v, w]) == Ok([v, w])
  {
    assert [v, w][1..] == [w] && [w][1..] == [];
    assert ProcessedAll([]) == Ok([]);
    assert [w] + [] == [w] && [v] + [w] == [v, w];
    assert !IsBinaryEscaped(w);
  }

  /** And an array whose bracket stands alone on its line does not go on: it is read as that bracket. */
  lemma BracketAlone(line: text, more: seq<text>)
    requires Padded(line, ['['])
    ensures ValueRead(line, more) == Ok([['[']])
  {
    hide Trim, Padded, Split;
    var open: text := ['['];
    PaddedTrim(line, open);
    if COMMENT in line { CommentOutside(line, open); }
    assert [open] + [] == [open];
    assert ProcessedAll([open][1..]) == Ok([]);
  }

  lemma CommentOutside(line: text, s: text)
    requires Padded(line, s) && COMMENT in line
    ensures COMMENT in s
  {
    var a: text, b: text :| Blank(a) && Blank(b) && line == a + s + b;
  }

  // ---------------------------------------------------------------------
  // Lines that a backslash extends
  // ---------------------------------------------------------------------

  lemma {:induction false} RtrimOnce(s: text)
    ensures Rtrim(Rtrim(s)) == Rtrim(s) && (Rtrim(s) != [] ==> !IsSpace(Rtrim(s)[|Rtrim(s)| - 1]))
    decreases |s|
  {
    if s != [] && IsSpace(s[|s| - 1]) { RtrimOnce(s[..|s| - 1]); }
  }

  /** Taking characters off the end of a text that is long enough, before or after trimming the front. */
  lemma {:induction false} LtrimShorter(s: text, n: nat)
    requires n <= |Ltrim(s)|
    ensures Ltrim(s[..|s| - n]) == Ltrim(Ltrim(s)[..|Ltrim(s)| - n])
    decreases |s|
  {
    if s != [] && IsSpace(s[0]) {
      LtrimShorter(s[1..], n);
      if |s| - n > 0 { assert s[..|s| - n][1..] == s[1..][..|s| - 1 - n]; }
    } else {
      assert Ltrim(s) == s;
    }
  }

  lemma LtrimHead(s: text, n: nat)
    requires n <= |Ltrim(s)|
    ensures Ltrim(s[..|s| - n]) == Ltrim(s)[..|Ltrim(s)| - n]
  {
    LtrimShorter(s, n);
    var t := Ltrim(s)[..|Ltrim(s)| - n];
    assert t != [] ==> t[0] == Ltrim(s)[0];
  }

  /** The key's triple at the end of the trimmed line shows in the line without the blanks before it. */
  lemma TripleInside(a: text, b: text, key: byte)
    requires |Trim(b)| >= 3 && !IsSpace(key)
    ensures Rtrim(a + Trim(b)) == a + Trim(b) && EndsTriple(a + Trim(b), key) == EndsTriple(Rtrim(b), key)
    ensures |Rtrim(b)| >= 3 && Ltrim(Rtrim(b)[..|Rtrim(b)| - 3]) == Trim(b)[..|Trim(b)| - 3]
    ensures !IsSpace(Trim(b)[|Trim(b)| - 1])
  {
    RtrimOnce(b);
    var r := Rtrim(b);
    LtrimEnd(r);
    LtrimHead(r, 3);
    var t := Trim(b);
    var whole := a + t;
    assert whole[|whole| - 1] == t[|t| - 1] && whole[|whole| - 2] == t[|t| - 2] && whole[|whole| - 3] == t[|t| - 3];
  }

  /** Trimming the front keeps the end. */
  lemma {:induction false} LtrimEnd(s: text)
    ensures |Ltrim(s)| <= |s| && s[|s| - |Ltrim(s)|..] == Ltrim(s)
    decreases |s|
  {
    if s != [] && IsSpace(s[0]) {
      LtrimEnd(s[1..]);
      assert s[|s| - |Ltrim(s)|..] == s[1..][|s| - 1 - |Ltrim(s)|..];
    }
  }

  /** A line that ends in a backslash and the line after it mean the same as one line with the second one's text without
      the blanks round it. (The text is no shorter than the closing quotes, so that they cannot come from both lines.) */
  lemma ExtendedLineIsOneLine(item: text, a: text, b: text, more: seq<text>, first: bool, key: byte)
    requires |Trim(b)| >= 3 && (key == '\'' || key == '\"')
    ensures MultiRead(item, [a + ['\\'], b] + more, first, false, key) == MultiRead(item, [a + Trim(b)] + more, first, false, key)
  {
    hide Trim, Rtrim, Ltrim, EndsTriple, EndsWithBackslash, WithoutBackslash, WithoutNewline, Joint;
    var lines, one := [a + ['\\'], b] + more, [a + Trim(b)] + more;
    TripleInside(a, b, key);
    ExtendedStart(a, key);
    assert lines[1..] == [b] + more && lines[1..][1..] == more && one[1..] == more && lines[1..][0] == b;
    var started := Joint(item, first, false) + a;
    assert MultiRead(item, lines, first, false, key) == MultiRead(started, [b] + more, false, true, key);
    assert Joint(started, false, true) == started by { NoJoint(started); }
    if EndsTriple(Rtrim(b), key) {
      ClosedAlike(Joint(item, first, false), a, b);
    } else {
      ContinuedAlike(Joint(item, first, false), a, Trim(b));
      assert MultiRead(started, [b] + more, false, true, key)
          == MultiRead(started + WithoutBackslash(Trim(b)), more, false, EndsWithBackslash(Trim(b)), key);
      assert MultiRead(item, one, first, false, key)
          == MultiRead(Joint(item, first, false) + WithoutBackslash(a + Trim(b)), more, false, EndsWithBackslash(a + Trim(b)), key);
    }
  }

  lemma NoJoint(item: text)
    ensures Joint(item, false, true) == item
  {
  }

  lemma ExtendedStart(a: text, key: byte)
    requires key == '\'' || key == '\"'
    ensures var l := a + ['\\']; !EndsTriple(Rtrim(l), key) && EndsWithBackslash(l) && WithoutBackslash(l) == a
  {
  }

  lemma ClosedAlike(joint: text, a: text, b: text)
    requires |Trim(b)| >= 3 && |Rtrim(b)| >= 3 && Ltrim(Rtrim(b)[..|Rtrim(b)| - 3]) == Trim(b)[..|Trim(b)| - 3]
    ensures joint + a + Ltrim(Rtrim(b)[..|Rtrim(b)| - 3]) == joint + (a + Trim(b))[..|a + Trim(b)| - 3]
  {
    hide Trim, Rtrim, Ltrim;
    assert (a + Trim(b))[..|a + Trim(b)| - 3] == a + Trim(b)[..|Trim(b)| - 3];
  }

  lemma ContinuedAlike(joint: text, a: text, t: text)
    requires t != []
    ensures EndsWithBackslash(a + t) == EndsWithBackslash(t)
    ensures joint + a + WithoutBackslash(t) == joint + WithoutBackslash(a + t)
  {
    var whole := a + t;
    assert whole[|whole| - 1] == t[|t| - 1];
    assert whole[..|whole| - 1] == a + t[..|t| - 1];
    assert joint + a + t == joint + (a + t);
  }

  // ---------------------------------------------------------------------
  // Between triple double quotes escapes are undone
  // ---------------------------------------------------------------------

  /** Every value can stand between triple double quotes, with its characters escaped, unless it has quotes of its own
      round it. */
  lemma EscapedBlock(arg: text, more: seq<text>)
    requires Unquoted(arg)
    ensures ValueRead(TRIPLE, [Escaped(arg) + TRIPLE] + more) == Ok([arg])
  {
    hide Escaped, Unescaped, Processed, Trim, Ltrim, Rtrim;
    var line := Escaped(arg) + TRIPLE;
    var lines := [line] + more;
    assert Trim(TRIPLE) == TRIPLE && Ltrim(TRIPLE) == TRIPLE by { TripleSolid(); }
    assert Rtrim(line) == line by { assert line[|line| - 1] == '\"'; RtrimWhole(line); }
    assert EndsTriple(line, '\"') by { TripleEnd(Escaped(arg)); }
    var nothing: text := [];
    assert TRIPLE[3..] == nothing;
    assert line[..|line| - 3] == Escaped(arg);
    assert nothing + Escaped(arg) == Escaped(arg);
    EscapedOneLine(arg);
    assert WithoutNewline(Escaped(arg)) == Escaped(arg);
    assert MultiRead(nothing, lines, true, false, '\"') == Multi(Escaped(arg), true);
    UnescapeEscaped(arg);
    OneProcessed(arg);
    UnquotedOk(arg);
  }

  lemma TripleSolid()
    ensures Trim(TRIPLE) == TRIPLE && Ltrim(TRIPLE) == TRIPLE
  {
    TrimSolid(TRIPLE);
  }

  lemma TripleEnd(s: text)
    ensures EndsTriple(s + TRIPLE, '\"')
  {
    var t := s + TRIPLE;
    assert t[|t| - 1] == t[|t| - 2] == t[|t| - 3] == '\"';
  }
}
