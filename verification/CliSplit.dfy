/** `trim` and `split_up` of CLI11.hpp: cutting a text at a delimiter, with quoted and bracketed
    pieces kept whole. */
module CliSplit {
  import opened CliBrackets
  import opened Text

  /** `std::isspace` in the classic locale. */
  predicate IsSpace(c: byte) {
    c == ' ' || c == '\t' || c == '\n' || c == '\U{0B}' || c == '\U{0C}' || c == '\r'
  }

  function Ltrim(s: text): (r: text)
    ensures |r| <= |s| && (r != [] ==> !IsSpace(r[0]))
  {
    if s != [] && IsSpace(s[0]) then Ltrim(s[1..]) else s
  }

  function Rtrim(s: text): (r: text)
    ensures |r| <= |s|
  {
    if s != [] && IsSpace(s[|s| - 1]) then Rtrim(s[..|s| - 1]) else s
  }

  function Trim(s: text): (r: text)
    ensures |r| <= |s| && (r != [] ==> !IsSpace(r[0]))
  {
    Ltrim(Rtrim(s))
  }

  /** `find_ws`: the delimiter NUL stands for any white space. */
  predicate Delimits(ch: byte, delimiter: byte) {
    if delimiter == '\0' then IsSpace(ch) else ch == delimiter
  }

  /** The first delimiter from loc on, or the length. */
  function FindDelimiter(s: text, loc: nat, delimiter: byte): (r: nat)
    requires loc <= |s|
    ensures loc <= r <= |s|
    decreases |s| - loc
  {
    if loc == |s| || Delimits(s[loc], delimiter) then loc else FindDelimiter(s, loc + 1, delimiter)
  }

  lemma SequenceEndAfter(s: text)
    requires s != [] && Opens(s[0])
    ensures SequenceEnd(s, 0, Closer(s[0])) >= 1
  {
    if IsBracket(s[0]) {
      var e := SequenceEnd(s, 0, Closer(s[0]));
      if e < |s| { BracketEnd(s, 0, Closer(s[0]), e); }
    }
  }

  /** The pieces of an already trimmed text. After a closing quote or bracket one more character
      is dropped, whatever it is. */
  function Pieces(s: text, delimiter: byte): seq<text>
    decreases |s|
  {
    if s == [] then []
    else if Opens(s[0]) then
      SequenceEndAfter(s);
      var end := SequenceEnd(s, 0, Closer(s[0]));
      if end >= |s| then [s]
      else [s[..end + 1]] + Pieces(Trim(if end + 2 < |s| then s[end + 2..] else []), delimiter)
    else
      var k := FindDelimiter(s, 0, delimiter);
      if k == |s| then [s] else [s[..k]] + Pieces(Trim(s[k + 1..]), delimiter)
  }

  function Split(s: text, delimiter: byte): seq<text> {
    Pieces(Trim(s), delimiter)
  }

  method SplitUp(whole: text, delimiter: byte) returns (output: seq<text>)
    ensures output == Split(whole, delimiter)
  {
    hide SequenceEnd, Trim, FindDelimiter, Closer, Opens;
    var str := Trim(whole);
    output := [];
    while str != []
      invariant output + Pieces(str, delimiter) == Split(whole, delimiter)
      decreases |str|
    {
      ghost var before := str;
      ghost var done := output;
      var piece, rest := NextPiece(str, delimiter);
      output := output + [piece];
      str := Trim(rest);
      assert done + Pieces(before, delimiter) == output + Pieces(str, delimiter);
    }
  }

  /** One turn of the loop: the piece that is pushed, and what remains before trimming. */
  method NextPiece(str: text, delimiter: byte) returns (piece: text, rest: text)
    requires str != []
    ensures Pieces(str, delimiter) == [piece] + Pieces(Trim(rest), delimiter)
    ensures |rest| < |str|
  {
    hide SequenceEnd, Trim, FindDelimiter;
    assert Trim([]) == [] by { TrimNothing(); }
    if Opens(str[0]) {
      var end := CloseSequence(str, 0, Closer(str[0]));
      SequenceEndAfter(str);
      if end >= |str| {
        return str, [];
      }
      return str[..end + 1], if end + 2 < |str| then str[end + 2..] else [];
    }
    var k := FindDelimiter(str, 0, delimiter);
    if k == |str| {
      return str, [];
    }
    return str[..k], str[k + 1..];
  }

  /** After a quoted or bracketed run one character is dropped, whatever it is: only the delimiter makes that right. */
  lemma CharacterAfterRunIsLost(p: text, c: byte, rest: text, delimiter: byte)
    requires |p| >= 2 && Opens(p[0]) && SequenceEnd(p, 0, Closer(p[0])) == |p| - 1 && rest != []
    ensures Pieces(p + ([c] + rest), delimiter) == [p] + Pieces(Trim(rest), delimiter)
  {
    hide SequenceEnd, Trim, Delimits;
    var s := p + ([c] + rest);
    RunEndsItself(p, [c] + rest);
    assert s[..|p|] == p && s[|p| + 1..] == rest;
  }

  lemma TrimNothing()
    ensures Trim([]) == []
  {
  }
}
