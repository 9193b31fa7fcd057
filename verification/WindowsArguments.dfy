/** Command-line quoting on Windows: `join_arguments` of process_win.cpp, and the
    command-line parsing rules that its output has to survive. */
module WindowsArguments {

  /** The characters that force an argument to be quoted: " \t\n\v\"". */
  predicate NeedsQuotes(c: char) {
    c == ' ' || c == '\t' || c == '\n' || c == '\U{000B}' || c == '\"'
  }

  function Backslashes(n: nat): (r: string)
    ensures |r| == n
  {
    seq(n, _ => '\\')
  }

  // ---------------------------------------------------------------------
  // The receiving side: the rules by which a program splits its command line.
  // 2n backslashes and a quote give n backslashes and toggle quoting; 2n+1 give n
  // backslashes and a literal quote; other backslashes are literal; a blank
  // outside quotes ends the argument.
  // ---------------------------------------------------------------------

  /** What follows, given the parser state: whether an argument has been begun, whether
      quoting is on, the argument's characters so far and the pending run of backslashes. */
  function ParseFrom(s: string, begun: bool, quoting: bool, current: string, pending: nat): seq<string> {
    if s == [] then
      if begun then [current + Backslashes(pending)] else []
    else if s[0] == '\\' then
      ParseFrom(s[1..], true, quoting, current, pending + 1)
    else if s[0] == '\"' then
      if pending % 2 == 0 then
        ParseFrom(s[1..], true, !quoting, current + Backslashes(pending / 2), 0)
      else
        ParseFrom(s[1..], true, quoting, current + Backslashes(pending / 2) + ['\"'], 0)
    else if !quoting && (s[0] == ' ' || s[0] == '\t') then
      (if begun then [current + Backslashes(pending)] else []) + ParseFrom(s[1..], false, false, [], 0)
    else
      ParseFrom(s[1..], true, quoting, current + Backslashes(pending) + [s[0]], 0)
  }

  function ParseCommandLine(s: string): seq<string> {
    ParseFrom(s, false, false, [], 0)
  }

  // ---------------------------------------------------------------------
  // What the writer produces
  // ---------------------------------------------------------------------

  /** The inside of a quoted argument, with `pending` backslashes already passed. */
  function Escaped(arg: string, pending: nat): string {
    if arg == [] then Backslashes(2 * pending)
    else if arg[0] == '\\' then Escaped(arg[1..], pending + 1)
    else if arg[0] == '\"' then Backslashes(2 * pending + 1) + ['\"'] + Escaped(arg[1..], 0)
    else Backslashes(pending) + [arg[0]] + Escaped(arg[1..], 0)
  }

  predicate Bare(arg: string) {
    arg != [] && forall i :: 0 <= i < |arg| ==> !NeedsQuotes(arg[i])
  }

  function Quoted(arg: string): string {
    if Bare(arg) then arg else ['\"'] + Escaped(arg, 0) + ['\"']
  }

  /** Each further argument is preceded by one blank. */
  function JoinedTail(args: seq<string>): string {
    if args == [] then [] else [' '] + (Quoted(args[0]) + JoinedTail(args[1..]))
  }

  function Joined(args: seq<string>): string {
    if args == [] then [] else Quoted(args[0]) + JoinedTail(args[1..])
  }

  // ---------------------------------------------------------------------
  // Proof of the round trip
  // ---------------------------------------------------------------------

  /** The arguments that come after a finished one, whose text ends where `rest` starts. */
  function Following(rest: string): seq<string> {
    if rest == [] then [] else ParseCommandLine(rest[1..])
  }

  /** A run of backslashes only moves the pending count. */
  lemma {:induction false} ParseBackslashes(n: nat, rest: string, begun: bool, quoting: bool, current: string, pending: nat)
    ensures ParseFrom(Backslashes(n) + rest, begun || n > 0, quoting, current, pending)
         == ParseFrom(rest, begun || n > 0, quoting, current, pending + n)
  {
    var s := Backslashes(n) + rest;
    if n == 0 {
      assert s == rest;
    } else {
      assert s[1..] == Backslashes(n - 1) + rest;
      ParseBackslashes(n - 1, rest, true, quoting, current, pending + 1);
    }
  }

  lemma BackslashesAppend(a: nat, b: nat)
    ensures Backslashes(a) + Backslashes(b) == Backslashes(a + b)
  {
  }

  /** Inside quotes, the escaped text of `arg` delivers exactly the pending backslashes and `arg`,
      and the closing quote is read as a closing quote. */
  lemma {:induction false} ParseEscaped(arg: string, pending: nat, rest: string, current: string)
    ensures ParseFrom(Escaped(arg, pending) + ['\"'] + rest, true, true, current, 0)
         == ParseFrom(rest, true, false, current + Backslashes(pending) + arg, 0)
    decreases |arg|
  {
    var tail := ['\"'] + rest;
    if arg == [] {
      assert Escaped(arg, pending) + ['\"'] + rest == Backslashes(2 * pending) + tail;
      ParseBackslashes(2 * pending, tail, true, true, current, 0);
      assert tail[1..] == rest;
      assert current + Backslashes(pending) + arg == current + Backslashes(pending);
    } else if arg[0] == '\\' {
      ParseEscaped(arg[1..], pending + 1, rest, current);
      BackslashesAppend(pending, 1);
      assert current + Backslashes(pending + 1) + arg[1..] == current + Backslashes(pending) + arg;
    } else {
      var after := Escaped(arg[1..], 0) + ['\"'] + rest;
      var middle := [arg[0]] + after;
      var n := if arg[0] == '\"' then 2 * pending + 1 else pending;
      assert Escaped(arg, pending) + ['\"'] + rest == Backslashes(n) + middle;
      ParseBackslashes(n, middle, true, true, current, 0);
      assert middle[1..] == after;
      var current' := current + Backslashes(pending) + [arg[0]];
      ParseEscaped(arg[1..], 0, rest, current');
      assert current' + Backslashes(0) + arg[1..] == current + Backslashes(pending) + arg;
    }
  }

  /** A bare argument passes through unchanged; its trailing backslashes stay pending. */
  lemma {:induction false} ParseBare(arg: string, rest: string, begun: bool, current: string, pending: nat)
    requires forall i :: 0 <= i < |arg| ==> !NeedsQuotes(arg[i])
    requires rest == [] || rest[0] == ' '
    requires begun || arg != []
    ensures ParseFrom(arg + rest, begun, false, current, pending)
         == [current + Backslashes(pending) + arg] + Following(rest)
  {
    if arg == [] {
      assert arg + rest == rest;
      assert current + Backslashes(pending) + arg == current + Backslashes(pending);
    } else {
      assert (arg + rest)[1..] == arg[1..] + rest;
      if arg[0] == '\\' {
        ParseBare(arg[1..], rest, true, current, pending + 1);
        BackslashesAppend(pending, 1);
        assert current + Backslashes(pending + 1) + arg[1..] == current + Backslashes(pending) + arg;
      } else {
        var current' := current + Backslashes(pending) + [arg[0]];
        ParseBare(arg[1..], rest, true, current', 0);
        assert current' + Backslashes(0) + arg[1..] == current + Backslashes(pending) + arg;
      }
    }
  }

  lemma ParseEnd(current: string, rest: string)
    requires rest == [] || rest[0] == ' '
    ensures ParseFrom(rest, true, false, current, 0) == [current] + Following(rest)
  {
    assert current + Backslashes(0) == current;
  }

  /** One written argument, up to the end of the line or the blank after it, reads back as itself. */
  lemma ParseQuoted(arg: string, rest: string)
    requires rest == [] || rest[0] == ' '
    ensures ParseCommandLine(Quoted(arg) + rest) == [arg] + Following(rest)
  {
    if Bare(arg) {
      ParseBare(arg, rest, false, [], 0);
      assert [] + Backslashes(0) + arg == arg;
    } else {
      var text := Quoted(arg) + rest;
      assert text[0] == '\"' && text[1..] == Escaped(arg, 0) + ['\"'] + rest;
      assert [] + Backslashes(0 / 2) == [];
      assert ParseFrom(text, false, false, [], 0) == ParseFrom(text[1..], true, true, [], 0);
      ParseEnd([] + Backslashes(0) + arg, rest);
      ParseEscaped(arg, 0, rest, []);
      assert [] + Backslashes(0) + arg == arg;
    }
  }

  lemma TailShape(args: seq<string>)
    requires args != []
    ensures JoinedTail(args) != [] && JoinedTail(args)[0] == ' '
    ensures JoinedTail(args)[1..] == Quoted(args[0]) + JoinedTail(args[1..])
  {
    hide Quoted;
  }

  lemma {:induction false} ParseTail(args: seq<string>)
    ensures Following(JoinedTail(args)) == args
    ensures JoinedTail(args) == [] || JoinedTail(args)[0] == ' '
  {
    if args != [] {
      hide ParseFrom, Quoted, JoinedTail, ParseCommandLine;
      TailShape(args);
      ParseTail(args[1..]);
      ParseQuoted(args[0], JoinedTail(args[1..]));
    }
  }

  /** The law the writer exists for: parsing a joined command line returns the arguments. */
  lemma RoundTrip(args: seq<string>)
    ensures ParseCommandLine(Joined(args)) == args
  {
    if args != [] {
      hide ParseFrom, Quoted, JoinedTail, ParseCommandLine, Following;
      ParseTail(args[1..]);
      ParseQuoted(args[0], JoinedTail(args[1..]));
    }
  }

  // ---------------------------------------------------------------------
  // The writer itself
  // ---------------------------------------------------------------------

  /** `ret` is what has been written once the first k arguments are done. */
  ghost predicate Written(args: seq<string>, k: nat, ret: string)
    requires k <= |args|
  {
    if k == 0 then ret == [] else ret != [] && ret + JoinedTail(args[k..]) == Joined(args)
  }

  lemma WriteNext(args: seq<string>, k: nat, before: string, text: string)
    requires k < |args| && Written(args, k, before)
    requires text == Quoted(args[k]) && text != []
    ensures Written(args, k + 1, (if before == [] then before else before + [' ']) + text)
  {
    hide Quoted;
    assert args[k..][1..] == args[k + 1..];
    if k == 0 {
      assert args[0..] == args;
    } else {
      var rest := JoinedTail(args[k + 1..]);
      assert before + [' '] + text + rest == before + ([' '] + (text + rest));
    }
  }

  method JoinArguments(args: seq<string>) returns (ret: string)
    ensures ret == Joined(args)
    ensures ParseCommandLine(ret) == args
  {
    ret := [];
    for k := 0 to |args|
      invariant Written(args, k, ret)
    {
      ghost var before := ret;
      if ret != [] {
        ret := ret + [' '];
      }
      var text := WriteArgument(args[k]);
      ret := ret + text;
      WriteNext(args, k, before, text);
    }
    assert ret == Joined(args) by {
      if args != [] {
        assert args[|args|..] == [] && ret + [] == ret;
      }
    }
    RoundTrip(args);
  }

  /** One argument: bare when nothing in it needs quoting, else between quotes. */
  method WriteArgument(arg: string) returns (text: string)
    ensures text == Quoted(arg)
    ensures text != []
  {
    if Bare(arg) {
      text := arg;
    } else {
      var inside := WriteEscaped(arg);
      text := ['\"'] + inside + ['\"'];
    }
  }

  /** The inner loop: count a run of backslashes, then decide by what follows it. */
  method WriteEscaped(arg: string) returns (ret: string)
    ensures ret == Escaped(arg, 0)
  {
    ret := [];
    var it := 0;
    while true
      invariant 0 <= it <= |arg|
      invariant ret + Escaped(arg[it..], 0) == Escaped(arg, 0)
      decreases |arg| - it
    {
      var backslashes := 0;
      ghost var start := it;
      while it != |arg| && arg[it] == '\\'
        invariant start <= it <= |arg|
        invariant Escaped(arg[it..], backslashes) == Escaped(arg[start..], 0)
        decreases |arg| - it
      {
        assert arg[it..][1..] == arg[it + 1..];
        it := it + 1;
        backslashes := backslashes + 1;
      }
      if it == |arg| {
        ret := ret + Backslashes(2 * backslashes);
        return;
      }
      assert arg[it..][1..] == arg[it + 1..];
      if arg[it] == '\"' {
        ret := ret + Backslashes(2 * backslashes + 1) + [arg[it]];
      } else {
        ret := ret + Backslashes(backslashes) + [arg[it]];
      }
      it := it + 1;
    }
  }
}
