/** What the command-line loop of CLI11.hpp makes of the text of a token: names and values are told apart as they are
    written, and a value means the same attached to its name and written after it. */
module CliTokens {
  import opened Arithmetic
  import opened CliArguments
  import opened CliClusters

  // ---------------------------------------------------------------------
  // A token's kind, name and value
  // ---------------------------------------------------------------------

  /** What a name may begin with. */
  predicate NameStart(c: char) { c != '-' && c > '!' }

  lemma {:induction false} IndexOfFirst(n: string, c: char, v: string)
    requires c !in n
    ensures IndexOf(n, c) == |n| && IndexOf(n + [c] + v, c) == |n|
    decreases |n|
  {
    var t := n + [c] + v;
    if n != "" {
      assert t[0] == n[0] && t[1..] == n[1..] + [c] + v;
      IndexOfFirst(n[1..], c, v);
    } else {
      assert t[0] == c;
    }
  }

  /** `--name=value`, for every value: the value begins after the first equals sign. */
  lemma LongWithValue(app: App, n: string, v: string)
    requires '=' !in n && (n != "" ==> NameStart(n[0]))
    ensures Recognize(app, "--" + n + "=" + v) == Long && SplitToken(app, "--" + n + "=" + v) == Parts(n, v, "")
  {
    var t := "--" + n + "=" + v;
    assert t == ("--" + n) + ['='] + v;
    IndexOfFirst("--" + n, '=', v);
    assert t[2] == if n != "" then n[0] else '=';
    assert t[2..2 + |n|] == n && t[2 + |n| + 1..] == v;
  }

  /** `--name` */
  lemma LongAlone(app: App, n: string)
    requires '=' !in n && n != "" && NameStart(n[0])
    ensures Recognize(app, "--" + n) == Long && SplitToken(app, "--" + n) == Parts(n, "", "")
  {
    var t := "--" + n;
    IndexOfFirst(t, '=', "");
    assert t[2] == n[0] && t[2..] == n;
  }

  /** `/name:value` */
  lemma WindowsWithValue(app: App, n: string, v: string)
    requires app.windowsStyle && ':' !in n && (n != "" ==> NameStart(n[0]))
    ensures Recognize(app, "/" + n + ":" + v) == Windows && SplitToken(app, "/" + n + ":" + v) == Parts(n, v, "")
  {
    var t := "/" + n + ":" + v;
    assert t == ("/" + n) + [':'] + v;
    IndexOfFirst("/" + n, ':', v);
    assert t[1] == if n != "" then n[0] else ':';
    assert t[1..1 + |n|] == n && t[1 + |n| + 1..] == v;
  }

  /** `/name` */
  lemma WindowsAlone(app: App, n: string)
    requires app.windowsStyle && ':' !in n && n != "" && NameStart(n[0])
    ensures Recognize(app, "/" + n) == Windows && SplitToken(app, "/" + n) == Parts(n, "", "")
  {
    var t := "/" + n;
    IndexOfFirst(t, ':', "");
    assert t[1] == n[0] && t[1..] == n;
  }

  /** A digit after a dash names an option only when there is one with that name. */
  predicate ShortName(app: App, c: char) {
    NameStart(c) && ('0' <= c <= '9' ==> app.hasOption(['-', c]))
  }

  /** `-c` and whatever follows in the token. */
  lemma ShortWithRest(app: App, c: char, rest: string)
    requires ShortName(app, c)
    ensures Recognize(app, ['-', c] + rest) == Short && SplitToken(app, ['-', c] + rest) == Parts([c], "", rest)
  {
    var t := ['-', c] + rest;
    assert t[1] == c && t[1..2] == [c] && t[2..] == rest;
  }

  /** Every option token is one of these. */
  lemma EveryOptionToken(app: App, t: string) returns (n: string, v: string, c: char)
    requires OptionKind(Recognize(app, t))
    ensures match Recognize(app, t)
      case Long => '=' !in n && (n != "" ==> NameStart(n[0])) && (t == "--" + n + "=" + v || (n != "" && t == "--" + n))
      case Windows => app.windowsStyle && ':' !in n && (n != "" ==> NameStart(n[0])) && (t == "/" + n + ":" + v || (n != "" && t == "/" + n))
      case _ => ShortName(app, c) && t == ['-', c] + v
  {
    var kind := Recognize(app, t);
    n, v, c := "", "", '-';
    if kind == Short {
      c, v := t[1], t[2..];
      assert t == ['-', c] + v;
    } else {
      var start := if kind == Long then 2 else 1;
      var mark := if kind == Long then '=' else ':';
      var loc := IndexOf(t, mark);
      n := t[start..loc];
      assert t[..start] == if kind == Long then "--" else "/";
      assert t == t[..start] + n + t[loc..];
      if loc < |t| {
        v := t[loc + 1..];
        assert t[loc..] == [mark] + v;
      } else {
        assert t[loc..] == "";
      }
    }
  }

  // ---------------------------------------------------------------------
  // A value attached to its name and a value written after it
  // ---------------------------------------------------------------------

  /** Token u has this kind and name, and t is u with the text v attached: after `=` or `:`, or after the letter of a
      short option. */
  predicate Attached(app: App, kind: Kind, n: string, t: string, u: string, v: string) {
    match kind
    case Long => '=' !in n && n != "" && NameStart(n[0]) && u == "--" + n && t == "--" + n + "=" + v
    case Windows => app.windowsStyle && ':' !in n && n != "" && NameStart(n[0]) && u == "/" + n && t == "/" + n + ":" + v
    case Short => |n| == 1 && ShortName(app, n[0]) && u == "-" + n && t == "-" + n + v
    case _ => false
  }

  lemma AttachedParts(app: App, kind: Kind, n: string, t: string, u: string, v: string)
    requires Attached(app, kind, n, t, u, v)
    ensures OptionKind(kind) && Recognize(app, u) == Recognize(app, t) == kind && SplitToken(app, u) == Parts(n, "", "")
    ensures SplitToken(app, t) == Parts(n, v, "") || SplitToken(app, t) == Parts(n, "", v)
  {
    hide SplitToken, Recognize, NameStart;
    match kind
    case Long =>
      LongWithValue(app, n, v);
      LongAlone(app, n);
    case Windows =>
      WindowsWithValue(app, n, v);
      WindowsAlone(app, n);
    case Short =>
      ShortWithRest(app, n[0], v);
      ShortWithRest(app, n[0], "");
      assert ['-', n[0]] == "-" + n && ['-', n[0]] + "" == "-" + n;
    case _ =>
  }

  /** After the first value, what is left to do is the same. */
  lemma FirstValueAlike(app: App, a: State, b: State, o: nat, v: string, p: Parts, q: Parts)
    requires app.Valid() && Fits(app, a) && o < |app.options| && MinItems(app.options[o]) > 0 && MaxItems(app.options[o]) > 0
    requires v != "" && q == Parts(p.name, "", "") && (p == Parts(q.name, v, "") || p == Parts(q.name, "", v))
    requires b.args == a.args + [v] && Alike(a, b.(args := a.args))
    ensures SameOutcome(TakeValues(app, a, o, p), TakeValues(app, b, o, q))
  {
    hide MaxItems, MinItems, Optionals, Finish, GatherMinimum;
    var min := MinItems(app.options[o]);
    var m := Begin(app, a, o, p);
    assert Last(b.args) == v && Front(b.args) == a.args;
    var n := Take(app, b, ValueOf(o));
    var c := |app.pieces(o, v)|;
    assert m == Progress(Give(app, a, o, v), c, "") && Alike(m.st, n);
    GatherStarts(app, b, o, min);
    GatherMinimumAlike(app, m.st, n, o, min, c);
    var (s, d) := GatherMinimum(app, m.st, o, min, c);
    var t := GatherMinimum(app, n, o, min, c).0;
    OptionalsAlike(app, s, t, o, p.name, d, "");
    var x, y := Optionals(app, s, o, p.name, d, ""), Optionals(app, t, o, p.name, d, "");
    if x.Progress? { FinishAlike(app, x.st, y.st, o, x.collected, ""); }
  }

  lemma GatherStarts(app: App, b: State, o: nat, min: int)
    requires Fits(app, b) && b.args != [] && min > 0
    ensures GatherMinimum(app, b, o, min, 0)
         == GatherMinimum(app, Take(app, b, ValueOf(o)), o, min, |app.pieces(o, Last(b.args))|)
  {
    hide Take;
  }

  /** For every command line and every option that demands a value: the value may be attached to the name or be the
      next token, with the same results, the same missing tokens and the same refusals. */
  lemma AttachedMeansApart(app: App, a: State, b: State, x: seq<string>, kind: Kind, n: string, t: string, u: string, v: string)
    requires app.Valid() && Fits(app, a) && !a.positionalOnly && v != "" && Attached(app, kind, n, t, u, v)
    requires app.find(kind, n) >= 0 && MinItems(app.options[app.find(kind, n)]) > 0 && MaxItems(app.options[app.find(kind, n)]) > 0
    requires a.args == x + [t] && b.args == x + [v, u] && Alike(a.(args := b.args), b)
    ensures SameOutcome(ParseAll(app, a), ParseAll(app, b))
  {
    hide Attached, SplitToken, Recognize, MinItems, MaxItems, TakeValues;
    AttachedParts(app, kind, n, t, u, v);
    var o := app.find(kind, n);
    assert Last(a.args) == t && Front(a.args) == x;
    assert Last(b.args) == u && Front(b.args) == x + [v];
    FirstValueAlike(app, Take(app, a, Named(o)), Take(app, b, Named(o)), o, v, SplitToken(app, t), SplitToken(app, u));
    assert ParseSingle(app, a) == ParseArg(app, a) && ParseSingle(app, b) == ParseArg(app, b);
    assert SameOutcome(ParseSingle(app, a), ParseSingle(app, b));
    if ParseSingle(app, a).Parsed? { ParseAllAlike(app, ParseSingle(app, a).st, ParseSingle(app, b).st); }
  }

  // ---------------------------------------------------------------------
  // An option with exactly one value
  // ---------------------------------------------------------------------

  predicate OneValue(opt: Opt) {
    MinItems(opt) == 1 && MaxItems(opt) == 1 && !opt.allowExtra
  }

  lemma OneValueTypes(opt: Opt)
    requires OneValue(opt) && opt.typeMin <= opt.typeMax
    ensures opt.typeMin == 1 && opt.typeMax == 1
  {
  }

  /** The option gets exactly the results of its value, nothing else changes, and the tokens before it are next. */
  lemma OneValueStep(app: App, a: State, x: seq<string>, kind: Kind, n: string, t: string, u: string, v: string)
    requires app.Valid() && Fits(app, a) && !a.positionalOnly && v != "" && Attached(app, kind, n, t, u, v)
    requires app.find(kind, n) >= 0 && OneValue(app.options[app.find(kind, n)]) && |app.pieces(app.find(kind, n), v)| == 1
    requires a.args == x + [t]
    ensures var o := app.find(kind, n);
      ParseSingle(app, a).Parsed? && Alike(ParseSingle(app, a).st, State(x, a.results[o := a.results[o] + app.pieces(o, v)], a.missing, false, []))
  {
    hide Attached, SplitToken, Recognize, MinItems, MaxItems;
    AttachedParts(app, kind, n, t, u, v);
    var o := app.find(kind, n);
    OneValueTypes(app.options[o]);
    assert Last(a.args) == t && Front(a.args) == x;
    var s := Take(app, a, Named(o));
    var p := SplitToken(app, t);
    var m := Begin(app, s, o, p);
    assert m == Progress(Give(app, s, o, v), 1, "");
    assert GatherMinimum(app, m.st, o, 1, 1) == (m.st, 1);
    assert Optionals(app, m.st, o, p.name, 1, "") == Progress(m.st, 1, "");
    assert Finish(app, m.st, o, 1, "") == Parsed(m.st);
    assert ParseSingle(app, a) == ParseArg(app, a);
  }

  /** A command line of one such option, in both forms, gives exactly the results of the value. */
  lemma OneValueLine(app: App, kind: Kind, n: string, t: string, u: string, v: string)
    requires app.Valid() && v != "" && Attached(app, kind, n, t, u, v)
    requires app.find(kind, n) >= 0 && OneValue(app.options[app.find(kind, n)]) && |app.pieces(app.find(kind, n), v)| == 1
    ensures var p, q, o := ParseAll(app, Start(app, [t])), ParseAll(app, Start(app, [v, u])), app.find(kind, n);
      p.Parsed? && q.Parsed? && p.st.results == q.st.results == seq(|app.options|, _ => [])[o := app.pieces(o, v)]
      && p.st.missing == q.st.missing == []
  {
    hide Attached, SplitToken, Recognize, MinItems, MaxItems, ParseSingle;
    var o := app.find(kind, n);
    var a, b := Start(app, [t]), Start(app, [v, u]);
    assert a.args == [] + [t] && b.args == [] + [v, u];
    OneValueStep(app, a, [], kind, n, t, u, v);
    AttachedMeansApart(app, a, b, [], kind, n, t, u, v);
    assert a.results[o] + app.pieces(o, v) == app.pieces(o, v);
    assert ParseAll(app, ParseSingle(app, a).st) == ParseSingle(app, a);
  }

  // ---------------------------------------------------------------------
  // Positionals are filled in order
  // ---------------------------------------------------------------------

  /** The tokens as they are read; the vector holds the next one last. */
  function Reversed(tokens: seq<string>): (r: seq<string>)
    ensures |r| == |tokens|
  {
    if tokens == [] then [] else Reversed(tokens[1..]) + [tokens[0]]
  }

  /** How many of the first k tokens the options before i take. */
  function Until(app: App, i: nat, k: nat): (n: nat)
    requires i <= |app.options|
    ensures n <= k
  {
    if i == 0 then 0
    else
      var o := app.options[i - 1];
      if !o.positional then Until(app, i - 1, k)
      else if o.allowExtra then k
      else Smaller(k, Until(app, i - 1, k) + ItemsMin(o))
  }

  lemma {:induction false} UntilGrows(app: App, i: nat, k: nat)
    requires i < |app.options|
    ensures Until(app, i, k) <= Until(app, i + 1, k)
  {
    hide ItemsMin;
  }

  /** The results that texts add to option i. */
  function Pieces(app: App, i: nat, texts: seq<string>): seq<string> {
    if texts == [] then [] else Pieces(app, i, Front(texts)) + app.pieces(i, Last(texts))
  }

  ghost predicate Single(app: App, texts: seq<string>) {
    forall i: nat, t: string :: i < |app.options| && t in texts ==> |app.pieces(i, t)| == 1
  }

  lemma {:induction false} PiecesLength(app: App, i: nat, texts: seq<string>)
    requires Single(app, texts) && i < |app.options|
    ensures |Pieces(app, i, texts)| == |texts|
    decreases |texts|
  {
    if texts != [] { PiecesLength(app, i, Front(texts)); }
  }

  function Lost(texts: seq<string>): seq<(Kind, string)> {
    if texts == [] then [] else Lost(Front(texts)) + [(NoKind, Last(texts))]
  }

  /** Positionals are read as they come and tokens that find none are kept as missing. */
  predicate PlainApp(app: App) {
    !app.positionalsAtEnd && !app.validatePositionals && !app.prefixCommand
  }

  /** What the first k tokens have come to. */
  ghost predicate Filled(app: App, st: State, tokens: seq<string>, k: nat, missing: seq<(Kind, string)>)
    requires k <= |tokens|
  {
    && Fits(app, st)
    && st.args == Reversed(tokens[k..])
    && (forall i: nat :: i < |app.options| ==> st.results[i] == Share(app, tokens, i, k))
    && st.missing == missing + Lost(tokens[Until(app, |app.options|, k)..k])
  }

  function Share(app: App, tokens: seq<string>, i: nat, k: nat): seq<string>
    requires i < |app.options| && k <= |tokens|
  {
    UntilGrows(app, i, k);
    Pieces(app, i, tokens[Until(app, i, k)..Until(app, i + 1, k)])
  }

  /** While no option before i wants a token, what they take does not change with one more; from the one that does
      on, everything is taken. */
  lemma {:induction false} UntilNext(app: App, i: nat, k: nat, o: nat)
    requires i <= |app.options| && o <= |app.options|
    requires forall j: nat :: j < o ==> !HasRoom(app, j, k)
    requires o < |app.options| ==> HasRoom(app, o, k)
    ensures i <= o ==> Until(app, i, k + 1) == Until(app, i, k)
    ensures i > o ==> Until(app, i, k) == k && Until(app, i, k + 1) == k + 1
    decreases i
  {
    hide ItemsMin;
    if i > 0 {
      UntilNext(app, i - 1, k, o);
      UntilGrows(app, i - 1, k);
      if i - 1 < o { assert !HasRoom(app, i - 1, k); }
    }
  }

  /** Positional i still takes tokens after the first k. */
  predicate HasRoom(app: App, i: nat, k: nat)
    requires i < |app.options|
  {
    var o := app.options[i];
    o.positional && (o.allowExtra || Until(app, i + 1, k) - Until(app, i, k) < ItemsMin(o))
  }

  lemma RoomWants(app: App, st: State, tokens: seq<string>, k: nat, missing: seq<(Kind, string)>, i: nat)
    requires PlainApp(app) && Single(app, tokens) && k < |tokens| && Filled(app, st, tokens, k, missing) && i < |app.options|
    ensures Wants(app, |st.results[i]|, i, tokens[k]) == HasRoom(app, i, k)
  {
    hide ItemsMin, Until;
    UntilGrows(app, i, k);
    PiecesLength(app, i, tokens[Until(app, i, k)..Until(app, i + 1, k)]);
  }

  lemma ReversedNext(tokens: seq<string>, k: nat)
    requires k < |tokens|
    ensures Reversed(tokens[k..]) != [] && Last(Reversed(tokens[k..])) == tokens[k]
    ensures Front(Reversed(tokens[k..])) == Reversed(tokens[k + 1..])
  {
    assert tokens[k..][1..] == tokens[k + 1..];
  }

  lemma OneMore<T>(s: seq<T>, a: nat, k: nat)
    requires a <= k < |s|
    ensures s[a..k + 1] != [] && Front(s[a..k + 1]) == s[a..k] && Last(s[a..k + 1]) == s[k]
  {
  }

  /** One token more. */
  lemma FillNext(app: App, st: State, tokens: seq<string>, k: nat, missing: seq<(Kind, string)>)
    requires app.Valid() && PlainApp(app) && Single(app, tokens) && k < |tokens| && Filled(app, st, tokens, k, missing)
    ensures st.args != [] && ParsePositional(app, st).Parsed? && Filled(app, ParsePositional(app, st).st, tokens, k + 1, missing)
  {
    hide ItemsMin, Until, Wants, HasRoom, Pieces, Lost, Reversed;
    ReversedNext(tokens, k);
    var o := ChoosePositional(app, st);
    forall j: nat | j < |app.options| ensures Wants(app, |st.results[j]|, j, tokens[k]) == HasRoom(app, j, k) {
      RoomWants(app, st, tokens, k, missing, j);
    }
    var next := ParsePositional(app, st).st;
    forall i: nat | i < |app.options| ensures next.results[i] == Share(app, tokens, i, k + 1) {
      UntilNext(app, i, k, o);
      UntilNext(app, i + 1, k, o);
      ShareNext(app, tokens, i, k, o);
    }
    UntilNext(app, |app.options|, k, o);
    LostNext(tokens, Until(app, |app.options|, k), k, o < |app.options|, missing);
    assert next.args == Reversed(tokens[k + 1..]);
    assert Fits(app, next);
    assert next.missing == missing + Lost(tokens[Until(app, |app.options|, k + 1)..k + 1]);
  }

  lemma LostNext(tokens: seq<string>, n: nat, k: nat, taken: bool, missing: seq<(Kind, string)>)
    requires n <= k < |tokens| && (taken ==> n == k)
    ensures taken ==> missing + Lost(tokens[n..k]) == missing + Lost(tokens[k + 1..k + 1])
    ensures !taken ==> missing + Lost(tokens[n..k]) + [(NoKind, tokens[k])] == missing + Lost(tokens[n..k + 1])
  {
    OneMore(tokens, n, k);
    assert tokens[n..k] == [] || !taken;
  }

  lemma ShareNext(app: App, tokens: seq<string>, i: nat, k: nat, o: nat)
    requires i < |app.options| && k < |tokens|
    requires i <= o ==> Until(app, i, k + 1) == Until(app, i, k)
    requires i > o ==> Until(app, i, k) == k && Until(app, i, k + 1) == k + 1
    requires i + 1 <= o ==> Until(app, i + 1, k + 1) == Until(app, i + 1, k)
    requires i + 1 > o ==> Until(app, i + 1, k) == k && Until(app, i + 1, k + 1) == k + 1
    ensures Share(app, tokens, i, k + 1) == if i == o then Share(app, tokens, i, k) + app.pieces(i, tokens[k]) else Share(app, tokens, i, k)
  {
    hide Until;
    UntilGrows(app, i, k);
    if i == o { OneMore(tokens, Until(app, i, k), k); }
    if i > o { assert tokens[k..k] == tokens[k + 1..k + 1]; }
  }

  lemma {:induction false} FillAll(app: App, st: State, tokens: seq<string>, k: nat, missing: seq<(Kind, string)>)
    requires app.Valid() && PlainApp(app) && Single(app, tokens) && k <= |tokens| && Filled(app, st, tokens, k, missing)
    requires st.positionalOnly || forall t :: t in tokens ==> Recognize(app, t) == NoKind
    ensures ParseAll(app, st).Parsed? && Filled(app, ParseAll(app, st).st, tokens, |tokens|, missing)
    decreases |tokens| - k
  {
    hide Recognize, Filled, ParsePositional;
    FilledFits(app, st, tokens, k, missing);
    if k < |tokens| {
      FillNext(app, st, tokens, k, missing);
      assert Last(st.args) == tokens[k] && st.args != [] by { NextToken(app, st, tokens, k, missing); }
      assert ParseSingle(app, st) == ParsePositional(app, st);
      var next := ParsePositional(app, st).st;
      assert next.positionalOnly == st.positionalOnly by { StillOnly(app, st); }
      FillAll(app, next, tokens, k + 1, missing);
    } else {
      assert st.args == [] by { NoToken(app, st, tokens, missing); }
    }
  }

  lemma FilledFits(app: App, st: State, tokens: seq<string>, k: nat, missing: seq<(Kind, string)>)
    requires k <= |tokens| && Filled(app, st, tokens, k, missing)
    ensures Fits(app, st)
  {
  }

  lemma NextToken(app: App, st: State, tokens: seq<string>, k: nat, missing: seq<(Kind, string)>)
    requires k < |tokens| && Filled(app, st, tokens, k, missing)
    ensures st.args != [] && Last(st.args) == tokens[k]
  {
    ReversedNext(tokens, k);
  }

  lemma NoToken(app: App, st: State, tokens: seq<string>, missing: seq<(Kind, string)>)
    requires Filled(app, st, tokens, |tokens|, missing)
    ensures st.args == []
  {
  }

  lemma StillOnly(app: App, st: State)
    requires PlainApp(app) && Fits(app, st) && st.args != [] && ParsePositional(app, st).Parsed?
    ensures ParsePositional(app, st).st.positionalOnly == st.positionalOnly
  {
    hide ChoosePositional;
  }

  /** For every list of tokens that are no options: each positional takes as many as it expects, in order, one that
      takes extra ones takes all that is left, and the tokens beyond are missing. */
  lemma PositionalsInOrder(app: App, tokens: seq<string>)
    requires app.Valid() && PlainApp(app) && Single(app, tokens) && forall t :: t in tokens ==> Recognize(app, t) == NoKind
    ensures var p, n := ParseAll(app, Start(app, Reversed(tokens))), |tokens|;
      p.Parsed? && Filled(app, p.st, tokens, n, [])
  {
    hide Recognize;
    FillStart(app, Start(app, Reversed(tokens)), tokens, []);
    FillAll(app, Start(app, Reversed(tokens)), tokens, 0, []);
  }

  lemma {:induction false} NoneUntil(app: App, i: nat)
    requires i <= |app.options|
    ensures Until(app, i, 0) == 0
  {
  }

  lemma FillStart(app: App, st: State, tokens: seq<string>, missing: seq<(Kind, string)>)
    requires Fits(app, st) && st.args == Reversed(tokens) && st.missing == missing && forall i: nat :: i < |app.options| ==> st.results[i] == []
    ensures Filled(app, st, tokens, 0, missing)
  {
    hide Until;
    assert tokens[0..] == tokens;
    NoneUntil(app, |app.options|);
    forall i: nat | i < |app.options| ensures st.results[i] == Share(app, tokens, i, 0) {
      NoneUntil(app, i);
      NoneUntil(app, i + 1);
    }
  }

  /** After `--` that holds of any tokens, whatever they look like. */
  lemma AllPositionalAfterMark(app: App, tokens: seq<string>)
    requires app.Valid() && PlainApp(app) && Single(app, tokens)
    ensures var p, n := ParseAll(app, Start(app, Reversed(["--"] + tokens))), |tokens|;
      p.Parsed? && Filled(app, p.st, tokens, n, [(PositionalMark, "--")])
  {
    hide ParsePositional, IsLong, IsShort, IsWindows;
    var all := ["--"] + tokens;
    var st := Start(app, Reversed(all));
    ReversedNext(all, 0);
    assert all[0..] == all && all[1..] == tokens;
    assert ParseSingle(app, st) == Parsed(Take(app, st, Mark));
    FillStart(app, Take(app, st, Mark), tokens, [(PositionalMark, "--")]);
    FillAll(app, Take(app, st, Mark), tokens, 0, [(PositionalMark, "--")]);
  }

  // ---------------------------------------------------------------------
  // As many tokens as required positionals need
  // ---------------------------------------------------------------------

  predicate AllRequired(app: App) {
    forall i :: 0 <= i < |app.options| && app.options[i].positional ==> app.options[i].required && !app.options[i].allowExtra
  }

  function NoResults(app: App): (r: seq<seq<string>>)
    ensures |r| == |app.options|
  {
    seq(|app.options|, _ => [])
  }

  lemma {:induction false} RemainingSplits(app: App, i: nat, k: nat)
    requires AllRequired(app) && i <= |app.options| && k >= RemainingRequired(app, NoResults(app), 0)
    ensures Until(app, i, k) + RemainingRequired(app, NoResults(app), i) == RemainingRequired(app, NoResults(app), 0)
    decreases i
  {
    hide ItemsMin;
    if i > 0 {
      RemainingSplits(app, i - 1, k);
      assert NoResults(app)[i - 1] == [];
    }
  }

  /** The number of tokens kept back for required positionals is exactly the number they take: each gets what it
      expects and nothing is left over. */
  lemma RemainingIsExact(app: App, k: nat)
    requires AllRequired(app) && k == RemainingRequired(app, NoResults(app), 0)
    ensures Until(app, |app.options|, k) == k
    ensures forall i :: 0 <= i < |app.options| && app.options[i].positional ==> Until(app, i + 1, k) - Until(app, i, k) == ItemsMin(app.options[i])
  {
    hide ItemsMin, Until, NoResults;
    RemainingSplits(app, |app.options|, k);
    forall i | 0 <= i < |app.options| && app.options[i].positional
      ensures Until(app, i + 1, k) - Until(app, i, k) == ItemsMin(app.options[i])
    {
      RemainingSplits(app, i, k);
      RemainingSplits(app, i + 1, k);
      NothingYet(app, i);
    }
  }

  lemma NothingYet(app: App, i: nat)
    requires i < |app.options|
    ensures NoResults(app)[i] == []
  {
  }

  // ---------------------------------------------------------------------
  // How many values an option takes
  // ---------------------------------------------------------------------

  /** The minimum is one type's worth unless no value is expected. The maximum is all that is expected while that fits;
      an option with no practical limit takes what is expected at least, unless it takes extra values. */
  lemma ItemLimits(o: Opt)
    ensures MinItems(o) == if o.expectedMin == 0 then 0 else o.typeMin
    ensures o.typeMax * o.expectedMax < VECTOR_SIZE / 16 ==> MaxItems(o) == o.typeMax * o.expectedMax
    ensures o.typeMax * o.expectedMax > INT_MAX && !o.allowExtra && o.typeMax * o.expectedMin <= INT_MAX ==> MaxItems(o) == o.typeMax * o.expectedMin
    ensures o.typeMax * o.expectedMax > INT_MAX && o.allowExtra ==> MaxItems(o) == VECTOR_SIZE
  {
    if o.expectedMin > 0 { AtLeastOnce(o.typeMin, o.expectedMin); }
  }

  lemma AtLeastOnce(a: nat, b: nat)
    requires b > 0
    ensures a * b >= a
  {
    assert a * b == a + a * (b - 1);
  }

  // ---------------------------------------------------------------------
  // Flags, defaults, and marks
  // ---------------------------------------------------------------------

  lemma OnlyMark(app: App, t: string)
    ensures Recognize(app, t) == PositionalMark <==> t == "--"
  {
    hide IsWindows;
  }

  predicate FlagOption(opt: Opt) {
    MinItems(opt) == 0 && MaxItems(opt) == 0 && !opt.allowExtra
  }

  /** A flag with a value after `=` or `:` has the program make its result of that value, and no token after it is taken. */
  lemma FlagWithValue(app: App, a: State, x: seq<string>, kind: Kind, n: string, t: string, u: string, v: string)
    requires app.Valid() && Fits(app, a) && !a.positionalOnly && Attached(app, kind, n, t, u, v) && kind != Short
    requires app.find(kind, n) >= 0 && FlagOption(app.options[app.find(kind, n)]) && a.args == x + [t]
    ensures var o := app.find(kind, n);
      match app.flagValue(o, n, v)
      case None => ParseSingle(app, a).Thrown?
      case Some(text) =>
        ParseSingle(app, a).Parsed?
        && Alike(ParseSingle(app, a).st, State(x, a.results[o := a.results[o] + app.pieces(o, text)], a.missing, false, []))
  {
    hide Attached, SplitToken, Recognize, MinItems, MaxItems;
    AttachedParts(app, kind, n, t, u, v);
    NotShort(app, kind, n, t, u, v);
    var o := app.find(kind, n);
    assert Last(a.args) == t && Front(a.args) == x;
    FlagTaken(app, Take(app, a, Named(o)), o, SplitToken(app, t));
    assert ParseSingle(app, a) == ParseArg(app, a);
  }

  lemma NotShort(app: App, kind: Kind, n: string, t: string, u: string, v: string)
    requires Attached(app, kind, n, t, u, v) && kind != Short
    ensures SplitToken(app, t) == Parts(n, v, "")
  {
    hide SplitToken, Recognize, NameStart;
    if kind == Long { LongWithValue(app, n, v); } else { WindowsWithValue(app, n, v); }
  }

  lemma FlagTaken(app: App, s: State, o: nat, p: Parts)
    requires app.Valid() && Fits(app, s) && o < |app.options| && FlagOption(app.options[o]) && p.rest == ""
    ensures match app.flagValue(o, p.name, p.value)
      case None => TakeValues(app, s, o, p).Thrown?
      case Some(text) => TakeValues(app, s, o, p) == Parsed(Give(app, s, o, text))
  {
    hide MinItems, MaxItems;
    if app.flagValue(o, p.name, p.value).Some? {
      var m := Begin(app, s, o, p);
      assert GatherMinimum(app, m.st, o, 0, 0) == (m.st, 0);
      assert Optionals(app, m.st, o, p.name, 0, "") == Progress(m.st, 0, "");
    }
  }

  /** An option that may go without a value. */
  predicate OptionalValue(opt: Opt) {
    MinItems(opt) == 0 && MaxItems(opt) > 0
  }

  /** When no plain token follows it, it gets what the program has for it without a value. */
  lemma ValueLeftOut(app: App, a: State, x: seq<string>, kind: Kind, n: string, t: string, u: string, v: string)
    requires app.Valid() && Fits(app, a) && !a.positionalOnly && Attached(app, kind, n, t, u, v)
    requires app.find(kind, n) >= 0 && OptionalValue(app.options[app.find(kind, n)]) && a.args == x + [u]
    requires x == [] || OptionKind(Recognize(app, Last(x)))
    ensures var o := app.find(kind, n);
      match app.flagValue(o, n, "")
      case None => ParseSingle(app, a).Thrown?
      case Some(text) =>
        ParseSingle(app, a).Parsed?
        && Alike(ParseSingle(app, a).st, State(x, a.results[o := a.results[o] + app.pieces(o, text)], a.missing, false, []))
  {
    hide Attached, SplitToken, Recognize, MinItems, MaxItems;
    AttachedParts(app, kind, n, t, u, v);
    var o := app.find(kind, n);
    assert Last(a.args) == u && Front(a.args) == x;
    NoValueTaken(app, Take(app, a, Named(o)), o, n);
    assert ParseSingle(app, a) == ParseArg(app, a);
  }

  lemma NoValueTaken(app: App, s: State, o: nat, n: string)
    requires app.Valid() && Fits(app, s) && o < |app.options| && OptionalValue(app.options[o])
    requires s.args == [] || OptionKind(Recognize(app, Last(s.args)))
    ensures match app.flagValue(o, n, "")
      case None => TakeValues(app, s, o, Parts(n, "", "")).Thrown?
      case Some(text) => TakeValues(app, s, o, Parts(n, "", "")) == Parsed(Give(app, s, o, text))
  {
    hide MinItems, MaxItems, Recognize, RemainingRequired;
    var opt := app.options[o];
    assert Begin(app, s, o, Parts(n, "", "")) == Progress(s, 0, "");
    assert GatherMinimum(app, s, o, 0, 0) == (s, 0);
    assert GatherOptional(app, s, o, MaxItems(opt), opt.allowExtra, 0, RemainingRequired(app, s.results, 0)) == (s, 0);
    assert EatMark(app, s) == s;
  }

  /** An option that demands one value and takes more. */
  predicate TakesMore(opt: Opt) {
    MinItems(opt) == 1 && opt.typeMax == 1 && MaxItems(opt) > 0 && (MaxItems(opt) > 1 || opt.allowExtra)
  }

  /** A `--` after the values of an option that could take more ends them and is dropped: what follows is read as before. */
  lemma MarkEndsValues(app: App, a: State, x: seq<string>, kind: Kind, n: string, t: string, u: string, v: string)
    requires app.Valid() && Fits(app, a) && !a.positionalOnly && Attached(app, kind, n, t, u, v)
    requires app.find(kind, n) >= 0 && a.args == x + ["--", v, u]
    requires TakesMore(app.options[app.find(kind, n)])
    requires |app.pieces(app.find(kind, n), v)| == 1
    ensures var o := app.find(kind, n);
      ParseSingle(app, a).Parsed? && Alike(ParseSingle(app, a).st, State(x, a.results[o := a.results[o] + app.pieces(o, v)], a.missing, false, []))
  {
    hide Attached, SplitToken, Recognize, MinItems, MaxItems;
    AttachedParts(app, kind, n, t, u, v);
    var o := app.find(kind, n);
    assert Last(a.args) == u && Front(a.args) == x + ["--", v];
    MarkTaken(app, Take(app, a, Named(o)), x, o, n, v);
    assert ParseSingle(app, a) == ParseArg(app, a);
  }

  lemma MarkTaken(app: App, s: State, x: seq<string>, o: nat, n: string, v: string)
    requires app.Valid() && Fits(app, s) && o < |app.options| && s.args == x + ["--", v] && |app.pieces(o, v)| == 1
    requires TakesMore(app.options[o])
    ensures TakeValues(app, s, o, Parts(n, "", "")) == Parsed(Take(app, Take(app, s, ValueOf(o)), EndMark))
    ensures Last(s.args) == v && Front(s.args) == x + ["--"]
    ensures Last(x + ["--"]) == "--" && Front(x + ["--"]) == x
  {
    hide MinItems, MaxItems, Recognize, RemainingRequired, Take;
    var opt := app.options[o];
    OnlyMark(app, "--");
    assert Last(s.args) == v && Front(s.args) == x + ["--"];
    assert Last(x + ["--"]) == "--" && Front(x + ["--"]) == x;
    assert Begin(app, s, o, Parts(n, "", "")) == Progress(s, 0, "");
    var r := Take(app, s, ValueOf(o));
    assert GatherMinimum(app, s, o, 1, 0) == GatherMinimum(app, r, o, 1, 1) == (r, 1);
    assert GatherOptional(app, r, o, MaxItems(opt), opt.allowExtra, 1, RemainingRequired(app, r.results, 0)) == (r, 1);
    assert EatMark(app, r) == Take(app, r, EndMark);
  }

  /** With positionals at the end, once the tokens left are no more than the required ones need, the next token goes to
      the first required positional that lacks results, although optional ones before it would take it. */
  lemma ScarceTokens(app: App, st: State, i: nat)
    requires app.Valid() && Fits(app, st) && st.args != [] && app.positionalsAtEnd && !app.validatePositionals
    requires |st.args| <= RemainingRequired(app, st.results, 0) && i < |app.options|
    requires app.options[i].positional && app.options[i].required && |st.results[i]| < app.options[i].typeMin * app.options[i].expectedMin
    requires forall j :: 0 <= j < i ==>
      var o := app.options[j]; !(o.positional && o.required && |st.results[j]| < o.typeMin * o.expectedMin)
    ensures ParsePositional(app, st).Parsed? && ParsePositional(app, st).st.args == Front(st.args) && ParsePositional(app, st).st.positionalOnly
    ensures ParsePositional(app, st).st.results == st.results[i := st.results[i] + app.pieces(i, Last(st.args))]
  {
    var t := Last(st.args);
    assert Needs(app, |st.results[i]|, i, t);
    FirstNeeding(app, st.results, t, 0, i);
  }

  lemma {:induction false} FirstNeeding(app: App, results: seq<seq<string>>, t: string, k: nat, i: nat)
    requires |results| == |app.options| && k <= i < |app.options| && Needs(app, |results[i]|, i, t)
    requires forall j :: k <= j < i ==> !Needs(app, |results[j]|, j, t)
    ensures FindNeeding(app, results, t, k) == i
    decreases i - k
  {
    hide Needs;
    if k < i { FirstNeeding(app, results, t, k + 1, i); }
  }
}
