/** A cluster of short flags means what the flags mean written apart, although the loop of CLI11.hpp
    reads it by putting the rest of the cluster back on its own input. */
module CliClusters {
  import opened CliArguments

  // ---------------------------------------------------------------------
  // What the loop does never depends on the log
  // ---------------------------------------------------------------------

  /** Equal but for the log. */
  predicate Alike(a: State, b: State) {
    a.(log := b.log) == b
  }

  predicate SameOutcome(a: Outcome, b: Outcome) {
    a.Parsed? == b.Parsed? && (a.Parsed? ==> Alike(a.st, b.st))
  }

  lemma {:induction false} GatherMinimumAlike(app: App, a: State, b: State, o: nat, min: int, collected: int)
    requires Fits(app, a) && Alike(a, b)
    ensures Alike(GatherMinimum(app, a, o, min, collected).0, GatherMinimum(app, b, o, min, collected).0)
    ensures GatherMinimum(app, a, o, min, collected).1 == GatherMinimum(app, b, o, min, collected).1
    decreases |a.args|
  {
    if min > collected && a.args != [] {
      GatherMinimumAlike(app, Take(app, a, ValueOf(o)), Take(app, b, ValueOf(o)), o, min, collected + |app.pieces(o, Last(a.args))|);
    }
  }

  lemma {:induction false} GatherOptionalAlike(app: App, a: State, b: State, o: nat, max: int, extra: bool, collected: int, reserve: nat)
    requires Fits(app, a) && Alike(a, b)
    ensures Alike(GatherOptional(app, a, o, max, extra, collected, reserve).0, GatherOptional(app, b, o, max, extra, collected, reserve).0)
    ensures GatherOptional(app, a, o, max, extra, collected, reserve).1 == GatherOptional(app, b, o, max, extra, collected, reserve).1
    decreases |a.args|
  {
    hide Recognize;
    if (collected < max || extra) && MayCollect(app, a.args, o, reserve) {
      GatherOptionalAlike(app, Take(app, a, ValueOf(o)), Take(app, b, ValueOf(o)), o, max, extra,
        collected + |app.pieces(o, Last(a.args))|, reserve);
    }
  }

  lemma EatMarkAlike(app: App, a: State, b: State)
    requires Fits(app, a) && Alike(a, b)
    ensures Alike(EatMark(app, a), EatMark(app, b))
  {
    hide IsLong, IsShort, IsWindows;
  }

  lemma OptionalsAlike(app: App, a: State, b: State, o: nat, name: string, collected: int, rest: string)
    requires Fits(app, a) && Alike(a, b) && o < |app.options|
    ensures var p, q := Optionals(app, a, o, name, collected, rest), Optionals(app, b, o, name, collected, rest);
      p.Progress? == q.Progress? && (p.Progress? ==> Alike(p.st, q.st) && p.collected == q.collected)
  {
    hide Recognize, GatherOptional, MaxItems, MinItems, RemainingRequired, EatMark;
    var opt := app.options[o];
    var reserve := RemainingRequired(app, a.results, 0);
    GatherOptionalAlike(app, a, b, o, MaxItems(opt), opt.allowExtra, collected, reserve);
    EatMarkAlike(app, GatherOptional(app, a, o, MaxItems(opt), opt.allowExtra, collected, reserve).0,
      GatherOptional(app, b, o, MaxItems(opt), opt.allowExtra, collected, reserve).0);
  }

  lemma BeginAlike(app: App, a: State, b: State, o: nat, p: Parts)
    requires Fits(app, a) && Alike(a, b) && o < |app.options|
    ensures var m, n := Begin(app, a, o, p), Begin(app, b, o, p);
      m.Progress? == n.Progress? && (m.Progress? ==> Alike(m.st, n.st) && m.collected == n.collected && m.rest == n.rest)
  {
    hide MaxItems;
  }

  lemma FinishAlike(app: App, a: State, b: State, o: nat, collected: int, rest: string)
    requires Fits(app, a) && Alike(a, b) && o < |app.options| && app.options[o].typeMin <= app.options[o].typeMax
    ensures SameOutcome(Finish(app, a, o, collected, rest), Finish(app, b, o, collected, rest))
  {
    hide MinItems;
  }

  lemma TakeValuesAlike(app: App, a: State, b: State, o: nat, p: Parts)
    requires Fits(app, a) && Alike(a, b) && o < |app.options| && app.options[o].typeMin <= app.options[o].typeMax
    ensures SameOutcome(TakeValues(app, a, o, p), TakeValues(app, b, o, p))
  {
    hide GatherMinimum, Optionals, MinItems, Begin, Finish;
    var min := MinItems(app.options[o]);
    var m, n := Begin(app, a, o, p), Begin(app, b, o, p);
    BeginAlike(app, a, b, o, p);
    if m.Progress? {
      GatherMinimumAlike(app, m.st, n.st, o, min, m.collected);
      var (s, c) := GatherMinimum(app, m.st, o, min, m.collected);
      var t := GatherMinimum(app, n.st, o, min, m.collected).0;
      OptionalsAlike(app, s, t, o, p.name, c, m.rest);
      var u, v := Optionals(app, s, o, p.name, c, m.rest), Optionals(app, t, o, p.name, c, m.rest);
      if u.Progress? { FinishAlike(app, u.st, v.st, o, u.collected, u.rest); }
    }
  }

  lemma {:induction false} AllMissingAlike(app: App, a: State, b: State)
    requires Fits(app, a) && Alike(a, b)
    ensures Alike(AllMissing(app, a), AllMissing(app, b))
    decreases |a.args|
  {
    if a.args != [] { AllMissingAlike(app, Take(app, a, Missing(NoKind)), Take(app, b, Missing(NoKind))); }
  }

  lemma ParsePositionalAlike(app: App, a: State, b: State)
    requires Fits(app, a) && a.args != [] && Alike(a, b)
    ensures SameOutcome(ParsePositional(app, a), ParsePositional(app, b))
  {
    hide FindNeeding, FindWanting, RemainingRequired, AllMissing;
    assert ChoosePositional(app, a) == ChoosePositional(app, b);
    AllMissingAlike(app, Take(app, a, Missing(NoKind)), Take(app, b, Missing(NoKind)));
  }

  lemma ParseArgAlike(app: App, a: State, b: State)
    requires app.Valid() && Fits(app, a) && a.args != [] && OptionKind(Recognize(app, Last(a.args))) && Alike(a, b)
    ensures SameOutcome(ParseArg(app, a), ParseArg(app, b))
  {
    hide Recognize, SplitToken, TakeValues;
    var p := SplitToken(app, Last(a.args));
    var o := app.find(Recognize(app, Last(a.args)), p.name);
    if o >= 0 { TakeValuesAlike(app, Take(app, a, Named(o)), Take(app, b, Named(o)), o, p); }
  }

  lemma ParseSingleAlike(app: App, a: State, b: State)
    requires app.Valid() && Fits(app, a) && a.args != [] && Alike(a, b)
    ensures SameOutcome(ParseSingle(app, a), ParseSingle(app, b))
  {
    hide IsLong, IsShort, IsWindows, ParseArg, ParsePositional;
    var kind := if a.positionalOnly then NoKind else Recognize(app, Last(a.args));
    if kind == NoKind { ParsePositionalAlike(app, a, b); }
    else if kind != PositionalMark { ParseArgAlike(app, a, b); }
  }

  lemma {:induction false} ParseAllAlike(app: App, a: State, b: State)
    requires app.Valid() && Fits(app, a) && Alike(a, b)
    ensures SameOutcome(ParseAll(app, a), ParseAll(app, b))
    decreases Size(a.args)
  {
    hide ParseSingle;
    if a.args != [] {
      ParseSingleAlike(app, a, b);
      if ParseSingle(app, a).Parsed? { ParseAllAlike(app, ParseSingle(app, a).st, ParseSingle(app, b).st); }
    }
  }

  // ---------------------------------------------------------------------
  // Clusters
  // ---------------------------------------------------------------------

  function Short1(c: char): string { ['-', c] }

  /** Character c names a flag: an option that takes no values at all. */
  predicate IsFlag(app: App, c: char)
    requires app.Valid()
  {
    && Recognize(app, Short1(c)) == Short
    && var o := app.find(Short, [c]);
       o >= 0 && MaxItems(app.options[o]) == 0 && MinItems(app.options[o]) == 0 && !app.options[o].allowExtra
  }

  /** The flags of a cluster as tokens of their own; the last one is read first. */
  function Apart(cluster: string): seq<string> {
    if cluster == "" then [] else Apart(cluster[1..]) + [Short1(cluster[0])]
  }

  lemma ClusterIsShort(app: App, cluster: string)
    requires cluster != "" && Recognize(app, Short1(cluster[0])) == Short
    ensures Recognize(app, ['-'] + cluster) == Short
    ensures SplitToken(app, ['-'] + cluster) == Parts([cluster[0]], "", cluster[1..])
  {
    var t := ['-'] + cluster;
    assert t[1] == cluster[0] && t[1..2] == [cluster[0]] && t[2..] == cluster[1..];
  }

  /** One flag of a cluster: its value is given, and the rest of the cluster is the next token. */
  lemma FlagStep(app: App, st: State, x: seq<string>, cluster: string)
    requires app.Valid() && Fits(app, st) && !st.positionalOnly && cluster != "" && IsFlag(app, cluster[0])
    requires st.args == x + [['-'] + cluster]
    ensures var o := app.find(Short, [cluster[0]]); var text := app.flagValue(o, [cluster[0]], "");
      if text.None? then ParseSingle(app, st).Thrown?
      else ParseSingle(app, st).Parsed? && Alike(ParseSingle(app, st).st, State(
        if |cluster| == 1 then x else x + [['-'] + cluster[1..]],
        AddResults(st.results, o, app.pieces(o, text.value)), st.missing, false, []))
  {
    hide Recognize, SplitToken, MaxItems, MinItems, AddResults;
    ClusterIsShort(app, cluster);
    assert Last(st.args) == ['-'] + cluster && Front(st.args) == x;
  }

  /** For every command line: a cluster of flags gives the same results, the same missing tokens and the same
      refusals as the flags written apart. */
  lemma {:induction false} ClusterMeansFlagsApart(app: App, a: State, b: State, x: seq<string>, cluster: string)
    requires app.Valid() && Fits(app, a) && !a.positionalOnly && cluster != ""
    requires forall c :: c in cluster ==> IsFlag(app, c)
    requires a.args == x + [['-'] + cluster] && b.args == x + Apart(cluster) && Alike(a.(args := b.args), b)
    ensures SameOutcome(ParseAll(app, a), ParseAll(app, b))
    decreases |cluster|
  {
    hide IsFlag, ParseSingle, Recognize;
    var rest := cluster[1..];
    var y := x + Apart(rest);
    assert Short1(cluster[0]) == ['-'] + [cluster[0]];
    assert b.args == y + [Short1(cluster[0])];
    FlagStep(app, a, x, cluster);
    FlagStep(app, b, y, [cluster[0]]);
    if ParseSingle(app, a).Parsed? {
      var p, q := ParseSingle(app, a).st, ParseSingle(app, b).st;
      if rest == "" {
        assert y == x;
        ParseAllAlike(app, p, q);
      } else {
        ClusterMeansFlagsApart(app, p, q, x, rest);
      }
    }
  }
}
