/** Every token the command-line loop of CLI11.hpp reads is accounted for: undoing the log gives the tokens
    back, every entry has its reason, and the results are those of the log, in order. */
module CliAccounts {
  import opened CliArguments

  lemma FrontOfAppended<T>(s: seq<T>, x: T)
    ensures s + [x] != [] && Front(s + [x]) == s && Last(s + [x]) == x
  {
  }

  lemma FrontThenLast<T>(s: seq<T>)
    requires s != []
    ensures Front(s) + [Last(s)] == s
  {
  }

  // ---------------------------------------------------------------------
  // The three steps
  // ---------------------------------------------------------------------

  /** What one step does to everything the log explains. */
  lemma Appended(app: App, n: int, log: seq<Entry>, e: Entry)
    requires FairLog(app, n, log) && Fair(app, n, log, e)
    ensures FairLog(app, n, log + [e])
  {
    hide Fair;
    FrontOfAppended(log, e);
  }

  lemma ResultsAppended(app: App, results: seq<seq<string>>, log: seq<Entry>, e: Entry, after: seq<seq<string>>)
    requires ResultsExplained(app, results, log)
    requires match e
      case Popped(t, ValueOf(o)) => after == AddResults(results, o, app.pieces(o, t))
      case Popped(t, PositionalOf(o)) => after == AddResults(results, o, app.pieces(o, t))
      case Given(o, text) => after == AddResults(results, o, app.pieces(o, text))
      case _ => after == results
    ensures ResultsExplained(app, after, log + [e])
  {
    FrontOfAppended(log, e);
  }

  lemma MissingAppended(log: seq<Entry>, t: string, role: Role)
    ensures MissingOf(log + [Popped(t, role)]) == MissingOf(log) +
      if role.Missing? then [(role.kind, t)] else if role.Mark? then [(PositionalMark, t)] else []
  {
    FrontOfAppended(log, Popped(t, role));
  }

  lemma TakeExplained(app: App, tokens: seq<string>, st: State, role: Role)
    requires Explained(app, tokens, st) && Fits(app, st) && st.args != [] && FairRole(app, |tokens|, st.log, Last(st.args), role)
    ensures Explained(app, tokens, Take(app, st, role))
  {
    hide FairRole, ResultsExplained, FairLog, AddResults;
    var e := Popped(Last(st.args), role);
    Appended(app, |tokens|, st.log, e);
    FrontOfAppended(st.log, e);
    FrontThenLast(st.args);
    MissingAppended(st.log, Last(st.args), role);
    ResultsAppended(app, st.results, st.log, e, Take(app, st, role).results);
  }

  lemma GiveExplained(app: App, tokens: seq<string>, st: State, o: nat, text: string)
    requires Explained(app, tokens, st) && Fits(app, st) && Fair(app, |tokens|, st.log, Given(o, text))
    ensures Explained(app, tokens, Give(app, st, o, text))
  {
    hide Fair, ResultsExplained;
    var e := Given(o, text);
    Appended(app, |tokens|, st.log, e);
    FrontOfAppended(st.log, e);
    ResultsAppended(app, st.results, st.log, e, Give(app, st, o, text).results);
  }

  lemma PushBackExplained(app: App, tokens: seq<string>, st: State, token: string)
    requires Explained(app, tokens, st) && Fits(app, st) && Fair(app, |tokens|, st.log, PushedBack(token))
    ensures Explained(app, tokens, PushBack(app, st, token))
  {
    hide Fair, ResultsExplained;
    var e := PushedBack(token);
    Appended(app, |tokens|, st.log, e);
    FrontOfAppended(st.log, e);
    FrontOfAppended(st.args, token);
    ResultsAppended(app, st.results, st.log, e, st.results);
  }

  // ---------------------------------------------------------------------
  // Serving an option
  // ---------------------------------------------------------------------

  /** Option o is being served under this token, and is this far. */
  ghost predicate Serves(app: App, tokens: seq<string>, st: State, s: Serving) {
    Explained(app, tokens, st) && Fits(app, st) && s.Serving? && Served(app, st.log) == s
  }

  /** The log knows how many tokens are left. */
  lemma {:induction false} LeftIs(log: seq<Entry>, args: seq<string>, tokens: seq<string>)
    requires Rewind(log, args) == Some(tokens)
    ensures |args| == Left(|tokens|, log)
    decreases |log|
  {
    if log != [] {
      match Last(log)
      case Popped(t, _) => LeftIs(Front(log), args + [t], tokens);
      case PushedBack(_) => LeftIs(Front(log), Front(args), tokens);
      case Given(_, _) => LeftIs(Front(log), args, tokens);
    }
  }

  /** In a log that can be undone, the token read after one that was put back is that token. */
  lemma PutBackIsNext(log: seq<Entry>, t: string, u: string, role: Role, args: seq<string>)
    requires Rewind(log + [PushedBack(t), Popped(u, role)], args).Some?
    ensures u == t
  {
    assert log + [PushedBack(t), Popped(u, role)] == log + [PushedBack(t)] + [Popped(u, role)];
    FrontOfAppended(log + [PushedBack(t)], Popped(u, role));
    FrontOfAppended(log, PushedBack(t));
    FrontOfAppended(args, u);
  }

  /** A flag's cluster is not done before its rest has gone back as a token. */
  lemma RestIsNotDropped(app: App, n: int, log: seq<Entry>, token: string, o: nat, text: string, e: Entry)
    requires OptionKind(Recognize(app, token)) && o < |app.options| && OwedRest(app, token, o) != ""
    requires FairLog(app, n, log + [Popped(token, Named(o)), Given(o, text), e])
    ensures e == PushedBack(['-'] + OwedRest(app, token, o)) || e.Given? || (e.Popped? && (e.role.ValueOf? || e.role.EndMark?))
    ensures !Finished(app, Served(app, log + [Popped(token, Named(o)), Given(o, text)]))
  {
    hide Recognize, SplitToken, MaxItems, MinItems, FairText, FairValue;
    var l1, l2 := log + [Popped(token, Named(o))], log + [Popped(token, Named(o)), Given(o, text)];
    assert l2 == l1 + [Given(o, text)] && log + [Popped(token, Named(o)), Given(o, text), e] == l2 + [e];
    FrontOfAppended(l2, e);
    FrontOfAppended(l1, Given(o, text));
    FrontOfAppended(log, Popped(token, Named(o)));
  }

  lemma ResultsAre(app: App, tokens: seq<string>, st: State)
    requires Explained(app, tokens, st)
    ensures st.results == AllResults(app, st.log) && |st.args| == Left(|tokens|, st.log)
  {
    hide FairLog, Rewind, MissingOf, OnlyPositionals;
    LeftIs(st.log, st.args, tokens);
  }

  lemma TakeValue(app: App, tokens: seq<string>, st: State, s: Serving)
    requires Serves(app, tokens, st, s) && st.args != [] && s.stage == Collecting
    requires var opt := app.options[s.opt];
      || s.collected < MinItems(opt)
      || (MayCollect(app, st.args, s.opt, RemainingRequired(app, st.results, 0)) && (s.collected < MaxItems(opt) || opt.allowExtra))
    ensures Serves(app, tokens, Take(app, st, ValueOf(s.opt)), Collect(app, s, Last(st.args)))
  {
    hide Explained, Recognize, MinItems, MaxItems;
    ResultsAre(app, tokens, st);
    assert FairValue(app, |tokens|, st.log, s, Last(st.args));
    TakeExplained(app, tokens, st, ValueOf(s.opt));
    FrontOfAppended(st.log, Popped(Last(st.args), ValueOf(s.opt)));
  }

  lemma GiveServes(app: App, tokens: seq<string>, st: State, s: Serving, text: string)
    requires Serves(app, tokens, st, s) && FairText(app, s, text)
    ensures Serves(app, tokens, Give(app, st, s.opt, text), Furnish(app, s, text))
  {
    hide Explained, FairText, Recognize, Furnish;
    GiveExplained(app, tokens, st, s.opt, text);
    FrontOfAppended(st.log, Given(s.opt, text));
  }

  lemma {:induction false} GatherMinimumServes(app: App, tokens: seq<string>, st: State, s: Serving)
    requires Serves(app, tokens, st, s) && s.stage == Collecting && s.base == s.collected >= 0
    ensures var r := GatherMinimum(app, st, s.opt, MinItems(app.options[s.opt]), s.collected);
      r.1 >= 0 && Serves(app, tokens, r.0, s.(base := r.1, collected := r.1))
    decreases |st.args|
  {
    hide Explained, Recognize, Take, MinItems, MaxItems, Served;
    if MinItems(app.options[s.opt]) > s.collected && st.args != [] {
      TakeValue(app, tokens, st, s);
      GatherMinimumServes(app, tokens, Take(app, st, ValueOf(s.opt)), Collect(app, s, Last(st.args)));
    }
  }

  /** More results never make the required positionals need more. */
  lemma {:induction false} RemainingShrinks(app: App, results: seq<seq<string>>, o: nat, texts: seq<string>, i: nat)
    requires |results| == |app.options| && i <= |app.options|
    ensures RemainingRequired(app, AddResults(results, o, texts), i) <= RemainingRequired(app, results, i)
    decreases |app.options| - i
  {
    hide ItemsMin;
    if i < |app.options| { RemainingShrinks(app, results, o, texts, i + 1); }
  }

  lemma {:induction false} GatherOptionalServes(app: App, tokens: seq<string>, st: State, s: Serving, reserve: nat)
    requires Serves(app, tokens, st, s) && s.stage == Collecting && s.collected >= MinItems(app.options[s.opt])
    requires RemainingRequired(app, st.results, 0) <= reserve
    ensures var opt := app.options[s.opt];
      var r := GatherOptional(app, st, s.opt, MaxItems(opt), opt.allowExtra, s.collected, reserve);
      r.1 >= s.collected && Serves(app, tokens, r.0, s.(collected := r.1))
    decreases |st.args|
  {
    hide Explained, Recognize, Take, MinItems, MaxItems, Served, RemainingRequired;
    var opt := app.options[s.opt];
    if (s.collected < MaxItems(opt) || opt.allowExtra) && MayCollect(app, st.args, s.opt, reserve) {
      TakeValue(app, tokens, st, s);
      ReserveKept(app, st, s.opt, reserve);
      GatherOptionalServes(app, tokens, Take(app, st, ValueOf(s.opt)), Collect(app, s, Last(st.args)), reserve);
    }
  }

  lemma ReserveKept(app: App, st: State, o: nat, reserve: nat)
    requires Fits(app, st) && st.args != [] && RemainingRequired(app, st.results, 0) <= reserve
    ensures RemainingRequired(app, Take(app, st, ValueOf(o)).results, 0) <= reserve
  {
    hide RemainingRequired, AddResults;
    RemainingShrinks(app, st.results, o, app.pieces(o, Last(st.args)), 0);
  }

  /** What has just been named. */
  function Fresh(app: App, token: string, o: nat): Serving
    requires OptionKind(Recognize(app, token)) && o < |app.options|
  {
    Serving(token, o, if AttachedText(app, token, o).Some? then Attaching else Collecting, 0, 0)
  }

  lemma BeginServes(app: App, tokens: seq<string>, st: State, token: string, o: nat)
    requires OptionKind(Recognize(app, token)) && o < |app.options| && Serves(app, tokens, st, Fresh(app, token, o))
    requires Begin(app, st, o, SplitToken(app, token)).Progress?
    ensures var b := Begin(app, st, o, SplitToken(app, token));
      b.collected >= 0 && Serves(app, tokens, b.st, Serving(token, o, Collecting, b.collected, b.collected))
      && b.rest == OwedRest(app, token, o)
  {
    hide Explained, Recognize, SplitToken, MaxItems, MinItems, Give, Served;
    var text := AttachedText(app, token, o);
    if text.Some? { GiveServes(app, tokens, st, Fresh(app, token, o), text.value); }
  }

  lemma EatMarkServes(app: App, tokens: seq<string>, st: State, s: Serving) returns (stage: Stage)
    requires Serves(app, tokens, st, s) && s.stage == Collecting && s.collected >= MinItems(app.options[s.opt])
    requires MaxItems(app.options[s.opt]) > s.base || app.options[s.opt].allowExtra
    ensures stage != Attaching && stage != Closed && Serves(app, tokens, EatMark(app, st), s.(stage := stage))
  {
    hide Explained, Fits, MinItems, MaxItems;
    stage := Collecting;
    if st.args != [] && Recognize(app, Last(st.args)) == PositionalMark {
      TakeExplained(app, tokens, st, EndMark);
      FrontOfAppended(st.log, Popped(Last(st.args), EndMark));
      stage := Ended;
    }
  }

  lemma OptionalsServe(app: App, tokens: seq<string>, st: State, s: Serving, rest: string) returns (stage: Stage)
    requires Serves(app, tokens, st, s) && s.stage == Collecting && s.base == s.collected >= MinItems(app.options[s.opt])
    requires Optionals(app, st, s.opt, SplitToken(app, s.token).name, s.collected, rest).Progress?
    ensures var q := Optionals(app, st, s.opt, SplitToken(app, s.token).name, s.collected, rest);
      && Serves(app, tokens, q.st, s.(stage := stage, collected := q.collected)) && q.collected >= s.collected
      && stage != Attaching && (stage == Closed <==> NeedsDefault(app.options[s.opt], q.collected))
  {
    hide Explained, Recognize, SplitToken, MaxItems, MinItems, EatMark, GatherOptional, RemainingRequired, Served, Give, Partial;
    var opt := app.options[s.opt];
    stage := Collecting;
    if MaxItems(opt) > s.collected || opt.allowExtra {
      var reserve := RemainingRequired(app, st.results, 0);
      var (s1, c1) := GatherOptional(app, st, s.opt, MaxItems(opt), opt.allowExtra, s.collected, reserve);
      GatherOptionalServes(app, tokens, st, s, reserve);
      stage := EatMarkServes(app, tokens, s1, s.(collected := c1));
      if NeedsDefault(opt, c1) {
        NoFiller(opt, c1);
        GiveServes(app, tokens, EatMark(app, s1), s.(stage := stage, collected := c1),
          app.flagValue(s.opt, SplitToken(app, s.token).name, "").value);
        stage := Closed;
      }
    } else {
      MinimumIsNatural(opt);
    }
  }

  lemma NoFiller(opt: Opt, collected: int)
    requires NeedsDefault(opt, collected)
    ensures !NeedsFiller(opt, collected)
  {
  }

  lemma MinimumIsNatural(opt: Opt)
    ensures MinItems(opt) >= 0
  {
  }

  lemma FinishServes(app: App, tokens: seq<string>, st: State, s: Serving)
    requires Serves(app, tokens, st, s) && s.stage != Attaching && s.collected >= MinItems(app.options[s.opt])
    requires s.stage == Closed <==> NeedsDefault(app.options[s.opt], s.collected)
    requires app.options[s.opt].typeMin <= app.options[s.opt].typeMax
    requires Finish(app, st, s.opt, s.collected, OwedRest(app, s.token, s.opt)).Parsed?
    ensures var u := Finish(app, st, s.opt, s.collected, OwedRest(app, s.token, s.opt)).st;
      Explained(app, tokens, u) && Finished(app, Served(app, u.log))
  {
    hide Explained, Recognize, SplitToken, MaxItems, MinItems, Give, PushBack, Partial, OwedRest, Served;
    var opt := app.options[s.opt];
    var v, now := st, s;
    if Partial(opt, s.collected) {
      DefaultNoFiller(opt, s.collected);
      GiveServes(app, tokens, st, s, "");
      v, now := Give(app, st, s.opt, ""), s.(stage := Closed);
    }
    var rest := OwedRest(app, s.token, s.opt);
    if rest != "" {
      PushBackExplained(app, tokens, v, ['-'] + rest);
      PushBackEnds(app, v, ['-'] + rest);
    }
  }

  lemma DefaultNoFiller(opt: Opt, collected: int)
    requires opt.typeMin <= opt.typeMax && Partial(opt, collected)
    ensures !NeedsDefault(opt, collected)
  {
  }

  lemma PushBackEnds(app: App, st: State, token: string)
    requires Fits(app, st)
    ensures Served(app, PushBack(app, st, token).log).Nobody?
  {
    FrontOfAppended(st.log, PushedBack(token));
  }

  lemma TakeValuesExplained(app: App, tokens: seq<string>, st: State, token: string, o: nat)
    requires OptionKind(Recognize(app, token)) && o < |app.options| && Serves(app, tokens, st, Fresh(app, token, o))
    requires app.options[o].typeMin <= app.options[o].typeMax && TakeValues(app, st, o, SplitToken(app, token)).Parsed?
    ensures var u := TakeValues(app, st, o, SplitToken(app, token)).st;
      Explained(app, tokens, u) && Finished(app, Served(app, u.log))
  {
    hide Explained, Recognize, SplitToken, MaxItems, MinItems, Begin, Optionals, Finish, Finished, GatherMinimum, Served, OwedRest;
    var p := SplitToken(app, token);
    var b := Begin(app, st, o, p);
    BeginServes(app, tokens, st, token, o);
    var (v, c) := GatherMinimum(app, b.st, o, MinItems(app.options[o]), b.collected);
    GatherMinimumServes(app, tokens, b.st, Serving(token, o, Collecting, b.collected, b.collected));
    var stage := OptionalsServe(app, tokens, v, Serving(token, o, Collecting, c, c), b.rest);
    var q := Optionals(app, v, o, p.name, c, b.rest);
    FinishServes(app, tokens, q.st, Serving(token, o, stage, c, q.collected));
  }

  lemma ParseArgExplained(app: App, tokens: seq<string>, st: State)
    requires app.Valid() && Fits(app, st) && st.args != [] && OptionKind(Recognize(app, Last(st.args)))
    requires Explained(app, tokens, st) && Finished(app, Served(app, st.log)) && !st.positionalOnly && ParseArg(app, st).Parsed?
    ensures var u := ParseArg(app, st).st; Explained(app, tokens, u) && Finished(app, Served(app, u.log))
  {
    hide Recognize, SplitToken, TakeValues, FairLog, ResultsExplained, Rewind, MissingOf, Finished, MaxItems;
    var t := Last(st.args);
    var kind := Recognize(app, t);
    var o := app.find(kind, SplitToken(app, t).name);
    if o < 0 {
      TakeExplained(app, tokens, st, Missing(kind));
      TakeEnds(app, st, Missing(kind));
    } else {
      FlagHasValue(app, st, t, o);
      TakeExplained(app, tokens, st, Named(o));
      FrontOfAppended(st.log, Popped(t, Named(o)));
      TakeValuesExplained(app, tokens, Take(app, st, Named(o)), t, o);
    }
  }

  lemma TakeEnds(app: App, st: State, role: Role)
    requires Fits(app, st) && st.args != [] && !role.Named? && !role.ValueOf? && !role.EndMark?
    ensures Finished(app, Served(app, Take(app, st, role).log))
  {
    FrontOfAppended(st.log, Popped(Last(st.args), role));
  }

  /** A flag that refuses its value ends the command line. */
  lemma FlagHasValue(app: App, st: State, t: string, o: nat)
    requires Fits(app, st) && st.args != [] && OptionKind(Recognize(app, t)) && o < |app.options|
    requires app.options[o].typeMin <= app.options[o].typeMax
    requires TakeValues(app, Take(app, st, Named(o)), o, SplitToken(app, t)).Parsed?
    ensures MaxItems(app.options[o]) == 0 ==> AttachedText(app, t, o).Some?
  {
    hide Recognize, SplitToken, MaxItems, MinItems, GatherMinimum, Optionals, Finish, Take;
  }

  // ---------------------------------------------------------------------
  // Positionals
  // ---------------------------------------------------------------------

  lemma {:induction false} AllMissingExplained(app: App, tokens: seq<string>, st: State)
    requires Explained(app, tokens, st) && Fits(app, st) && app.prefixCommand
    requires st.log != [] && Last(st.log).Popped? && Last(st.log).role == Missing(NoKind)
    ensures Explained(app, tokens, AllMissing(app, st)) && Finished(app, Served(app, AllMissing(app, st).log))
    decreases |st.args|
  {
    hide Explained, Recognize, Take;
    if st.args != [] {
      TakeExplained(app, tokens, st, Missing(NoKind));
      FrontOfAppended(st.log, Popped(Last(st.args), Missing(NoKind)));
      AllMissingExplained(app, tokens, Take(app, st, Missing(NoKind)));
    }
  }

  /** What the results say about a positional, the log says too. */
  lemma WantsByLog(app: App, tokens: seq<string>, st: State, t: string)
    requires Explained(app, tokens, st) && Fits(app, st)
    ensures forall i: nat :: i < |app.options| ==> Wants(app, |st.results[i]|, i, t) == Wants(app, |ResultsOf(app, st.log, i)|, i, t)
  {
    hide Wants, ResultsOf, FairLog, Rewind, MissingOf, OnlyPositionals;
  }

  lemma ParsePositionalExplained(app: App, tokens: seq<string>, st: State)
    requires Fits(app, st) && st.args != [] && Explained(app, tokens, st) && Finished(app, Served(app, st.log))
    requires Recognize(app, Last(st.args)) == NoKind || st.positionalOnly
    requires ParsePositional(app, st).Parsed?
    ensures var u := ParsePositional(app, st).st; Explained(app, tokens, u) && Finished(app, Served(app, u.log))
  {
    hide Recognize, FairLog, ResultsExplained, Rewind, MissingOf, Wants, ResultsOf, ChoosePositional, Take, Finished, Served;
    var o := ChoosePositional(app, st);
    var t := Last(st.args);
    WantsByLog(app, tokens, st, t);
    if o < |app.options| {
      TakeExplained(app, tokens, st, PositionalOf(o));
      TakeEnds(app, st, PositionalOf(o));
    } else {
      TakeExplained(app, tokens, st, Missing(NoKind));
      TakeEnds(app, st, Missing(NoKind));
      FrontOfAppended(st.log, Popped(t, Missing(NoKind)));
      if app.prefixCommand { AllMissingExplained(app, tokens, Take(app, st, Missing(NoKind))); }
    }
  }

  // ---------------------------------------------------------------------
  // The loop
  // ---------------------------------------------------------------------

  lemma ParseSingleExplained(app: App, tokens: seq<string>, st: State)
    requires app.Valid() && Fits(app, st) && st.args != [] && Explained(app, tokens, st) && Finished(app, Served(app, st.log))
    requires ParseSingle(app, st).Parsed?
    ensures var u := ParseSingle(app, st).st; Explained(app, tokens, u) && Finished(app, Served(app, u.log))
  {
    hide FairLog, ResultsExplained, Rewind, MissingOf, Take, ParseArg, ParsePositional, IsLong, IsShort, IsWindows, Finished, Served;
    var t := Last(st.args);
    var kind := if st.positionalOnly then NoKind else Recognize(app, t);
    if kind == PositionalMark {
      TakeExplained(app, tokens, st, Mark);
      TakeEnds(app, st, Mark);
    }
    else if kind == NoKind { ParsePositionalExplained(app, tokens, st); }
    else { ParseArgExplained(app, tokens, st); }
  }

  lemma StartExplained(app: App, tokens: seq<string>)
    ensures Explained(app, tokens, Start(app, tokens)) && Finished(app, Served(app, Start(app, tokens).log))
  {
  }

  lemma {:induction false} ParseAllExplained(app: App, tokens: seq<string>, st: State)
    requires app.Valid() && Fits(app, st) && Explained(app, tokens, st) && Finished(app, Served(app, st.log))
    requires ParseAll(app, st).Parsed?
    ensures var u := ParseAll(app, st).st; Explained(app, tokens, u) && Finished(app, Served(app, u.log))
    decreases Size(st.args)
  {
    hide Explained, ParseSingle, Finished, Served;
    if st.args != [] {
      ParseSingleExplained(app, tokens, st);
      ParseAllExplained(app, tokens, ParseSingle(app, st).st);
    }
  }

  /** A command line that is accepted is read to its end; undoing what was done with its tokens gives exactly
      them; each was an option's name, a value of the option named before it, a positional, a `--`, or missing, for
      the reason `FairRole` states; and every option got all that was due to it before anything else was read. */
  lemma EveryTokenAccounted(app: App, tokens: seq<string>)
    requires app.Valid() && ParseAll(app, Start(app, tokens)).Parsed?
    ensures var st := ParseAll(app, Start(app, tokens)).st;
      && st.args == [] && Rewind(st.log, []) == Some(tokens) && FairLog(app, |tokens|, st.log)
      && Finished(app, Served(app, st.log)) && st.missing == MissingOf(st.log)
      && forall o: nat :: o < |app.options| ==> st.results[o] == ResultsOf(app, st.log, o)
  {
    hide ParseAll, FairLog, Rewind, MissingOf, ResultsOf, Start, OnlyPositionals, Finished, Served;
    StartExplained(app, tokens);
    ParseAllExplained(app, tokens, Start(app, tokens));
  }
}
