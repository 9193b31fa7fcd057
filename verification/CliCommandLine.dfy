/** The command-line loop of CLI11.hpp as it runs: the vector of tokens, the results and the missing list are
    changed in place. Each method is tied to the function of CliArguments that says what it does. */
module CliCommandLine {
  import opened CliArguments

  class CommandLine {
    const app: App
    var args: seq<string>
    var results: seq<seq<string>>
    var missing: seq<(Kind, string)>
    var positionalOnly: bool
    ghost var log: seq<Entry>

    ghost function Now(): State
      reads this
    {
      State(args, results, missing, positionalOnly, log)
    }

    ghost predicate Ready()
      reads this
    {
      app.Valid() && Fits(app, Now())
    }

    constructor (app: App, tokens: seq<string>)
      requires app.Valid()
      ensures this.app == app && Ready() && Now() == Start(app, tokens)
    {
      this.app := app;
      args, missing, positionalOnly, log := tokens, [], false, [];
      results := seq(|app.options|, _ => []);
    }

    /** `add_result`; the number of results added. */
    method AddResult(o: nat, text: string) returns (count: nat)
      requires Ready() && o < |app.options|
      modifies this`results
      ensures results == AddResults(old(results), o, app.pieces(o, text)) && count == |app.pieces(o, text)|
    {
      results := results[o := results[o] + app.pieces(o, text)];
      count := |app.pieces(o, text)|;
    }

    /** The options are searched in order; the number of options when none will do. */
    method FindPositional(t: string, requiredOnly: bool) returns (i: nat)
      requires Ready()
      ensures i == if requiredOnly then FindNeeding(app, results, t, 0) else FindWanting(app, results, t, 0)
    {
      i := 0;
      while i < |app.options|
        invariant i <= |app.options|
        invariant requiredOnly ==> FindNeeding(app, results, t, 0) == FindNeeding(app, results, t, i)
        invariant !requiredOnly ==> FindWanting(app, results, t, 0) == FindWanting(app, results, t, i)
      {
        var o := app.options[i];
        if o.positional && (if requiredOnly then o.required && |results[i]| < ItemsMin(o) else |results[i]| < ItemsMin(o) || o.allowExtra) {
          if !(app.validatePositionals && !app.accepts(i, t)) { return; }
        }
        i := i + 1;
      }
    }

    method CountRemainingRequired() returns (n: nat)
      requires Ready()
      ensures n == RemainingRequired(app, results, 0)
    {
      n := 0;
      var i := 0;
      while i < |app.options|
        invariant i <= |app.options|
        invariant n + RemainingRequired(app, results, i) == RemainingRequired(app, results, 0)
      {
        var o := app.options[i];
        if o.positional && o.required {
          if ItemsMin(o) > 0 && |results[i]| < ItemsMin(o) { n := n + (ItemsMin(o) - |results[i]|); }
        }
        i := i + 1;
      }
    }

    /** The next token becomes a value of option o. */
    method TakeValue(o: nat) returns (count: nat)
      requires Ready() && o < |app.options| && args != []
      modifies this
      ensures Ready() && Now() == Take(app, old(Now()), ValueOf(o)) && count == |app.pieces(o, Last(old(args)))|
    {
      hide MinItems, MaxItems;
      var current := args[|args| - 1];
      args := args[..|args| - 1];
      log := log + [Popped(current, ValueOf(o))];
      count := AddResult(o, current);
    }

    method CollectMinimum(o: nat, min: int, start: int) returns (collected: int)
      requires Ready() && o < |app.options|
      modifies this
      ensures Ready() && (Now(), collected) == GatherMinimum(app, old(Now()), o, min, start)
    {
      hide Take;
      collected := start;
      while min > collected && args != []
        invariant Ready()
        invariant GatherMinimum(app, Now(), o, min, collected) == GatherMinimum(app, old(Now()), o, min, start)
        decreases |args|
      {
        var count := TakeValue(o);
        collected := collected + count;
      }
    }

    method CollectOptional(o: nat, max: int, extra: bool, start: int, reserve: nat) returns (collected: int)
      requires Ready() && o < |app.options|
      modifies this
      ensures Ready() && (Now(), collected) == GatherOptional(app, old(Now()), o, max, extra, start, reserve)
    {
      hide Take, Recognize;
      collected := start;
      while (collected < max || extra) && args != [] && Recognize(app, args[|args| - 1]) == NoKind
        invariant Ready()
        invariant GatherOptional(app, Now(), o, max, extra, collected, reserve) == GatherOptional(app, old(Now()), o, max, extra, start, reserve)
        decreases |args|
      {
        if reserve >= |args| { break; }
        if app.validateOptional && !app.accepts(o, args[|args| - 1]) { break; }
        var count := TakeValue(o);
        collected := collected + count;
      }
    }

    /** The flag's value, or the value attached to the name. */
    method TakeAttached(o: nat, p: Parts) returns (ok: bool, collected: int, rest: string)
      requires Ready() && o < |app.options|
      modifies this
      ensures var b := Begin(app, old(Now()), o, p);
        ok == b.Progress? && (ok ==> Ready() && Now() == b.st && collected == b.collected && rest == b.rest)
    {
      ok, collected, rest := true, 0, p.rest;
      if MaxItems(app.options[o]) == 0 {
        var flag := app.flagValue(o, p.name, p.value);
        if flag.None? { return false, 0, ""; }
        var _ := AddResult(o, flag.value);
        log := log + [Given(o, flag.value)];
      } else if p.value != "" {
        collected := AddResult(o, p.value);
        log := log + [Given(o, p.value)];
      } else if rest != "" {
        collected := AddResult(o, rest);
        log := log + [Given(o, rest)];
        rest := "";
      }
    }

    method DropEndMark()
      requires Ready()
      modifies this
      ensures Ready() && Now() == EatMark(app, old(Now()))
    {
      hide IsLong, IsShort, IsWindows;
      if args != [] && Recognize(app, args[|args| - 1]) == PositionalMark {
        log := log + [Popped(args[|args| - 1], EndMark)];
        args := args[..|args| - 1];
      }
    }

    method TakeOptionals(o: nat, name: string, start: int, rest: string) returns (ok: bool, collected: int)
      requires Ready() && o < |app.options|
      modifies this
      ensures var b := Optionals(app, old(Now()), o, name, start, rest);
        ok == b.Progress? && (ok ==> Ready() && Now() == b.st && collected == b.collected)
    {
      hide MinItems, MaxItems, EatMark, GatherOptional, RemainingRequired;
      ok, collected := true, start;
      var opt := app.options[o];
      if MaxItems(opt) > collected || opt.allowExtra {
        var reserve := CountRemainingRequired();
        collected := CollectOptional(o, MaxItems(opt), opt.allowExtra, collected, reserve);
        DropEndMark();
        if MinItems(opt) == 0 && MaxItems(opt) > 0 && collected == 0 {
          var flag := app.flagValue(o, name, "");
          if flag.None? { return false, 0; }
          var _ := AddResult(o, flag.value);
          log := log + [Given(o, flag.value)];
        }
      }
    }

    method FinishOption(o: nat, collected: int, rest: string) returns (ok: bool)
      requires Ready() && o < |app.options|
      modifies this
      ensures var r := Finish(app, old(Now()), o, collected, rest);
        ok == r.Parsed? && (ok ==> Ready() && Now() == r.st)
    {
      hide MinItems, MaxItems;
      ok := true;
      var opt := app.options[o];
      if Partial(opt, collected) {
        if opt.typeMax == opt.typeMin { return false; }
        var _ := AddResult(o, "");
        log := log + [Given(o, "")];
      }
      if rest != "" {
        args := args + [['-'] + rest];
        log := log + [PushedBack(['-'] + rest)];
      }
    }

    method ServeOption(o: nat, p: Parts) returns (ok: bool)
      requires Ready() && o < |app.options|
      modifies this
      ensures var r := TakeValues(app, old(Now()), o, p);
        ok == r.Parsed? && (ok ==> Ready() && Now() == r.st)
    {
      hide MinItems, MaxItems, Begin, GatherMinimum, Optionals, Finish;
      var min := MinItems(app.options[o]);
      var collected, rest;
      ok, collected, rest := TakeAttached(o, p);
      if !ok { return; }
      collected := CollectMinimum(o, min, collected);
      if min > collected { return false; }
      ok, collected := TakeOptionals(o, p.name, collected, rest);
      if !ok { return; }
      ok := FinishOption(o, collected, rest);
    }

    method ParseArgument() returns (ok: bool)
      requires Ready() && args != [] && OptionKind(Recognize(app, Last(args)))
      modifies this
      ensures var r := ParseArg(app, old(Now()));
        ok == r.Parsed? && (ok ==> Ready() && Now() == r.st)
    {
      hide Recognize, SplitToken, TakeValues;
      var current := args[|args| - 1];
      var kind := Recognize(app, current);
      var p := SplitToken(app, current);
      var o := app.find(kind, p.name);
      args := args[..|args| - 1];
      if o < 0 {
        missing := missing + [(kind, current)];
        log := log + [Popped(current, Missing(kind))];
        return true;
      }
      log := log + [Popped(current, Named(o))];
      ok := ServeOption(o, p);
    }

    method MoveAllToMissing()
      requires Ready()
      modifies this
      ensures Ready() && Now() == AllMissing(app, old(Now()))
    {
      while args != []
        invariant Ready()
        invariant AllMissing(app, Now()) == AllMissing(app, old(Now()))
        decreases |args|
      {
        missing := missing + [(NoKind, args[|args| - 1])];
        log := log + [Popped(args[|args| - 1], Missing(NoKind))];
        args := args[..|args| - 1];
      }
    }

    /** After a positional the caller, `_parse_single`, reads no more options when positionals come at the end;
        here that is part of taking the positional. */
    method ParsePositionalArgument() returns (ok: bool)
      requires Ready() && args != []
      modifies this
      ensures var r := ParsePositional(app, old(Now()));
        ok == r.Parsed? && (ok ==> Ready() && Now() == r.st)
    {
      hide FindNeeding, FindWanting, RemainingRequired, AllMissing;
      var positional := args[|args| - 1];
      var o := |app.options|;
      if app.positionalsAtEnd {
        var required := CountRemainingRequired();
        if |args| <= required { o := FindPositional(positional, true); }
      }
      if o == |app.options| { o := FindPositional(positional, false); }
      if o < |app.options| {
        var _ := AddResult(o, positional);
        log := log + [Popped(positional, PositionalOf(o))];
        args := args[..|args| - 1];
        if app.positionalsAtEnd { positionalOnly := true; }
        return true;
      }
      if app.positionalsAtEnd { return false; }
      missing := missing + [(NoKind, positional)];
      log := log + [Popped(positional, Missing(NoKind))];
      args := args[..|args| - 1];
      if app.prefixCommand { MoveAllToMissing(); }
      ok := true;
    }

    method ParseOne() returns (ok: bool)
      requires Ready() && args != []
      modifies this
      ensures var r := ParseSingle(app, old(Now()));
        ok == r.Parsed? && (ok ==> Ready() && Now() == r.st)
    {
      hide IsLong, IsShort, IsWindows, ParseArg, ParsePositional;
      var kind := if positionalOnly then NoKind else Recognize(app, args[|args| - 1]);
      match kind
      case PositionalMark =>
        log := log + [Popped(args[|args| - 1], Mark)];
        args := args[..|args| - 1];
        positionalOnly := true;
        missing := missing + [(PositionalMark, "--")];
        ok := true;
      case NoKind => ok := ParsePositionalArgument();
      case _ => ok := ParseArgument();
    }

    /** The loop of `_parse` ends although a step may put a token back: each leaves fewer characters and tokens. */
    method Parse() returns (ok: bool)
      requires Ready()
      modifies this
      ensures var r := ParseAll(app, old(Now()));
        ok == r.Parsed? && (ok ==> Ready() && Now() == r.st)
    {
      hide ParseSingle;
      while args != []
        invariant Ready()
        invariant ParseAll(app, Now()) == ParseAll(app, old(Now()))
        decreases Size(args)
      {
        ok := ParseOne();
        if !ok { return; }
      }
      ok := true;
    }
  }
}
