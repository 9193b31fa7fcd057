/** The command-line loop of CLI11.hpp for an app without subcommands: `_recognize`, `_parse_single`,
    `_parse_arg` and `_parse_positional` on the vector of tokens, whose last one is the next. The functions
    of this module say what the loop does; a log in their state keeps what became of every token. */
module CliArguments {
  import opened Arithmetic

  datatype Kind = Long | Short | Windows | PositionalMark | NoKind

  datatype Option<T> = None | Some(value: T)

  /** What the loop asks of an option. */
  datatype Opt = Opt(positional: bool, required: bool, allowExtra: bool,
                     typeMin: nat, typeMax: nat, expectedMin: nat, expectedMax: nat)

  /** The app's options and settings. Names, validators, flag values and the splitting of one text into
      several results are whatever the program has set up. */
  datatype App = App(
    options: seq<Opt>,
    find: (Kind, string) -> int,                       // the option with this name, negative if there is none
    hasOption: string -> bool,
    accepts: (nat, string) -> bool,                    // the option's validators
    flagValue: (nat, string, string) -> Option<string>, // none when the flag refuses the value
    pieces: (nat, string) -> seq<string>,              // the results one text adds
    windowsStyle: bool, positionalsAtEnd: bool, validatePositionals: bool, validateOptional: bool, prefixCommand: bool)
  {
    ghost predicate Valid() {
      && (forall k: Kind, name: string :: find(k, name) < |options|)
      && (forall i :: 0 <= i < |options| ==> options[i].typeMin <= options[i].typeMax)
    }
  }

  const VECTOR_SIZE := 0x2000_0000
  const INT_MAX := 0x7fff_ffff

  function Product(a: nat, b: nat): nat { a * b }

  /** A product that does not fit counts as unlimited. */
  function Checked(a: nat, b: nat): nat {
    if Product(a, b) <= INT_MAX then Product(a, b) else VECTOR_SIZE
  }

  /** `get_items_expected_min`. */
  function ItemsMin(o: Opt): nat { Product(o.typeMin, o.expectedMin) }

  function MinItems(o: Opt): int { Smaller(o.typeMin, ItemsMin(o)) }

  /** Unlimited vectors without extra arguments take no more than one type. */
  function MaxItems(o: Opt): nat {
    var max := Checked(o.typeMax, o.expectedMax);
    if max >= VECTOR_SIZE / 16 && !o.allowExtra then Checked(o.typeMax, o.expectedMin) else max
  }

  // ---------------------------------------------------------------------
  // Recognising a token
  // ---------------------------------------------------------------------

  predicate ValidFirstChar(c: char) {
    c != '-' && c as int > 33
  }

  predicate IsLong(t: string) {
    |t| > 2 && t[0] == '-' && t[1] == '-' && ValidFirstChar(t[2])
  }

  predicate IsShort(t: string) {
    |t| > 1 && t[0] == '-' && ValidFirstChar(t[1])
  }

  predicate IsWindows(t: string) {
    |t| > 1 && t[0] == '/' && ValidFirstChar(t[1])
  }

  function Recognize(app: App, t: string): Kind {
    if t == "--" then PositionalMark
    else if IsLong(t) then Long
    else if IsShort(t) then
      if '0' <= t[1] <= '9' && !app.hasOption(['-', t[1]]) then NoKind else Short
    else if app.windowsStyle && IsWindows(t) then Windows
    else NoKind
  }

  predicate OptionKind(k: Kind) { k == Long || k == Short || k == Windows }

  function IndexOf(t: string, c: char): (r: nat)
    ensures r <= |t| && (r < |t| ==> t[r] == c) && forall i :: 0 <= i < r ==> t[i] != c
  {
    if t == [] || t[0] == c then 0 else 1 + IndexOf(t[1..], c)
  }

  /** The option's name, a value after `=` or `:`, and the rest of a cluster of short options. */
  datatype Parts = Parts(name: string, value: string, rest: string)

  function SplitToken(app: App, t: string): (p: Parts)
    requires OptionKind(Recognize(app, t))
    ensures p.rest != "" ==> Recognize(app, t) == Short && p.value == "" && p.rest == t[2..]
  {
    var kind := Recognize(app, t);
    if kind == Short then Parts(t[1..2], "", t[2..])
    else
      var start := if kind == Long then 2 else 1;
      var loc := IndexOf(t, if kind == Long then '=' else ':');
      if loc < |t| then Parts(t[start..loc], t[loc + 1..], "") else Parts(t[start..], "", "")
  }

  // ---------------------------------------------------------------------
  // The state, and what the log says about it
  // ---------------------------------------------------------------------

  datatype Role = Named(opt: nat) | ValueOf(opt: nat) | PositionalOf(opt: nat) | Missing(kind: Kind) | Mark | EndMark

  /** A token taken off, a token put back, and a text given to an option that is no token of its own. */
  datatype Entry = Popped(token: string, role: Role) | PushedBack(token: string) | Given(opt: nat, text: string)

  datatype State = State(args: seq<string>, results: seq<seq<string>>, missing: seq<(Kind, string)>,
                         positionalOnly: bool, log: seq<Entry>)

  datatype Outcome = Parsed(st: State) | Thrown

  predicate Fits(app: App, st: State) {
    |st.results| == |app.options|
  }

  function Start(app: App, tokens: seq<string>): (st: State)
    ensures Fits(app, st)
  {
    State(tokens, seq(|app.options|, _ => []), [], false, [])
  }

  function Front<T>(s: seq<T>): seq<T>
    requires s != []
  {
    s[..|s| - 1]
  }

  function Last<T>(s: seq<T>): T
    requires s != []
  {
    s[|s| - 1]
  }

  /** Undoes the log, last entry first: a token that was taken comes back, and one that was put back must be the next
      one, and goes. */
  function Rewind(log: seq<Entry>, args: seq<string>): Option<seq<string>> {
    if log == [] then Some(args)
    else match Last(log)
      case Popped(t, _) => Rewind(Front(log), args + [t])
      case PushedBack(t) => if args != [] && Last(args) == t then Rewind(Front(log), Front(args)) else None
      case Given(_, _) => Rewind(Front(log), args)
  }

  /** How many of n tokens are left after the log. */
  function Left(n: int, log: seq<Entry>): int {
    if log == [] then n
    else Left(n, Front(log)) + match Last(log)
      case Popped(_, _) => -1
      case PushedBack(_) => 1
      case Given(_, _) => 0
  }

  /** The results of option o: those of its values, its positionals and the texts given to it, in order. */
  function ResultsOf(app: App, log: seq<Entry>, o: nat): seq<string> {
    if log == [] then []
    else ResultsOf(app, Front(log), o) + match Last(log)
      case Popped(t, ValueOf(p)) => if p == o then app.pieces(o, t) else []
      case Popped(t, PositionalOf(p)) => if p == o then app.pieces(o, t) else []
      case Given(p, text) => if p == o then app.pieces(o, text) else []
      case _ => []
  }

  function AllResults(app: App, log: seq<Entry>): (r: seq<seq<string>>)
    ensures |r| == |app.options| && forall o: nat :: o < |r| ==> r[o] == ResultsOf(app, log, o)
  {
    seq(|app.options|, o requires 0 <= o < |app.options| => ResultsOf(app, log, o))
  }

  function MissingOf(log: seq<Entry>): seq<(Kind, string)> {
    if log == [] then []
    else MissingOf(Front(log)) + match Last(log)
      case Popped(t, Missing(kind)) => [(kind, t)]
      case Popped(t, Mark) => [(PositionalMark, t)]
      case _ => []
  }

  /** After `--`, or after a positional when positionals come at the end, no more options are read. */
  predicate OnlyPositionals(app: App, log: seq<Entry>) {
    log != [] && (OnlyPositionals(app, Front(log)) || match Last(log)
      case Popped(_, Mark) => true
      case Popped(_, PositionalOf(_)) => app.positionalsAtEnd
      case _ => false)
  }

  /** What an option's token brings along: the value of a flag, a value after `=` or `:`, or the rest of its token. */
  function AttachedText(app: App, token: string, o: nat): Option<string>
    requires OptionKind(Recognize(app, token)) && o < |app.options|
  {
    var p := SplitToken(app, token);
    if MaxItems(app.options[o]) == 0 then app.flagValue(o, p.name, p.value)
    else if p.value != "" then Some(p.value)
    else if p.rest != "" then Some(p.rest)
    else None
  }

  /** The rest of a cluster that has to go back after a flag. */
  function OwedRest(app: App, token: string, o: nat): string
    requires OptionKind(Recognize(app, token)) && o < |app.options|
  {
    if MaxItems(app.options[o]) == 0 then SplitToken(app, token).rest else ""
  }

  /** Serving an option: the attached text is due; values are collected; a `--` has ended them; a default or a filler
      has been given. */
  datatype Stage = Attaching | Collecting | Ended | Closed

  /** The option being served, the number of values collected, and that number when the minimum was met. */
  datatype Serving = Nobody | Serving(token: string, opt: nat, stage: Stage, base: int, collected: int)

  function Served(app: App, log: seq<Entry>): (s: Serving)
    ensures s.Serving? ==> s.opt < |app.options| && OptionKind(Recognize(app, s.token))
  {
    if log == [] then Nobody
    else match Last(log)
      case Popped(t, Named(o)) =>
        if OptionKind(Recognize(app, t)) && o < |app.options|
        then Serving(t, o, if AttachedText(app, t, o).Some? then Attaching else Collecting, 0, 0) else Nobody
      case Popped(t, ValueOf(_)) => Collect(app, Served(app, Front(log)), t)
      case Given(_, text) => Furnish(app, Served(app, Front(log)), text)
      case Popped(_, EndMark) => var s := Served(app, Front(log)); if s.Nobody? then s else s.(stage := Ended)
      case _ => Nobody
  }

  /** One more value. */
  function Collect(app: App, s: Serving, t: string): (r: Serving)
    requires s.Serving? ==> s.opt < |app.options|
    ensures r.Serving? == s.Serving? && (r.Serving? ==> r.token == s.token && r.opt == s.opt)
  {
    if s.Nobody? then s
    else
      var c := s.collected + |app.pieces(s.opt, t)|;
      s.(collected := c, base := if s.collected < MinItems(app.options[s.opt]) then c else s.base)
  }

  /** A text that is no token: the attached one, which counts as collected except for a flag, or one that closes. */
  function Furnish(app: App, s: Serving, text: string): (r: Serving)
    requires s.Serving? ==> s.opt < |app.options|
    ensures r.Serving? == s.Serving? && (r.Serving? ==> r.token == s.token && r.opt == s.opt)
  {
    if s.Nobody? then s
    else if s.stage == Attaching then
      var c := if MaxItems(app.options[s.opt]) == 0 then 0 else |app.pieces(s.opt, text)|;
      s.(stage := Collecting, base := c, collected := c)
    else s.(stage := Closed)
  }

  /** An option without minimum that takes values got none: it gets its default. */
  predicate NeedsDefault(opt: Opt, collected: int) {
    MinItems(opt) == 0 && MaxItems(opt) > 0 && collected == 0
  }

  /** The last type is incomplete. */
  predicate Partial(opt: Opt, collected: int)
    requires opt.typeMin <= opt.typeMax
  {
    MinItems(opt) > 0 && collected % opt.typeMax != 0
  }

  predicate NeedsFiller(opt: Opt, collected: int) {
    opt.typeMin <= opt.typeMax && Partial(opt, collected)
  }

  /** The option has got all that is due to it. */
  predicate Satisfied(app: App, s: Serving)
    requires s.Serving? && s.opt < |app.options|
  {
    var opt := app.options[s.opt];
    s.stage != Attaching && s.collected >= MinItems(opt)
    && (NeedsDefault(opt, s.collected) || NeedsFiller(opt, s.collected) ==> s.stage == Closed)
  }

  /** And no rest of its cluster waits to go back. */
  predicate Finished(app: App, s: Serving)
    requires s.Serving? ==> s.opt < |app.options| && OptionKind(Recognize(app, s.token))
  {
    s.Serving? ==> Satisfied(app, s) && OwedRest(app, s.token, s.opt) == ""
  }

  /** Positional i, with this many results, still takes token t. */
  predicate Wants(app: App, have: nat, i: nat, t: string)
    requires i < |app.options|
  {
    var o := app.options[i];
    o.positional && (have < ItemsMin(o) || o.allowExtra) && (app.validatePositionals ==> app.accepts(i, t))
  }

  /** Positional i is required, lacks results and takes token t. */
  predicate Needs(app: App, have: nat, i: nat, t: string)
    requires i < |app.options|
  {
    var o := app.options[i];
    o.positional && o.required && have < ItemsMin(o) && (app.validatePositionals ==> app.accepts(i, t))
  }

  /** The next token may become a value: the option lacks some, or the token is no option, the option takes more, and
      more tokens are left than the required positionals still need. */
  predicate FairValue(app: App, n: int, log: seq<Entry>, s: Serving, t: string)
    requires s.Serving? && s.opt < |app.options|
  {
    var opt := app.options[s.opt];
    s.stage == Collecting
    && (s.collected < MinItems(opt)
        || (Recognize(app, t) == NoKind
            && (s.collected < MaxItems(opt) || opt.allowExtra)
            && Left(n, log) > RemainingRequired(app, AllResults(app, log), 0)
            && (app.validateOptional ==> app.accepts(s.opt, t))))
  }

  /** A text that is given: exactly the attached one when that is due, and else the default or the filler. */
  predicate FairText(app: App, s: Serving, text: string)
    requires s.Serving? && s.opt < |app.options| && OptionKind(Recognize(app, s.token))
  {
    var opt := app.options[s.opt];
    match s.stage
    case Attaching => AttachedText(app, s.token, s.opt) == Some(text)
    case Closed => false
    case _ =>
      s.collected >= MinItems(opt)
      && if NeedsFiller(opt, s.collected) then text == "" && opt.typeMax != opt.typeMin
         else NeedsDefault(opt, s.collected) && app.flagValue(s.opt, SplitToken(app, s.token).name, "") == Some(text)
  }

  /** Why one of n tokens was taken as what it was, given the log before. */
  predicate FairRole(app: App, n: int, log: seq<Entry>, t: string, role: Role) {
    var kind := Recognize(app, t);
    var s := Served(app, log);
    match role
    case Named(o) =>
      && Finished(app, s) && !OnlyPositionals(app, log) && OptionKind(kind)
      && app.find(kind, SplitToken(app, t).name) == o < |app.options|
      && (MaxItems(app.options[o]) == 0 ==> AttachedText(app, t, o).Some?)
    case ValueOf(o) => s.Serving? && s.opt == o && FairValue(app, n, log, s, t)
    case EndMark =>
      && t == "--" && s.Serving? && s.stage == Collecting && s.collected >= MinItems(app.options[s.opt])
      && (MaxItems(app.options[s.opt]) > s.base || app.options[s.opt].allowExtra)
    case PositionalOf(o) =>
      && Finished(app, s) && (kind == NoKind || OnlyPositionals(app, log))
      && o < |app.options| && Wants(app, |ResultsOf(app, log, o)|, o, t)
      && (app.positionalsAtEnd || forall i: nat :: i < o ==> !Wants(app, |ResultsOf(app, log, i)|, i, t))
    case Missing(NoKind) =>
      || (app.prefixCommand && log != [] && Last(log).Popped? && Last(log).role == Missing(NoKind))
      || (Finished(app, s) && (kind == NoKind || OnlyPositionals(app, log)) && !app.positionalsAtEnd
          && forall i: nat :: i < |app.options| ==> !Wants(app, |ResultsOf(app, log, i)|, i, t))
    case Missing(k) =>
      Finished(app, s) && !OnlyPositionals(app, log) && k == kind && OptionKind(k) && app.find(k, SplitToken(app, t).name) < 0
    case Mark => Finished(app, s) && !OnlyPositionals(app, log) && t == "--"
  }

  predicate Fair(app: App, n: int, log: seq<Entry>, e: Entry) {
    var s := Served(app, log);
    match e
    case Popped(t, role) => FairRole(app, n, log, t, role)
    case PushedBack(t) =>
      s.Serving? && Satisfied(app, s) && OwedRest(app, s.token, s.opt) != "" && t == ['-'] + OwedRest(app, s.token, s.opt)
    case Given(o, text) => s.Serving? && s.opt == o && FairText(app, s, text)
  }

  predicate FairLog(app: App, n: int, log: seq<Entry>) {
    log == [] || (FairLog(app, n, Front(log)) && Fair(app, n, Front(log), Last(log)))
  }

  ghost predicate ResultsExplained(app: App, results: seq<seq<string>>, log: seq<Entry>) {
    |results| == |app.options| && forall o: nat :: o < |results| ==> results[o] == ResultsOf(app, log, o)
  }

  /** The log leads from the tokens to this state, and every entry has its reason. */
  ghost predicate Explained(app: App, tokens: seq<string>, st: State) {
    && Rewind(st.log, st.args) == Some(tokens)
    && ResultsExplained(app, st.results, st.log)
    && st.missing == MissingOf(st.log)
    && st.positionalOnly == OnlyPositionals(app, st.log)
    && FairLog(app, |tokens|, st.log)
  }

  /** Characters and tokens left. */
  function Size(args: seq<string>): nat {
    if args == [] then 0 else Size(Front(args)) + |Last(args)| + 1
  }

  // ---------------------------------------------------------------------
  // The three things that happen to the state
  // ---------------------------------------------------------------------

  function AddResults(results: seq<seq<string>>, o: nat, texts: seq<string>): (r: seq<seq<string>>)
    ensures |r| == |results|
  {
    if o < |results| then results[o := results[o] + texts] else results
  }

  function Take(app: App, st: State, role: Role): (r: State)
    requires st.args != [] && Fits(app, st)
    ensures Fits(app, r) && r.args == Front(st.args) && Size(r.args) + |Last(st.args)| + 1 == Size(st.args)
    ensures r.log == st.log + [Popped(Last(st.args), role)]
  {
    var t := Last(st.args);
    State(
      Front(st.args),
      if role.ValueOf? || role.PositionalOf? then AddResults(st.results, role.opt, app.pieces(role.opt, t)) else st.results,
      if role.Missing? then st.missing + [(role.kind, t)]
      else if role.Mark? then st.missing + [(PositionalMark, t)]
      else st.missing,
      st.positionalOnly || role.Mark? || (role.PositionalOf? && app.positionalsAtEnd),
      st.log + [Popped(t, role)])
  }

  function Give(app: App, st: State, o: nat, text: string): (r: State)
    requires Fits(app, st)
    ensures Fits(app, r) && r.args == st.args && r.log == st.log + [Given(o, text)]
  {
    st.(results := AddResults(st.results, o, app.pieces(o, text)), log := st.log + [Given(o, text)])
  }

  function PushBack(app: App, st: State, token: string): (r: State)
    requires Fits(app, st)
    ensures Fits(app, r) && Size(r.args) == Size(st.args) + |token| + 1
  {
    assert Front(st.args + [token]) == st.args;
    st.(args := st.args + [token], log := st.log + [PushedBack(token)])
  }

  // ---------------------------------------------------------------------
  // Options
  // ---------------------------------------------------------------------

  /** `_count_remaining_positionals(true)`, for the options from i on. */
  function RemainingRequired(app: App, results: seq<seq<string>>, i: nat): nat
    requires |results| == |app.options| && i <= |app.options|
    decreases |app.options| - i
  {
    if i == |app.options| then 0
    else
      var o := app.options[i];
      var lacking := if o.positional && o.required && |results[i]| < ItemsMin(o) then ItemsMin(o) - |results[i]| else 0;
      lacking + RemainingRequired(app, results, i + 1)
  }

  /** Collecting the minimum, whatever the tokens look like; also returns the number collected. */
  function GatherMinimum(app: App, st: State, o: nat, min: int, collected: int): (r: (State, int))
    requires Fits(app, st)
    ensures Fits(app, r.0) && Size(r.0.args) <= Size(st.args)
    ensures r.1 < min ==> r.0.args == []
    decreases |st.args|
  {
    if min > collected && st.args != [] then
      GatherMinimum(app, Take(app, st, ValueOf(o)), o, min, collected + |app.pieces(o, Last(st.args))|)
    else (st, collected)
  }

  /** The next token may be an optional value: it is no option, and more tokens are left than the required
      positionals still need. */
  predicate MayCollect(app: App, args: seq<string>, o: nat, reserve: nat) {
    args != [] && Recognize(app, Last(args)) == NoKind && reserve < |args| && (app.validateOptional ==> app.accepts(o, Last(args)))
  }

  function GatherOptional(app: App, st: State, o: nat, max: int, extra: bool, collected: int, reserve: nat): (r: (State, int))
    requires Fits(app, st)
    ensures Fits(app, r.0) && Size(r.0.args) <= Size(st.args)
    ensures |r.0.args| >= Smaller(|st.args|, reserve)
    ensures !((r.1 < max || extra) && MayCollect(app, r.0.args, o, reserve))
    decreases |st.args|
  {
    if (collected < max || extra) && MayCollect(app, st.args, o, reserve) then
      GatherOptional(app, Take(app, st, ValueOf(o)), o, max, extra, collected + |app.pieces(o, Last(st.args))|, reserve)
    else (st, collected)
  }

  /** A `--` may end the optional values. */
  function EatMark(app: App, st: State): (r: State)
    requires Fits(app, st)
    ensures Fits(app, r) && Size(r.args) <= Size(st.args)
  {
    if st.args != [] && Recognize(app, Last(st.args)) == PositionalMark then Take(app, st, EndMark) else st
  }

  /** In the middle of serving an option: the number of values collected and the rest of the cluster. */
  datatype Progress = Progress(st: State, collected: int, rest: string) | Refused

  /** A flag's own value, or the value attached to the name. */
  function Begin(app: App, st: State, o: nat, p: Parts): (r: Progress)
    requires Fits(app, st) && o < |app.options|
    ensures r.Progress? ==> Fits(app, r.st) && r.st.args == st.args && (r.rest == "" || r.rest == p.rest)
  {
    if MaxItems(app.options[o]) == 0 then
      match app.flagValue(o, p.name, p.value)
      case None => Refused
      case Some(text) => Progress(Give(app, st, o, text), 0, p.rest)
    else if p.value != "" then Progress(Give(app, st, o, p.value), |app.pieces(o, p.value)|, p.rest)
    else if p.rest != "" then Progress(Give(app, st, o, p.rest), |app.pieces(o, p.rest)|, "")
    else Progress(st, 0, "")
  }

  /** Optional values, a `--` that ends them, and the default of an option that got none. */
  function Optionals(app: App, st: State, o: nat, name: string, collected: int, rest: string): (r: Progress)
    requires Fits(app, st) && o < |app.options|
    ensures r.Progress? ==> Fits(app, r.st) && Size(r.st.args) <= Size(st.args) && r.rest == rest
  {
    var opt := app.options[o];
    if !(MaxItems(opt) > collected || opt.allowExtra) then Progress(st, collected, rest)
    else
      var (s1, c1) := GatherOptional(app, st, o, MaxItems(opt), opt.allowExtra, collected, RemainingRequired(app, st.results, 0));
      var s2 := EatMark(app, s1);
      if NeedsDefault(opt, c1) then
        match app.flagValue(o, name, "")
        case None => Refused
        case Some(text) => Progress(Give(app, s2, o, text), c1, rest)
      else Progress(s2, c1, rest)
  }

  /** An incomplete type is filled up or refused; the rest of a cluster goes back as a token of its own. */
  function Finish(app: App, st: State, o: nat, collected: int, rest: string): (r: Outcome)
    requires Fits(app, st) && o < |app.options| && app.options[o].typeMin <= app.options[o].typeMax
    ensures r.Parsed? ==> Fits(app, r.st) && Size(r.st.args) <= Size(st.args) + if rest == "" then 0 else |rest| + 2
  {
    var opt := app.options[o];
    if Partial(opt, collected) && opt.typeMax == opt.typeMin then Thrown
    else
      var s := if Partial(opt, collected) then Give(app, st, o, "") else st;
      Parsed(if rest == "" then s else PushBack(app, s, ['-'] + rest))
  }

  function TakeValues(app: App, st: State, o: nat, p: Parts): (r: Outcome)
    requires Fits(app, st) && o < |app.options| && app.options[o].typeMin <= app.options[o].typeMax
    ensures r.Parsed? ==> Fits(app, r.st) && Size(r.st.args) <= Size(st.args) + if p.rest == "" then 0 else |p.rest| + 2
  {
    var min := MinItems(app.options[o]);
    var b := Begin(app, st, o, p);
    if b.Refused? then Thrown
    else
      var (s, c) := GatherMinimum(app, b.st, o, min, b.collected);
      if min > c then Thrown
      else
        var q := Optionals(app, s, o, p.name, c, b.rest);
        if q.Refused? then Thrown else Finish(app, q.st, o, q.collected, q.rest)
  }

  /** `_parse_arg`. Even with the rest of a cluster put back, the tokens shrink. */
  function ParseArg(app: App, st: State): (r: Outcome)
    requires app.Valid() && Fits(app, st) && st.args != [] && OptionKind(Recognize(app, Last(st.args)))
    ensures r.Parsed? ==> Fits(app, r.st) && Size(r.st.args) < Size(st.args)
  {
    var t := Last(st.args);
    var p := SplitToken(app, t);
    var o := app.find(Recognize(app, t), p.name);
    if o < 0 then Parsed(Take(app, st, Missing(Recognize(app, t)))) else TakeValues(app, Take(app, st, Named(o)), o, p)
  }

  // ---------------------------------------------------------------------
  // Positionals
  // ---------------------------------------------------------------------

  /** The first positional from i on that wants the token, or the number of options. */
  function FindWanting(app: App, results: seq<seq<string>>, t: string, i: nat): (r: nat)
    requires |results| == |app.options| && i <= |app.options|
    ensures i <= r <= |app.options| && (r < |app.options| ==> Wants(app, |results[r]|, r, t))
    ensures forall j: nat :: i <= j < r ==> !Wants(app, |results[j]|, j, t)
    decreases |app.options| - i
  {
    if i == |app.options| || Wants(app, |results[i]|, i, t) then i else FindWanting(app, results, t, i + 1)
  }

  function FindNeeding(app: App, results: seq<seq<string>>, t: string, i: nat): (r: nat)
    requires |results| == |app.options| && i <= |app.options|
    ensures i <= r <= |app.options| && (r < |app.options| ==> Needs(app, |results[r]|, r, t))
    ensures forall j: nat :: i <= j < r ==> !Needs(app, |results[j]|, j, t)
    decreases |app.options| - i
  {
    if i == |app.options| || Needs(app, |results[i]|, i, t) then i else FindNeeding(app, results, t, i + 1)
  }

  /** With positionals at the end, required ones come first once the tokens get scarce. */
  function ChoosePositional(app: App, st: State): (r: nat)
    requires Fits(app, st) && st.args != []
    ensures r <= |app.options| && (r < |app.options| ==> Wants(app, |st.results[r]|, r, Last(st.args)))
    ensures !app.positionalsAtEnd || r == |app.options| ==> forall j: nat :: j < r ==> !Wants(app, |st.results[j]|, j, Last(st.args))
  {
    var t := Last(st.args);
    var scarce := app.positionalsAtEnd && |st.args| <= RemainingRequired(app, st.results, 0);
    var r := if scarce then FindNeeding(app, st.results, t, 0) else |app.options|;
    if r < |app.options| then r else FindWanting(app, st.results, t, 0)
  }

  function AllMissing(app: App, st: State): (r: State)
    requires Fits(app, st)
    ensures Fits(app, r) && Size(r.args) <= Size(st.args)
    decreases |st.args|
  {
    if st.args == [] then st else AllMissing(app, Take(app, st, Missing(NoKind)))
  }

  /** `_parse_positional`. */
  function ParsePositional(app: App, st: State): (r: Outcome)
    requires Fits(app, st) && st.args != []
    ensures r.Parsed? ==> Fits(app, r.st) && Size(r.st.args) < Size(st.args)
  {
    var o := ChoosePositional(app, st);
    if o < |app.options| then Parsed(Take(app, st, PositionalOf(o)))
    else if app.positionalsAtEnd then Thrown
    else
      var u := Take(app, st, Missing(NoKind));
      Parsed(if app.prefixCommand then AllMissing(app, u) else u)
  }

  // ---------------------------------------------------------------------
  // The loop
  // ---------------------------------------------------------------------

  /** `_parse_single`: every call leaves fewer characters and tokens. */
  function ParseSingle(app: App, st: State): (r: Outcome)
    requires app.Valid() && Fits(app, st) && st.args != []
    ensures r.Parsed? ==> Fits(app, r.st) && Size(r.st.args) < Size(st.args)
  {
    var kind := if st.positionalOnly then NoKind else Recognize(app, Last(st.args));
    if kind == PositionalMark then Parsed(Take(app, st, Mark))
    else if kind == NoKind then ParsePositional(app, st)
    else ParseArg(app, st)
  }

  /** The loop of `_parse`. */
  function ParseAll(app: App, st: State): (r: Outcome)
    requires app.Valid() && Fits(app, st)
    ensures r.Parsed? ==> Fits(app, r.st) && r.st.args == []
    decreases Size(st.args)
  {
    if st.args == [] then Parsed(st)
    else
      var next := ParseSingle(app, st);
      if next.Thrown? then Thrown else ParseAll(app, next.st)
  }
}
