/** Section markers of the configuration reader in CLI11.hpp: `from_config` emits a `++` item where a
    section opens and a `--` item where one closes, and `checkParentSegments` closes and reopens the
    ancestors between two sections. Text lines are taken as already cut into their parts. */
module CliSections {
  import opened Arithmetic

  type Path = seq<string>

  datatype ConfigItem = ConfigItem(parents: Path, name: string, inputs: seq<string>)

  /** `[default]`, the header of a named section, or a key with its values. */
  datatype Line =
    | DefaultHeader
    | SectionHeader(path: Path)
    | Entry(parents: Path, name: string, inputs: seq<string>)

  /** A section name gives at least one segment. */
  predicate ValidLine(line: Line) {
    line.SectionHeader? ==> line.path != []
  }

  const OPEN := "++"
  const CLOSE := "--"

  function Marker(path: Path, name: string): ConfigItem {
    ConfigItem(path, name, [])
  }

  function Last<T>(s: seq<T>): T
    requires s != []
  {
    s[|s| - 1]
  }

  function Front<T>(s: seq<T>): seq<T>
    requires s != []
  {
    s[..|s| - 1]
  }

  // ---------------------------------------------------------------------
  // checkParentSegments
  // ---------------------------------------------------------------------

  /** While the last item has m segments or more: the same item once more, one segment shorter. */
  function CloseTo(output: seq<ConfigItem>, m: nat): (r: seq<ConfigItem>)
    requires output != [] && m >= 1
    ensures r != [] && |Last(r).parents| < m
    decreases |Last(output).parents|
  {
    var back := Last(output);
    if |back.parents| < m then output
    else CloseTo(output + [back.(parents := Front(back.parents))], m)
  }

  method CloseAncestors(output: seq<ConfigItem>, m: nat) returns (r: seq<ConfigItem>)
    requires output != [] && m >= 1
    ensures r == CloseTo(output, m)
  {
    r := output;
    while |Last(r).parents| >= m
      invariant r != [] && CloseTo(r, m) == CloseTo(output, m)
      decreases |Last(r).parents|
    {
      r := r + [Last(r).(parents := Front(Last(r).parents))];
    }
  }

  /** `++` items for the proper prefixes of the path that are longer than k segments. */
  function OpenFrom(output: seq<ConfigItem>, path: Path, k: nat): seq<ConfigItem>
    decreases |path| - k
  {
    if k + 1 >= |path| then output else OpenFrom(output + [Marker(path[..k + 1], OPEN)], path, k + 1)
  }

  method OpenAncestors(output: seq<ConfigItem>, path: Path, k: nat) returns (r: seq<ConfigItem>)
    requires k < |path|
    ensures r == OpenFrom(output, path, k)
  {
    r := output;
    var ii := k;
    while ii < |path| - 1
      invariant k <= ii < |path| && OpenFrom(r, path, ii) == OpenFrom(output, path, k)
    {
      r := r + [Marker(path[..ii + 1], OPEN)];
      ii := ii + 1;
    }
  }

  /** How many of the first n segments agree. */
  function Common(a: Path, b: Path, n: nat): (r: nat)
    requires n <= |a| && n <= |b|
    ensures r <= n && a[..r] == b[..r] && (r < n ==> a[r] != b[r])
  {
    if n == 0 then 0
    else
      var r := Common(a, b, n - 1);
      assert r == n - 1 && a[r] == b[r] ==> a[..n] == a[..r] + [a[r]] && b[..n] == b[..r] + [b[r]];
      if r == n - 1 && a[r] == b[r] then n else r
  }

  method CommonSegments(a: Path, b: Path, n: nat) returns (r: nat)
    requires n <= |a| && n <= |b|
    ensures r == Common(a, b, n)
  {
    r := 0;
    for ii := 0 to n
      invariant r == ii == Common(a, b, ii)
    {
      if a[ii] != b[ii] {
        CommonStops(a, b, ii, n);
        break;
      }
      r := r + 1;
    }
  }

  lemma {:induction false} CommonStops(a: Path, b: Path, k: nat, n: nat)
    requires k < n <= |a| && n <= |b| && a[k] != b[k] && Common(a, b, k) == k
    ensures Common(a, b, n) == k
    decreases n
  {
    if k < n - 1 { CommonStops(a, b, k, n - 1); }
  }

  /** The output before the opening item of a section with this path. */
  function Prepared(output: seq<ConfigItem>, path: Path): seq<ConfigItem>
    requires path != []
  {
    if output != [] && Last(output).name == CLOSE then
      var closed := CloseTo(output, if |path| > 1 then |path| else 2);
      if |path| > 1 then
        var back := Last(closed).parents;
        var pairs := Smaller(|back|, |path| - 1);
        var common := Common(back, path, pairs);
        OpenFrom(if common == pairs then Front(closed) else CloseTo(closed, common + 2), path, common)
      else closed
    else OpenFrom(output, path, 0)
  }

  method CheckParentSegments(output: seq<ConfigItem>, path: Path) returns (r: seq<ConfigItem>)
    requires path != []
    ensures r == Prepared(output, path) + [Marker(path, OPEN)]
  {
    hide CloseTo, OpenFrom, Common;
    r := output;
    if r != [] && Last(r).name == CLOSE {
      var msize := if |path| > 1 then |path| else 2;
      r := CloseAncestors(r, msize);
      if |path| > 1 {
        var pairs := Smaller(|Last(r).parents|, |path| - 1);
        var common := CommonSegments(Last(r).parents, path, pairs);
        if common == pairs {
          r := Front(r);
        } else {
          r := CloseAncestors(r, common + 2);
        }
        r := OpenAncestors(r, path, common);
      }
    } else if |path| > 1 {
      r := OpenAncestors(r, path, 0);
    } else {
      assert OpenFrom(r, path, 0) == r by { NothingToOpen(r, path); }
    }
    r := r + [Marker(path, OPEN)];
  }

  lemma NothingToOpen(output: seq<ConfigItem>, path: Path)
    requires |path| == 1
    ensures OpenFrom(output, path, 0) == output
  {
  }

  // ---------------------------------------------------------------------
  // from_config
  // ---------------------------------------------------------------------

  /** The items so far, and the current section: no segments for the default one. */
  datatype State = State(output: seq<ConfigItem>, current: Path)

  function LeaveSection(st: State): seq<ConfigItem> {
    if st.current != [] then st.output + [Marker(st.current, CLOSE)] else st.output
  }

  /** A key is dropped when it lies too deep. */
  predicate Skipped(line: Line, maximumLayers: nat)
    requires line.Entry?
  {
    |line.parents| > maximumLayers
  }

  /** A key like the item before it only adds its values to that. */
  predicate Merged(output: seq<ConfigItem>, line: Line)
    requires line.Entry?
  {
    output != [] && line.name == Last(output).name && line.parents == Last(output).parents
  }

  function Step(st: State, line: Line, maximumLayers: nat): State
    requires ValidLine(line)
  {
    match line
    case DefaultHeader => State(LeaveSection(st), [])
    case SectionHeader(path) => State(Prepared(LeaveSection(st), path) + [Marker(path, OPEN)], path)
    case Entry(parents, name, inputs) =>
      if Skipped(line, maximumLayers) then st
      else if Merged(st.output, line) then
        var back := Last(st.output);
        st.(output := Front(st.output) + [back.(inputs := back.inputs + inputs)])
      else st.(output := st.output + [ConfigItem(parents, name, inputs)])
  }

  function Run(lines: seq<Line>, maximumLayers: nat): State
    requires forall k :: 0 <= k < |lines| ==> ValidLine(lines[k])
  {
    if lines == [] then State([], [])
    else Step(Run(Front(lines), maximumLayers), Last(lines), maximumLayers)
  }

  /** The end of the input closes the section and its ancestors. */
  function Finish(st: State): seq<ConfigItem> {
    if st.current != [] then CloseTo(LeaveSection(st), 2) else st.output
  }

  method FromConfig(lines: seq<Line>, maximumLayers: nat) returns (output: seq<ConfigItem>)
    requires forall k :: 0 <= k < |lines| ==> ValidLine(lines[k])
    ensures output == Finish(Run(lines, maximumLayers))
  {
    hide Prepared, CloseTo;
    output := [];
    var current: Path := [];
    for k := 0 to |lines|
      invariant State(output, current) == Run(lines[..k], maximumLayers)
    {
      assert Front(lines[..k + 1]) == lines[..k] && Last(lines[..k + 1]) == lines[k];
      match lines[k]
      case DefaultHeader =>
        if current != [] { output := output + [Marker(current, CLOSE)]; }
        current := [];
      case SectionHeader(path) =>
        if current != [] { output := output + [Marker(current, CLOSE)]; }
        current := path;
        output := CheckParentSegments(output, path);
      case Entry(parents, name, inputs) =>
        if |parents| > maximumLayers { continue; }
        if output != [] && name == Last(output).name && parents == Last(output).parents {
          output := Front(output) + [Last(output).(inputs := Last(output).inputs + inputs)];
        } else {
          output := output + [ConfigItem(parents, name, inputs)];
        }
    }
    assert lines[..|lines|] == lines;
    if current != [] {
      output := output + [Marker(current, CLOSE)];
      output := CloseAncestors(output, 2);
    }
  }

  // ---------------------------------------------------------------------
  // Replaying the markers: an independent reading of them as a stack of open sections
  // ---------------------------------------------------------------------

  datatype Stack = Open(paths: seq<Path>) | Broken

  /** A section opens on its parent, one segment shorter, or on nothing; only the top closes. */
  function Apply(st: Stack, item: ConfigItem): Stack {
    if st.Broken? then Broken
    else if item.name == OPEN then
      if item.parents != [] && (if st.paths == [] then |item.parents| == 1 else Front(item.parents) == Last(st.paths))
      then Open(st.paths + [item.parents]) else Broken
    else if item.name == CLOSE then
      if st.paths != [] && Last(st.paths) == item.parents then Open(Front(st.paths)) else Broken
    else st
  }

  function Replay(output: seq<ConfigItem>): Stack {
    if output == [] then Open([]) else Apply(Replay(Front(output)), Last(output))
  }

  /** All prefixes of a path, the shortest first: a section and its ancestors. */
  function Chain(path: Path): (r: seq<Path>)
    ensures |r| == |path|
    ensures path != [] ==> Last(r) == path && Front(r) == Chain(Front(path))
  {
    if path == [] then [] else Chain(Front(path)) + [path]
  }

  lemma ReplayAppend(output: seq<ConfigItem>, item: ConfigItem)
    ensures Replay(output + [item]) == Apply(Replay(output), item)
  {
    assert Front(output + [item]) == output;
  }

  lemma ChainMember(path: Path, k: nat)
    requires k < |path|
    ensures Front(path[..k + 1]) == path[..k]
  {
  }

  /** A closing marker that has just closed its section. */
  ghost predicate JustClosed(output: seq<ConfigItem>, q: Path) {
    q != [] && output != [] && Last(output).parents == q && Last(output).name == CLOSE
    && Replay(Front(output)) == Open(Chain(q))
  }

  lemma JustClosedReplay(output: seq<ConfigItem>, q: Path)
    requires JustClosed(output, q)
    ensures Replay(output) == Open(Chain(Front(q)))
  {
  }

  /** Closing down from a closed section leaves the ancestor with m - 1 segments as the last one closed,
      or changes nothing when it is that short already. */
  lemma {:induction false} ClosesTo(output: seq<ConfigItem>, q: Path, m: nat)
    requires JustClosed(output, q) && m >= 2
    ensures JustClosed(CloseTo(output, m), if |q| < m then q else q[..m - 1])
    decreases |q|
  {
    hide JustClosed;
    assert output != [] && Last(output).parents == q by { ClosedShape(output, q); }
    if |q| >= m {
      var item := Last(output).(parents := Front(q));
      var next := output + [item];
      ClosesOne(output, q);
      ClosesTo(next, Front(q), m);
      assert (if |Front(q)| < m then Front(q) else Front(q)[..m - 1]) == q[..m - 1];
    }
  }

  lemma ClosesOne(output: seq<ConfigItem>, q: Path)
    requires JustClosed(output, q) && |q| >= 2
    ensures JustClosed(output + [Last(output).(parents := Front(q))], Front(q))
  {
    hide Chain;
    JustClosedReplay(output, q);
    assert Front(output + [Last(output).(parents := Front(q))]) == output;
  }

  lemma {:induction false} OpensFrom(output: seq<ConfigItem>, path: Path, k: nat)
    requires k < |path| && Replay(output) == Open(Chain(path[..k]))
    ensures Replay(OpenFrom(output, path, k)) == Open(Chain(Front(path)))
    decreases |path| - k
  {
    hide Replay, Chain;
    if k + 1 >= |path| {
      assert path[..k] == Front(path);
    } else {
      ChainMember(path, k);
      OpensOne(output, path[..k + 1]);
      OpensFrom(output + [Marker(path[..k + 1], OPEN)], path, k + 1);
    }
  }

  /** Opening a section on the chain of its ancestors. */
  lemma OpensOne(output: seq<ConfigItem>, path: Path)
    requires path != [] && Replay(output) == Open(Chain(Front(path)))
    ensures Replay(output + [Marker(path, OPEN)]) == Open(Chain(path))
  {
    ReplayAppend(output, Marker(path, OPEN));
    if |path| > 1 { assert Last(Chain(Front(path))) == Front(path); }
  }

  /** What a header finds: the last item has just closed a section, or every section is closed. */
  ghost predicate Ready(output: seq<ConfigItem>) {
    if output != [] && Last(output).name == CLOSE then JustClosed(output, Last(output).parents)
    else Replay(output) == Open([])
  }

  /** From there the ancestors of any section get opened, and nothing else stays open. */
  lemma PreparesChain(output: seq<ConfigItem>, path: Path)
    requires path != [] && Ready(output)
    ensures Replay(Prepared(output, path)) == Open(Chain(Front(path)))
  {
    hide Replay, Chain, JustClosed, CloseTo, OpenFrom, Common;
    if output != [] && Last(output).name == CLOSE {
      var q := Last(output).parents;
      if |path| > 1 {
        ClosesTo(output, q, |path|);
        var closed := CloseTo(output, |path|);
        assert JustClosed(closed, Last(closed).parents) by { ClosedShape(closed, if |q| < |path| then q else q[..|path| - 1]); }
        PreparesFrom(closed, path);
      } else {
        ClosesTo(output, q, 2);
        var closed := CloseTo(output, 2);
        ClosedShape(closed, if |q| < 2 then q else q[..1]);
        JustClosedReplay(closed, if |q| < 2 then q else q[..1]);
        assert Front(if |q| < 2 then q else q[..1]) == Front(path) == [];
      }
    } else {
      assert path[..0] == [];
      EmptyChain();
      OpensFrom(output, path, 0);
    }
  }

  lemma EmptyChain()
    ensures Chain([]) == []
  {
  }

  lemma ClosedShape(closed: seq<ConfigItem>, q: Path)
    requires JustClosed(closed, q)
    ensures closed != [] && q != [] && Last(closed).parents == q
  {
  }

  /** Closing down to the common ancestors, or taking back the last closing item, and opening the others. */
  lemma PreparesFrom(closed: seq<ConfigItem>, path: Path)
    requires |path| > 1 && closed != [] && JustClosed(closed, Last(closed).parents)
    requires |Last(closed).parents| < |path|
    ensures var back := Last(closed).parents;
            var pairs := Smaller(|back|, |path| - 1);
            var common := Common(back, path, pairs);
            Replay(OpenFrom(if common == pairs then Front(closed) else CloseTo(closed, common + 2), path, common))
            == Open(Chain(Front(path)))
  {
    hide Replay, Chain, CloseTo, OpenFrom, Common, JustClosed;
    var back := Last(closed).parents;
    var pairs := Smaller(|back|, |path| - 1);
    var common := Common(back, path, pairs);
    if common == pairs {
      assert path[..common] == back;
      TakenBack(closed, back);
      OpensFrom(Front(closed), path, common);
    } else {
      ClosesToCommon(closed, back, path, common);
      OpensFrom(CloseTo(closed, common + 2), path, common);
    }
  }

  /** Without its last closing item the output leaves that section open. */
  lemma TakenBack(closed: seq<ConfigItem>, q: Path)
    requires JustClosed(closed, q)
    ensures Replay(Front(closed)) == Open(Chain(q))
  {
  }

  lemma ClosesToCommon(closed: seq<ConfigItem>, back: Path, path: Path, common: nat)
    requires closed != [] && JustClosed(closed, back) && common < |back| && common <= |path| && back[..common] == path[..common]
    ensures Replay(CloseTo(closed, common + 2)) == Open(Chain(path[..common]))
  {
    hide Replay, Chain, CloseTo, JustClosed;
    var m := common + 2;
    ClosesTo(closed, back, m);
    var q := if |back| < m then back else back[..m - 1];
    JustClosedReplay(CloseTo(closed, m), q);
    assert Front(q) == back[..common];
  }

  // ---------------------------------------------------------------------
  // Every line, and whole inputs
  // ---------------------------------------------------------------------

  /** The sections open after a line are exactly the current one and its ancestors. */
  ghost predicate Balanced(st: State) {
    Replay(st.output) == Open(Chain(st.current))
  }

  /** What the emitted items keep besides: a closing marker stands last only in the default section,
      and then it has just closed a one-segment section. */
  ghost predicate Settled(st: State) {
    Balanced(st) && (st.output != [] && Last(st.output).name == CLOSE ==> st.current == [] && JustClosed(st.output, Last(st.output).parents))
  }

  /** The lines after which the markers still match: not a default header in a section of two or more
      segments, and not a key that goes out as an item of its own under a marker's name. */
  predicate Harmless(st: State, line: Line, maximumLayers: nat) {
    match line
    case DefaultHeader => |st.current| < 2
    case SectionHeader(_) => true
    case Entry(_, name, _) => Skipped(line, maximumLayers) || Merged(st.output, line) || (name != OPEN && name != CLOSE)
  }

  lemma LeaveReady(st: State)
    requires Settled(st)
    ensures Ready(LeaveSection(st))
    ensures st.current != [] ==> JustClosed(LeaveSection(st), st.current)
  {
    hide Chain;
    if st.current != [] {
      assert Front(LeaveSection(st)) == st.output;
    } else {
      EmptyChain();
    }
  }

  lemma HarmlessStep(st: State, line: Line, maximumLayers: nat)
    requires ValidLine(line) && Settled(st) && Harmless(st, line, maximumLayers)
    ensures Settled(Step(st, line, maximumLayers))
  {
    hide Chain, JustClosed, Prepared, Replay;
    match line
    case DefaultHeader =>
      LeaveReady(st);
      EmptyChain();
      if st.current != [] {
        assert Front(st.current) == [];
        JustClosedReplay(LeaveSection(st), st.current);
        ClosedShape(LeaveSection(st), st.current);
      }
    case SectionHeader(path) =>
      LeaveReady(st);
      PreparesChain(LeaveSection(st), path);
      OpensOne(Prepared(LeaveSection(st), path), path);
    case Entry(parents, name, inputs) =>
      if !Skipped(line, maximumLayers) {
        if Merged(st.output, line) {
          MergeKeeps(st, inputs);
        } else {
          ReplayAppend(st.output, ConfigItem(parents, name, inputs));
        }
      }
  }

  lemma MergeKeeps(st: State, inputs: seq<string>)
    requires Settled(st) && st.output != []
    ensures var back := Last(st.output);
            Settled(st.(output := Front(st.output) + [back.(inputs := back.inputs + inputs)]))
  {
    hide Chain;
    var back := Last(st.output).(inputs := Last(st.output).inputs + inputs);
    var output := Front(st.output) + [back];
    assert Front(output) == Front(st.output);
  }

  lemma HarmfulStep(st: State, line: Line, maximumLayers: nat)
    requires ValidLine(line) && Settled(st) && !Harmless(st, line, maximumLayers)
    ensures !Balanced(Step(st, line, maximumLayers))
  {
    hide Prepared, Replay, Chain, JustClosed, Apply;
    match line
    case DefaultHeader =>
      LeaveReady(st);
      JustClosedReplay(LeaveSection(st), st.current);
      assert |Chain(Front(st.current))| > 0 && |Chain([])| == 0;
    case Entry(parents, name, inputs) =>
      var item := ConfigItem(parents, name, inputs);
      ReplayAppend(st.output, item);
      MarkerMoves(Chain(st.current), item);
  }

  /** A marker always changes the stack. */
  lemma MarkerMoves(paths: seq<Path>, item: ConfigItem)
    requires item.name == OPEN || item.name == CLOSE
    ensures Apply(Open(paths), item) != Open(paths)
  {
    if item.name == OPEN { assert |paths + [item.parents]| != |paths|; }
    else if paths != [] { assert |Front(paths)| != |paths|; }
  }

  /** At the end of a balanced input everything is closed. */
  lemma FinishCloses(st: State)
    requires Settled(st)
    ensures Replay(Finish(st)) == Open([])
  {
    hide CloseTo, JustClosed;
    LeaveReady(st);
    if st.current != [] {
      ClosesTo(LeaveSection(st), st.current, 2);
      var q := if |st.current| < 2 then st.current else st.current[..1];
      JustClosedReplay(Finish(st), q);
      assert Front(q) == [];
    }
  }

  lemma StartSettled()
    ensures Settled(State([], []))
  {
  }

  ghost predicate AllHarmless(lines: seq<Line>, maximumLayers: nat, n: nat)
    requires n <= |lines| && forall k :: 0 <= k < |lines| ==> ValidLine(lines[k])
  {
    forall k :: 0 <= k < n ==> Harmless(Run(lines[..k], maximumLayers), lines[k], maximumLayers)
  }

  ghost predicate AllBalanced(lines: seq<Line>, maximumLayers: nat, n: nat)
    requires n <= |lines| && forall k :: 0 <= k < |lines| ==> ValidLine(lines[k])
  {
    forall k :: 0 <= k <= n ==> Balanced(Run(lines[..k], maximumLayers))
  }

  lemma {:induction false} BalancedExactly(lines: seq<Line>, maximumLayers: nat, n: nat)
    requires n <= |lines| && forall k :: 0 <= k < |lines| ==> ValidLine(lines[k])
    ensures AllBalanced(lines, maximumLayers, n) <==> AllHarmless(lines, maximumLayers, n)
    ensures AllHarmless(lines, maximumLayers, n) ==> Settled(Run(lines[..n], maximumLayers))
    decreases n
  {
    hide Step, Harmless, Balanced;
    if n == 0 {
      assert lines[..0] == [];
      StartSettled();
    } else {
      BalancedExactly(lines, maximumLayers, n - 1);
      var st := Run(lines[..n - 1], maximumLayers);
      assert Front(lines[..n]) == lines[..n - 1] && Last(lines[..n]) == lines[n - 1];
      assert Run(lines[..n], maximumLayers) == Step(st, lines[n - 1], maximumLayers);
      if AllHarmless(lines, maximumLayers, n - 1) {
        if Harmless(st, lines[n - 1], maximumLayers) {
          HarmlessStep(st, lines[n - 1], maximumLayers);
        } else {
          HarmfulStep(st, lines[n - 1], maximumLayers);
        }
      }
    }
  }

  // ---------------------------------------------------------------------
  // The condition on the input alone
  // ---------------------------------------------------------------------

  /** The section the lines end in: that of the last header. */
  function SectionAfter(lines: seq<Line>): Path {
    if lines == [] then []
    else match Last(lines)
      case DefaultHeader => []
      case SectionHeader(path) => path
      case Entry(_, _, _) => SectionAfter(Front(lines))
  }

  datatype Key = NoKey | Key(parents: Path, name: string)

  /** The last thing that counts in the lines: a header stands for its marker, a key for itself; keys that lie too
      deep do not count, and neither does a default header in the default section. */
  function LastKey(lines: seq<Line>, maximumLayers: nat): Key {
    if lines == [] then NoKey
    else match Last(lines)
      case DefaultHeader =>
        var section := SectionAfter(Front(lines));
        if section != [] then Key(section, CLOSE) else LastKey(Front(lines), maximumLayers)
      case SectionHeader(path) => Key(path, OPEN)
      case Entry(parents, name, _) =>
        if Skipped(Last(lines), maximumLayers) then LastKey(Front(lines), maximumLayers) else Key(parents, name)
  }

  /** A line that may follow these: no default header in a section of two or more segments, and no key with a
      marker's name that counts, unless it repeats what counted last. */
  predicate MayFollow(lines: seq<Line>, line: Line, maximumLayers: nat) {
    match line
    case DefaultHeader => |SectionAfter(lines)| < 2
    case SectionHeader(_) => true
    case Entry(parents, name, _) =>
      Skipped(line, maximumLayers) || (name != OPEN && name != CLOSE) || LastKey(lines, maximumLayers) == Key(parents, name)
  }

  predicate Clean(lines: seq<Line>, maximumLayers: nat) {
    forall k :: 0 <= k < |lines| ==> MayFollow(lines[..k], lines[k], maximumLayers)
  }

  lemma {:induction false} LinesTell(lines: seq<Line>, maximumLayers: nat)
    requires forall k :: 0 <= k < |lines| ==> ValidLine(lines[k])
    ensures var st := Run(lines, maximumLayers);
      st.current == SectionAfter(lines)
      && LastKey(lines, maximumLayers) == if st.output == [] then NoKey else Key(Last(st.output).parents, Last(st.output).name)
  {
    hide Prepared;
    if lines != [] { LinesTell(Front(lines), maximumLayers); }
  }

  lemma MayFollowIsHarmless(lines: seq<Line>, line: Line, maximumLayers: nat)
    requires forall k :: 0 <= k < |lines| ==> ValidLine(lines[k])
    ensures MayFollow(lines, line, maximumLayers) <==> Harmless(Run(lines, maximumLayers), line, maximumLayers)
  {
    hide Run, LastKey, SectionAfter;
    LinesTell(lines, maximumLayers);
  }

  /** For every input: the markers replay as a stack that after each line holds exactly the current section
      and its ancestors, if and only if no line is a default header in a section of two or more segments or a
      key with a marker's name that does not repeat what stands before it. And then, at the end of the input,
      everything is closed. */
  lemma MarkersMatch(lines: seq<Line>, maximumLayers: nat)
    requires forall k :: 0 <= k < |lines| ==> ValidLine(lines[k])
    ensures AllBalanced(lines, maximumLayers, |lines|) <==> Clean(lines, maximumLayers)
    ensures Clean(lines, maximumLayers) ==> Replay(Finish(Run(lines, maximumLayers))) == Open([])
  {
    hide Harmless, Balanced, Settled, Finish, MayFollow;
    BalancedExactly(lines, maximumLayers, |lines|);
    assert lines[..|lines|] == lines;
    forall k | 0 <= k < |lines|
      ensures MayFollow(lines[..k], lines[k], maximumLayers) <==> Harmless(Run(lines[..k], maximumLayers), lines[k], maximumLayers)
    {
      MayFollowIsHarmless(lines[..k], lines[k], maximumLayers);
    }
    if AllHarmless(lines, maximumLayers, |lines|) {
      FinishCloses(Run(lines, maximumLayers));
    }
  }

  /** Where it fails: a lone key `++` is taken for a marker, and no stack of sections explains the items. */
  lemma MarkerKeyBreaks()
    ensures Replay(Finish(Run([Entry([], OPEN, ["1"])], 255))) == Broken
  {
    var key := Entry([], OPEN, ["1"]);
    assert Front([key]) == [];
    ReplayAppend([], ConfigItem([], OPEN, ["1"]));
  }

  /** Where it does not: right after the header the key only adds its values to the marker. */
  lemma MarkerKeyAfterHeader()
    ensures var lines := [SectionHeader(["a"]), Entry(["a"], OPEN, ["1"])];
            Clean(lines, 255) && Replay(Finish(Run(lines, 255))) == Open([])
  {
    var header, key := SectionHeader(["a"]), Entry(["a"], OPEN, ["1"]);
    var lines := [header, key];
    assert lines[..0] == [] && lines[..1] == [header];
    assert LastKey([header], 255) == Key(["a"], OPEN);
    assert MayFollow([header], key, 255) && MayFollow([], header, 255);
    MarkersMatch(lines, 255);
  }

  /** Where it fails: after `[a.b]`, `[default]` and a key, section a is still open at the end. */
  lemma DefaultLeavesOpen()
    ensures var lines := [SectionHeader(["a", "b"]), DefaultHeader, Entry([], "k", ["1"])];
            Replay(Finish(Run(lines, 255))) == Open([["a"]])
  {
    var lines := [SectionHeader(["a", "b"]), DefaultHeader, Entry([], "k", ["1"])];
    var s1 := Run([SectionHeader(["a", "b"])], 255);
    assert Front([SectionHeader(["a", "b"])]) == [];
    StartSettled();
    HarmlessStep(State([], []), SectionHeader(["a", "b"]), 255);
    LeaveReady(s1);
    JustClosedReplay(LeaveSection(s1), ["a", "b"]);
    assert Front(["a", "b"]) == ["a"];
    assert Chain(["a"]) == [["a"]] by { assert Front(["a"]) == []; EmptyChain(); }
    var s2 := Step(s1, DefaultHeader, 255);
    assert Front(lines[..2]) == [SectionHeader(["a", "b"])] && Front(lines) == lines[..2];
    assert Run(lines[..2], 255) == s2;
    assert Last(s2.output).name == CLOSE;
    ReplayAppend(s2.output, ConfigItem([], "k", ["1"]));
  }
}
