/** The keys and values that the configuration reader of CLI11.hpp gives back: what `from_config` answers apart from its
    section markers, told from the lines alone. */
module CliSectionValues {
  import opened CliSections

  predicate Plain(item: ConfigItem) { item.name != OPEN && item.name != CLOSE }

  /** The items that are no markers, in order. */
  function Keys(output: seq<ConfigItem>): seq<ConfigItem> {
    if output == [] then [] else Keys(Front(output)) + if Plain(Last(output)) then [Last(output)] else []
  }

  lemma KeysAppend(output: seq<ConfigItem>, item: ConfigItem)
    ensures Keys(output + [item]) == Keys(output) + if Plain(item) then [item] else []
  {
    assert Front(output + [item]) == output;
  }

  // ---------------------------------------------------------------------
  // Runs of equal keys, from the lines
  // ---------------------------------------------------------------------

  /** A key that counts and has no marker's name. */
  predicate Counts(line: Line, maximumLayers: nat) {
    line.Entry? && |line.parents| <= maximumLayers && line.name != OPEN && line.name != CLOSE
  }

  /** The last line is such a key, and not the one that counted last before it. */
  predicate Begins(lines: seq<Line>, maximumLayers: nat) {
    lines != [] && Counts(Last(lines), maximumLayers)
    && LastKey(Front(lines), maximumLayers) != Key(Last(lines).parents, Last(lines).name)
  }

  /** How many runs of equal keys begin in the lines. */
  function Runs(lines: seq<Line>, maximumLayers: nat): nat {
    if lines == [] then 0 else Runs(Front(lines), maximumLayers) + if Begins(lines, maximumLayers) then 1 else 0
  }

  /** The run that line k belongs to. */
  function RunOf(lines: seq<Line>, maximumLayers: nat, k: nat): int
    requires k < |lines|
  {
    Runs(lines[..k + 1], maximumLayers) - 1
  }

  /** The values of run r, in the order of its lines. */
  function ValuesOf(lines: seq<Line>, maximumLayers: nat, r: int): seq<string> {
    if lines == [] then []
    else
      ValuesOf(Front(lines), maximumLayers, r)
      + (if Counts(Last(lines), maximumLayers) && Runs(lines, maximumLayers) - 1 == r then Last(lines).inputs else [])
  }

  // ---------------------------------------------------------------------
  // The markers between do not touch them
  // ---------------------------------------------------------------------

  lemma {:induction false} CloseKeeps(output: seq<ConfigItem>, m: nat)
    requires output != [] && m >= 1 && Last(output).name == CLOSE
    ensures Keys(CloseTo(output, m)) == Keys(output) && Last(CloseTo(output, m)).name == CLOSE
    ensures OpenValues(CloseTo(output, m)) == OpenValues(output)
    decreases |Last(output).parents|
  {
    var back := Last(output);
    if |back.parents| >= m {
      var item := back.(parents := Front(back.parents));
      KeysAppend(output, item);
      OpenAppend(output, item);
      CloseKeeps(output + [item], m);
    }
  }

  lemma {:induction false} OpenKeeps(output: seq<ConfigItem>, path: Path, k: nat)
    ensures Keys(OpenFrom(output, path, k)) == Keys(output) && OpenValues(OpenFrom(output, path, k)) == OpenValues(output)
    decreases |path| - k
  {
    if k + 1 < |path| {
      var item := Marker(path[..k + 1], OPEN);
      KeysAppend(output, item);
      OpenAppend(output, item);
      OpenKeeps(output + [item], path, k + 1);
    }
  }

  lemma LastTaken(output: seq<ConfigItem>)
    requires output != [] && Last(output).name == CLOSE
    ensures Keys(Front(output)) == Keys(output) && OpenValues(Front(output)) == OpenValues(output)
  {
  }

  lemma PreparedKeeps(output: seq<ConfigItem>, path: Path)
    requires path != []
    ensures Keys(Prepared(output, path)) == Keys(output) && OpenValues(Prepared(output, path)) == OpenValues(output)
  {
    hide Keys, OpenValues, CloseTo, OpenFrom, Common;
    if output != [] && Last(output).name == CLOSE {
      var m := if |path| > 1 then |path| else 2;
      var closed := CloseTo(output, m);
      CloseKeeps(output, m);
      if |path| > 1 {
        var back := Last(closed).parents;
        var pairs := if |back| < |path| - 1 then |back| else |path| - 1;
        var common := Common(back, path, pairs);
        LastTaken(closed);
        CloseKeeps(closed, common + 2);
        OpenKeeps(if common == pairs then Front(closed) else CloseTo(closed, common + 2), path, common);
      }
    } else {
      OpenKeeps(output, path, 0);
    }
  }

  lemma LeaveKeeps(st: CliSections.State)
    ensures Keys(LeaveSection(st)) == Keys(st.output) && OpenValues(LeaveSection(st)) == OpenValues(st.output)
  {
    hide Keys, OpenValues;
    KeysAppend(st.output, Marker(st.current, CLOSE));
    OpenAppend(st.output, Marker(st.current, CLOSE));
  }

  lemma FinishKeeps(st: CliSections.State)
    ensures Keys(Finish(st)) == Keys(st.output) && OpenValues(Finish(st)) == OpenValues(st.output)
  {
    hide Keys, OpenValues;
    LeaveKeeps(st);
    if st.current != [] { CloseKeeps(LeaveSection(st), 2); }
  }

  /** A header leaves the keys alone. */
  lemma HeaderKeeps(st: CliSections.State, line: Line, maximumLayers: nat)
    requires ValidLine(line) && !line.Entry?
    ensures var next := Step(st, line, maximumLayers).output;
      Keys(next) == Keys(st.output) && OpenValues(next) == OpenValues(st.output)
  {
    hide Keys, OpenValues, Prepared;
    LeaveKeeps(st);
    if line.SectionHeader? {
      PreparedKeeps(LeaveSection(st), line.path);
      KeysAppend(Prepared(LeaveSection(st), line.path), Marker(line.path, OPEN));
      OpenAppend(Prepared(LeaveSection(st), line.path), Marker(line.path, OPEN));
    }
  }

  // ---------------------------------------------------------------------
  // Exactly the runs
  // ---------------------------------------------------------------------

  ghost predicate AllValid(lines: seq<Line>) {
    forall k :: 0 <= k < |lines| ==> ValidLine(lines[k])
  }

  /** One item for each run, with the values of its lines, and each line of a run has the item's parents and name. */
  ghost predicate Tells(items: seq<ConfigItem>, lines: seq<Line>, maximumLayers: nat) {
    && |items| == Runs(lines, maximumLayers)
    && (forall r :: 0 <= r < |items| ==> items[r].inputs == ValuesOf(lines, maximumLayers, r))
    && forall k :: 0 <= k < |lines| && Counts(lines[k], maximumLayers) ==>
         var r := RunOf(lines, maximumLayers, k);
         0 <= r < |items| && items[r].parents == lines[k].parents && items[r].name == lines[k].name
  }

  /** What a counting key finds: the item it repeats is the last key. */
  lemma LastIsKey(output: seq<ConfigItem>)
    requires output != [] && Plain(Last(output))
    ensures Keys(output) != [] && Last(Keys(output)) == Last(output) && Keys(Front(output)) == Front(Keys(output))
  {
  }

  lemma {:induction false} NoMore(lines: seq<Line>, maximumLayers: nat, r: int)
    requires r >= Runs(lines, maximumLayers)
    ensures ValuesOf(lines, maximumLayers, r) == []
    decreases |lines|
  {
    if lines != [] { NoMore(Front(lines), maximumLayers, r); }
  }

  lemma LinesBefore(lines: seq<Line>, maximumLayers: nat, k: nat)
    requires lines != [] && k < |lines| - 1
    ensures Front(lines)[k] == lines[k] && RunOf(Front(lines), maximumLayers, k) == RunOf(lines, maximumLayers, k)
  {
    assert Front(lines)[..k + 1] == lines[..k + 1];
  }

  lemma LineLast(lines: seq<Line>, maximumLayers: nat)
    requires lines != []
    ensures RunOf(lines, maximumLayers, |lines| - 1) == Runs(lines, maximumLayers) - 1
  {
    assert lines[..|lines|] == lines;
  }

  /** A line that is no counting key changes nothing. */
  lemma TellsOn(items: seq<ConfigItem>, lines: seq<Line>, maximumLayers: nat)
    requires lines != [] && !Counts(Last(lines), maximumLayers) && Tells(items, Front(lines), maximumLayers)
    ensures Tells(items, lines, maximumLayers)
  {
    hide RunOf;
    forall k | 0 <= k < |lines| && Counts(lines[k], maximumLayers)
      ensures var r := RunOf(lines, maximumLayers, k); 0 <= r < |items| && items[r].parents == lines[k].parents && items[r].name == lines[k].name
    {
      LinesBefore(lines, maximumLayers, k);
    }
  }

  /** A key that begins a run adds its item. */
  lemma TellsNew(items: seq<ConfigItem>, lines: seq<Line>, maximumLayers: nat)
    requires lines != [] && Begins(lines, maximumLayers) && Tells(items, Front(lines), maximumLayers)
    ensures Tells(items + [ConfigItem(Last(lines).parents, Last(lines).name, Last(lines).inputs)], lines, maximumLayers)
  {
    hide RunOf;
    var all := items + [ConfigItem(Last(lines).parents, Last(lines).name, Last(lines).inputs)];
    NoMore(Front(lines), maximumLayers, |items|);
    LineLast(lines, maximumLayers);
    forall k | 0 <= k < |lines| && Counts(lines[k], maximumLayers)
      ensures var r := RunOf(lines, maximumLayers, k); 0 <= r < |all| && all[r].parents == lines[k].parents && all[r].name == lines[k].name
    {
      if k < |lines| - 1 { LinesBefore(lines, maximumLayers, k); }
    }
  }

  /** A key that goes on a run adds its values to the last item. */
  lemma TellsMore(items: seq<ConfigItem>, lines: seq<Line>, maximumLayers: nat)
    requires lines != [] && Counts(Last(lines), maximumLayers) && !Begins(lines, maximumLayers)
    requires Tells(items, Front(lines), maximumLayers) && items != []
    requires Last(items).parents == Last(lines).parents && Last(items).name == Last(lines).name
    ensures Tells(Front(items) + [Last(items).(inputs := Last(items).inputs + Last(lines).inputs)], lines, maximumLayers)
  {
    hide RunOf;
    var all := Front(items) + [Last(items).(inputs := Last(items).inputs + Last(lines).inputs)];
    LineLast(lines, maximumLayers);
    forall k | 0 <= k < |lines| && Counts(lines[k], maximumLayers)
      ensures var r := RunOf(lines, maximumLayers, k); 0 <= r < |all| && all[r].parents == lines[k].parents && all[r].name == lines[k].name
    {
      if k < |lines| - 1 { LinesBefore(lines, maximumLayers, k); }
    }
  }

  lemma {:induction false} KeysOfRun(lines: seq<Line>, maximumLayers: nat)
    requires AllValid(lines)
    ensures Tells(Keys(CliSections.Run(lines, maximumLayers).output), lines, maximumLayers)
    decreases |lines|
  {
    hide Keys, Tells, Step;
    if lines == [] {
      assert Keys([]) == [] && Tells([], lines, maximumLayers) by { NothingTold(maximumLayers); }
    } else {
      KeysOfRun(Front(lines), maximumLayers);
      KeysStep(lines, maximumLayers);
    }
  }

  lemma NothingTold(maximumLayers: nat)
    ensures Keys([]) == [] && Tells([], [], maximumLayers)
  {
  }

  lemma KeysStep(lines: seq<Line>, maximumLayers: nat)
    requires lines != [] && AllValid(lines)
    requires Tells(Keys(CliSections.Run(Front(lines), maximumLayers).output), Front(lines), maximumLayers)
    ensures Tells(Keys(Step(CliSections.Run(Front(lines), maximumLayers), Last(lines), maximumLayers).output), lines, maximumLayers)
  {
    hide Keys, Tells, CliSections.Run, LastKey, Prepared;
    var st, line := CliSections.Run(Front(lines), maximumLayers), Last(lines);
    LinesTell(Front(lines), maximumLayers);
    if !line.Entry? {
      HeaderKeeps(st, line, maximumLayers);
      TellsOn(Keys(st.output), lines, maximumLayers);
    } else if Skipped(line, maximumLayers) {
      TellsOn(Keys(st.output), lines, maximumLayers);
    } else if Merged(st.output, line) {
      var item := Last(st.output).(inputs := Last(st.output).inputs + line.inputs);
      KeysAppend(Front(st.output), item);
      if Plain(item) {
        LastIsKey(st.output);
        TellsMore(Keys(st.output), lines, maximumLayers);
      } else {
        KeysAppend(Front(st.output), Last(st.output));
        assert Front(st.output) + [Last(st.output)] == st.output;
        TellsOn(Keys(st.output), lines, maximumLayers);
      }
    } else {
      var item := ConfigItem(line.parents, line.name, line.inputs);
      KeysAppend(st.output, item);
      if Plain(item) {
        TellsNew(Keys(st.output), lines, maximumLayers);
      } else {
        assert Keys(st.output) + [] == Keys(st.output);
        TellsOn(Keys(st.output), lines, maximumLayers);
      }
    }
  }

  /** For every input: apart from the markers, the reader gives one item for each run of equal keys that count, in order,
      with the values of all lines of the run in order. */
  lemma KeysAreRuns(lines: seq<Line>, maximumLayers: nat)
    requires AllValid(lines)
    ensures Tells(Keys(Finish(CliSections.Run(lines, maximumLayers))), lines, maximumLayers)
  {
    hide Keys, Tells, CliSections.Run, Finish;
    KeysOfRun(lines, maximumLayers);
    FinishKeeps(CliSections.Run(lines, maximumLayers));
  }

  /** Every run has a line that begins it. */
  lemma {:induction false} EveryRunBegins(lines: seq<Line>, maximumLayers: nat, r: nat) returns (k: nat)
    requires r < Runs(lines, maximumLayers)
    ensures k < |lines| && Counts(lines[k], maximumLayers) && RunOf(lines, maximumLayers, k) == r && Begins(lines[..k + 1], maximumLayers)
    decreases |lines|
  {
    if r < Runs(Front(lines), maximumLayers) {
      k := EveryRunBegins(Front(lines), maximumLayers, r);
      assert Front(lines)[..k + 1] == lines[..k + 1];
    } else {
      k := |lines| - 1;
      assert lines[..|lines|] == lines;
    }
  }

  // ---------------------------------------------------------------------
  // Values of keys with a marker's name
  // ---------------------------------------------------------------------

  /** The values of all items with the name of an opening marker. */
  function OpenValues(output: seq<ConfigItem>): seq<string> {
    if output == [] then [] else OpenValues(Front(output)) + if Last(output).name == OPEN then Last(output).inputs else []
  }

  lemma OpenAppend(output: seq<ConfigItem>, item: ConfigItem)
    ensures OpenValues(output + [item]) == OpenValues(output) + if item.name == OPEN then item.inputs else []
  {
    assert Front(output + [item]) == output;
  }

  /** The values of all keys of that name that lie not too deep. */
  function OpenInputs(lines: seq<Line>, maximumLayers: nat): seq<string> {
    if lines == [] then []
    else
      OpenInputs(Front(lines), maximumLayers)
      + (if Last(lines).Entry? && Last(lines).name == OPEN && |Last(lines).parents| <= maximumLayers then Last(lines).inputs else [])
  }

  lemma OpenMerge(output: seq<ConfigItem>, inputs: seq<string>)
    requires output != []
    ensures var item := Last(output).(inputs := Last(output).inputs + inputs);
      OpenValues(Front(output) + [item]) == OpenValues(output) + if item.name == OPEN then inputs else []
  {
    hide OpenValues;
    var item := Last(output).(inputs := Last(output).inputs + inputs);
    OpenAppend(Front(output), item);
    OpenAppend(Front(output), Last(output));
    assert Front(output) + [Last(output)] == output;
  }

  /** None of them is lost or made up, and they keep their order. */
  lemma {:induction false} OpenValuesKept(lines: seq<Line>, maximumLayers: nat)
    requires AllValid(lines)
    ensures OpenValues(CliSections.Run(lines, maximumLayers).output) == OpenInputs(lines, maximumLayers)
    ensures OpenValues(Finish(CliSections.Run(lines, maximumLayers))) == OpenInputs(lines, maximumLayers)
    decreases |lines|
  {
    hide OpenValues, Finish, Prepared;
    FinishKeeps(CliSections.Run(lines, maximumLayers));
    if lines == [] {
      assert OpenValues([]) == [] by { NoOpenValues(); }
    } else {
      OpenValuesKept(Front(lines), maximumLayers);
      var st, line := CliSections.Run(Front(lines), maximumLayers), Last(lines);
      if !line.Entry? {
        HeaderKeeps(st, line, maximumLayers);
      } else if !Skipped(line, maximumLayers) {
        if Merged(st.output, line) { OpenMerge(st.output, line.inputs); }
        else { OpenAppend(st.output, ConfigItem(line.parents, line.name, line.inputs)); }
      }
    }
  }

  lemma NoOpenValues()
    ensures OpenValues([]) == []
  {
  }

  function Concatenated(inputs: seq<seq<string>>): seq<string> {
    if inputs == [] then [] else Concatenated(Front(inputs)) + Last(inputs)
  }

  /** Keys right after a header that repeat its marker add their values to it, whatever stands before. */
  lemma {:induction false} MarkerCollects(lines: seq<Line>, path: Path, inputs: seq<seq<string>>, maximumLayers: nat)
    requires AllValid(lines) && path != [] && |path| <= maximumLayers
    ensures var all := lines + [SectionHeader(path)] + seq(|inputs|, i requires 0 <= i < |inputs| => Entry(path, OPEN, inputs[i]));
      AllValid(all) && var st := CliSections.Run(all, maximumLayers);
      st.current == path && st.output != [] && Last(st.output) == ConfigItem(path, OPEN, Concatenated(inputs))
    decreases |inputs|
  {
    hide Prepared;
    var repeats := seq(|inputs|, i requires 0 <= i < |inputs| => Entry(path, OPEN, inputs[i]));
    var all := lines + [SectionHeader(path)] + repeats;
    if inputs == [] {
      assert all == lines + [SectionHeader(path)] && Front(all) == lines;
    } else {
      MarkerCollects(lines, path, Front(inputs), maximumLayers);
      var before := seq(|inputs| - 1, i requires 0 <= i < |inputs| - 1 => Entry(path, OPEN, Front(inputs)[i]));
      assert Front(repeats) == before;
      assert Front(all) == lines + [SectionHeader(path)] + before && Last(all) == Entry(path, OPEN, Last(inputs));
    }
  }

  /** A key that repeats a closing marker adds to it too, but the next header may take that item back, and then the
      values are lost: after `[a]`, `[default]` and a key of section a with the name `--`, the header `[a.b]` does. */
  lemma ClosingValuesLost()
    ensures var lines := [SectionHeader(["a"]), DefaultHeader, Entry(["a"], CLOSE, ["5"])];
      Last(CliSections.Run(lines, 255).output) == ConfigItem(["a"], CLOSE, ["5"])
      && CliSections.Run(lines + [SectionHeader(["a", "b"])], 255).output == [Marker(["a"], OPEN), Marker(["a", "b"], OPEN)]
  {
    var lines := [SectionHeader(["a"]), DefaultHeader, Entry(["a"], CLOSE, ["5"])];
    var a: Path := ["a"];
    var l1, l2 := [SectionHeader(a)], [SectionHeader(a), DefaultHeader];
    var s1, s2, s3 := State([Marker(a, OPEN)], a), State([Marker(a, OPEN), Marker(a, CLOSE)], []),
      State([Marker(a, OPEN), ConfigItem(a, CLOSE, ["5"])], []);
    assert Front(l1) == [] && Front(l2) == l1 && Front(lines) == l2;
    HeaderFirst(a);
    assert CliSections.Run(l1, 255) == s1;
    assert s1.output + [Marker(a, CLOSE)] == s2.output;
    assert CliSections.Run(l2, 255) == Step(s1, DefaultHeader, 255) == s2;
    KeyRepeats(a);
    assert CliSections.Run(lines, 255) == Step(s2, Entry(a, CLOSE, ["5"]), 255) == s3;
    assert Front(lines + [SectionHeader(["a", "b"])]) == lines;
    LastHeader(s3);
  }

  lemma HeaderFirst(a: Path)
    requires |a| == 1
    ensures Step(State([], []), SectionHeader(a), 255) == State([Marker(a, OPEN)], a)
  {
    assert [] + [Marker(a, OPEN)] == [Marker(a, OPEN)];
  }

  lemma KeyRepeats(a: Path)
    requires |a| == 1
    ensures var output := [Marker(a, OPEN), Marker(a, CLOSE)];
      Step(State(output, []), Entry(a, CLOSE, ["5"]), 255) == State([Marker(a, OPEN), ConfigItem(a, CLOSE, ["5"])], [])
  {
    var output := [Marker(a, OPEN), Marker(a, CLOSE)];
    var nothing: seq<string> := [];
    assert Front(output) == [Marker(a, OPEN)] && nothing + ["5"] == ["5"];
  }

  lemma LastHeader(st: CliSections.State)
    requires st == State([Marker(["a"], OPEN), ConfigItem(["a"], CLOSE, ["5"])], [])
    ensures Step(st, SectionHeader(["a", "b"]), 255).output == [Marker(["a"], OPEN), Marker(["a", "b"], OPEN)]
  {
    var path := ["a", "b"];
    assert CloseTo(st.output, 2) == st.output;
    assert Common(["a"], path, 0) == 0;
    assert Common(["a"], path, 1) == 1;
    assert Front(st.output) == [Marker(["a"], OPEN)];
    assert OpenFrom(Front(st.output), path, 1) == Front(st.output);
  }
}
