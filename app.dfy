/**
 * The selection handler and the read-evaluate-print loop of src/main.rs.
 * The selection widget and the confirm prompt are oracles: the user's
 * behaviour is a script of turns, one per loop iteration, and what the
 * program prints to standard output is a ghost sequence of lines.
 */
module App {
  import opened Wrappers
  import opened Paths
  import opened Navigator

  // ---------------------------------------------------------------------------
  // Stripping the index prefix: Regex ^\[[0-9]+\]  replaced by ""
  // ---------------------------------------------------------------------------

  /** Length of the run of decimal digits that opens `s`. */
  function DigitRun(s: string): (n: nat)
    ensures n <= |s|
    ensures forall k :: 0 <= k < n ==> IsDigit(s[k])
    ensures n < |s| ==> !IsDigit(s[n])
  {
    if s != [] && IsDigit(s[0]) then 1 + DigitRun(s[1..]) else 0
  }

  /** `p` is a whole match of the pattern: '[', one or more digits, then "] ". */
  predicate IsIndexPrefix(p: string) {
    |p| >= 4 && p[0] == '[' && p[|p| - 2..] == "] " &&
    forall k :: 1 <= k < |p| - 2 ==> IsDigit(p[k])
  }

  /** The anchored pattern matches somewhere at the start of `s`. */
  predicate HasIndexPrefix(s: string) {
    exists n :: 0 <= n <= |s| && IsIndexPrefix(s[..n])
  }

  /**
   * The label with one leading "[digits] " removed, if it has one; the
   * label unchanged otherwise. What is removed is always a whole match.
   */
  function Strip(text: string): (r: string)
    ensures |r| <= |text| && r == text[|text| - |r|..]
    ensures r != text ==> IsIndexPrefix(text[..|text| - |r|])
  {
    if |text| > 0 && text[0] == '[' then
      var n := DigitRun(text[1..]);
      if n > 0 && "] " <= text[n + 1..] then
        assert text[..n + 3][n + 1..] == "] ";
        text[n + 3..]
      else text
    else text
  }

  lemma {:induction false} DigitRunOf(d: string, t: string)
    requires forall k :: 0 <= k < |d| ==> IsDigit(d[k])
    requires t == [] || !IsDigit(t[0])
    ensures DigitRun(d + t) == |d|
  {
    if d != [] {
      assert (d + t)[1..] == d[1..] + t;
      DigitRunOf(d[1..], t);
    }
  }

  /** Strip removes a whole index prefix and nothing more. */
  lemma StripPrefixed(p: string, rest: string)
    requires IsIndexPrefix(p)
    ensures Strip(p + rest) == rest
  {
    var text := p + rest;
    var d := p[1..|p| - 2];
    assert text[1..] == d + ("] " + rest);
    DigitRunOf(d, "] " + rest);
    assert text[|d| + 1..] == "] " + rest;
    assert text[|d| + 3..] == rest;
  }

  /** The round trip with the indexing loop: strip("[i] " + s) == s, for every s. */
  lemma StripIndexed(i: nat, s: string)
    ensures Strip(IndexPrefix(i) + s) == s
  {
    var p := IndexPrefix(i);
    assert p[1..|p| - 2] == NatToString(i);
    assert IsIndexPrefix(p);
    assert IndexPrefix(i) + s == p + s;
    StripPrefixed(p, s);
  }

  /** Strip changes a label exactly when the label opens with the pattern. */
  lemma StripChangesIff(text: string)
    ensures Strip(text) != text <==> HasIndexPrefix(text)
  {
    var r := Strip(text);
    if r != text {
      assert IsIndexPrefix(text[..|text| - |r|]);
    }
    if HasIndexPrefix(text) {
      var m :| 0 <= m <= |text| && IsIndexPrefix(text[..m]);
      assert text == text[..m] + text[m..];
      StripPrefixed(text[..m], text[m..]);
    }
  }

  // ---------------------------------------------------------------------------
  // handle_selection
  // ---------------------------------------------------------------------------

  /** The effect of one handled selection. */
  datatype StepResult = StepResult(path: Path, cont: bool, printed: Option<string>, prompted: bool)

  /**
   * handle_selection as a function: index 0 finalizes (silently stopping at the
   * origin, otherwise confirming unless forced), index 1 pops, any other index
   * pushes the stripped label. `answer` is what the confirm prompt returns if shown.
   */
  function Step(origin: Path, path: Path, options: seq<string>, index: nat, force: bool, answer: bool): (r: StepResult)
    requires index >= 2 ==> index < |options|
    ensures r.printed.Some? ==> !r.cont && r.path == path && r.printed.value == Render(path)
    ensures r.printed.Some? ==> Render(path) != Render(origin)
    ensures r.prompted ==> index == 0 && !force && r.path == path
    ensures r.path == path || (index == 1 && r.path == Pop(path))
            || (index >= 2 && r.path == Push(path, Strip(options[index])))
  {
    if index == 0 then
      if Render(path) == Render(origin) then StepResult(path, false, None, false)
      else
        var confirm := force || answer;
        if confirm then StepResult(path, false, Some(Render(path)), !force)
        else StepResult(path, true, None, !force)
    else if index == 1 then StepResult(Pop(path), true, None, false)
    else StepResult(Push(path, Strip(options[index])), true, None, false)
  }

  /** Index 0 at the origin ends the loop: no prompt, no output, path unchanged. */
  lemma StepSelfAtOrigin(origin: Path, path: Path, options: seq<string>, force: bool, answer: bool)
    requires Render(path) == Render(origin)
    ensures Step(origin, path, options, 0, force, answer) == StepResult(path, false, None, false)
  {
  }

  /** Index 0 away from the origin with force: no prompt, the path printed once, the loop ends. */
  lemma StepSelfForced(origin: Path, path: Path, options: seq<string>, answer: bool)
    requires Render(path) != Render(origin)
    ensures Step(origin, path, options, 0, true, answer) == StepResult(path, false, Some(Render(path)), false)
  {
  }

  /** Index 0 away from the origin, not forced: the prompt decides between printing and going on. */
  lemma StepSelfConfirm(origin: Path, path: Path, options: seq<string>, answer: bool)
    requires Render(path) != Render(origin)
    ensures var r := Step(origin, path, options, 0, false, answer);
      r.prompted && r.path == path && r.cont == !answer &&
      r.printed == (if answer then Some(Render(path)) else None)
  {
  }

  /**
   * For well-formed paths the string comparison is path equality: index 0
   * stops silently exactly at the origin, and prints exactly elsewhere when confirmed.
   */
  lemma StepSelfPrintsIffAway(origin: Path, path: Path, options: seq<string>, answer: bool)
    requires WellFormed(origin) && WellFormed(path)
    ensures var r := Step(origin, path, options, 0, true, answer);
      (r.printed == Some(Render(path)) <==> path != origin) && !r.cont
  {
    RenderInjective(path, origin);
  }

  /** Index 1 pops one component, stays at the root, and the loop goes on. */
  lemma StepParent(origin: Path, path: Path, options: seq<string>, force: bool, answer: bool)
    ensures var r := Step(origin, path, options, 1, force, answer);
      r.cont && r.printed == None && !r.prompted &&
      (path == [] ==> r.path == []) &&
      (path != [] ==> r.path == path[..|path| - 1])
  {
  }

  /**
   * Any index from 2 on descends into the child the listing produced: in
   * indexed mode its label is the stem itself, in unindexed mode the stem is
   * stripped all the same.
   */
  lemma StepChildOfListing(origin: Path, path: Path, entries: seq<Option<DirEntry>>, noIndex: bool, all: bool,
                           index: nat, force: bool, answer: bool)
    requires 2 <= index < 2 + |ChildLabels(entries, all)|
    ensures var options := PathOptions(entries, noIndex, all);
      var child := ChildLabels(entries, all)[index - 2];
      var r := Step(origin, path, options, index, force, answer);
      r.cont && r.printed == None && !r.prompted &&
      r.path == Push(path, if noIndex then Strip(child) else child)
  {
    var child := ChildLabels(entries, all)[index - 2];
    if !noIndex {
      StripIndexed(index, child);
    }
  }

  /** A descent followed by index 1 returns to where it started. */
  lemma StepChildThenParent(origin: Path, path: Path, options: seq<string>, options': seq<string>,
                            index: nat, force: bool, answer: bool)
    requires 2 <= index < |options|
    ensures var down := Step(origin, path, options, index, force, answer);
      Step(origin, down.path, options', 1, force, answer).path == path
  {
    PopPush(path, Strip(options[index]));
  }

  /**
   * Labels are stems, so a directory named "v1.2" is listed as "v1" and
   * choosing it pushes "v1", a different name from the directory's own.
   */
  lemma StemLabelLeavesName(origin: Path, path: Path, force: bool, answer: bool)
    ensures var entries := [Some(DirEntry("v1.2", true))];
      ChildLabels(entries, false) == ["v1"] &&
      var r := Step(origin, path, PathOptions(entries, false, false), 2, force, answer);
      r.path == path + ["v1"] && r.path != path + ["v1.2"]
  {
    var entries := [Some(DirEntry("v1.2", true))];
    StemDropsExtension("v1", "2");
    assert "v1" + "." + "2" == "v1.2";
    assert entries[1..] == [];
    assert ChildLabels(entries, false) == ["v1"];
    StepChildOfListing(origin, path, entries, false, false, 2, force, answer);
  }

  // ---------------------------------------------------------------------------
  // The loop of main
  // ---------------------------------------------------------------------------

  /** The command-line flags (results only sizes the selection widget's page). */
  datatype Flags = Flags(noIndex: bool, all: bool, results: nat, force: bool, simple: bool)

  /** One iteration's user behaviour: the selection (None for escape) and the answer to the confirm prompt if shown. */
  datatype Turn = Turn(pick: Option<nat>, confirm: bool)

  /**
   * How main ends: Ok(()) after a cancel or a finalize, an I/O error through `?`,
   * a panic on an out-of-range index, or (model only) still waiting for input when the script runs out.
   */
  datatype Exit = Done | Failed(error: IoError) | Panicked | AwaitingInput

  datatype Outcome = Outcome(path: Path, exit: Exit, printed: seq<string>)

  /** The flags that turn indexing off: `simple` as well as `no_index`. */
  function Unindexing(flags: Flags): (r: bool)
    ensures flags.simple ==> r
    ensures !flags.simple ==> (r <==> flags.noIndex)
  {
    flags.simple || flags.noIndex
  }

  /** Under `simple` or `no_index` the labels are the plain ones; otherwise each carries its index. */
  lemma UnindexingLabels(flags: Flags, entries: seq<Option<DirEntry>>)
    ensures var options := PathOptions(entries, Unindexing(flags), flags.all);
      var plain := Unindexed(entries, flags.all);
      |options| == |plain| &&
      (Unindexing(flags) ==> options == plain) &&
      (!Unindexing(flags) ==> forall i :: 0 <= i < |options| ==> options[i] == IndexPrefix(i) + plain[i])
  {
    var options := PathOptions(entries, Unindexing(flags), flags.all);
    var plain := Unindexed(entries, flags.all);
    forall i | 0 <= i < |options|
      ensures options[i] == Decorated(i, plain[i], Unindexing(flags))
    {
      if i >= 2 {
        assert plain[i] == plain[2..][i - 2];
      }
    }
  }

  /**
   * Whether get_curr_dir can describe `p` when the header is drawn: it expects a
   * parent and a file stem, and the root has neither while a path ending in ".."
   * has no file name.
   */
  predicate CurrDirDefined(p: Path): (b: bool)
    ensures b ==> p != [] && Push(Pop(p), p[|p| - 1]) == p
    ensures b <==> p != [] && p[|p| - 1] != ".."
  {
    p != [] && p[|p| - 1] != ".."
  }

  /**
   * The loop of main, run from `path` over a script of turns, as a function.
   * Each iteration draws the header (unless `simple`), reads the directory,
   * then takes the next turn.
   */
  function RunSpec(origin: Path, path: Path, fs: Path -> Listing, flags: Flags, turns: seq<Turn>): (r: Outcome)
    ensures r.printed != [] ==> r.exit == Done
    ensures r.exit.Failed? ==> r.printed == [] && fs(r.path) == Err(r.exit.error)
    decreases |turns|
  {
    if !flags.simple && !CurrDirDefined(path) then Outcome(path, Panicked, [])
    else match fs(path)
      case Err(e) => Outcome(path, Failed(e), [])
      case Ok(entries) =>
        if turns == [] then Outcome(path, AwaitingInput, [])
        else
          var options := PathOptions(entries, Unindexing(flags), flags.all);
          match turns[0].pick
          case None => Outcome(path, Done, [])
          case Some(index) =>
            if index >= |options| then Outcome(path, Panicked, [])
            else
              var s := Step(origin, path, options, index, flags.force, turns[0].confirm);
              if s.cont then RunSpec(origin, s.path, fs, flags, turns[1..])
              else Outcome(s.path, Done, if s.printed.Some? then [s.printed.value] else [])
  }

  /** At most one line is ever printed, only when the loop ends normally, and it is the final path, never the origin. */
  lemma {:induction false} RunPrintsAtMostOnce(origin: Path, path: Path, fs: Path -> Listing, flags: Flags, turns: seq<Turn>)
    ensures var o := RunSpec(origin, path, fs, flags, turns);
      |o.printed| <= 1 &&
      (o.printed != [] ==> o.exit == Done && o.printed == [Render(o.path)] && Render(o.path) != Render(origin))
    decreases |turns|
  {
    if (flags.simple || CurrDirDefined(path)) && turns != [] && fs(path).Ok? && turns[0].pick.Some? {
      var options := PathOptions(fs(path).value, Unindexing(flags), flags.all);
      var index := turns[0].pick.value;
      if index < |options| {
        var s := Step(origin, path, options, index, flags.force, turns[0].confirm);
        if s.cont {
          RunPrintsAtMostOnce(origin, s.path, fs, flags, turns[1..]);
        }
      }
    }
  }

  /**
   * With the header on, the loop panics before reading at the root or at a
   * path ending in "..": get_curr_dir's `expect` fails there.
   */
  lemma RunPanicsInHeader(origin: Path, path: Path, fs: Path -> Listing, flags: Flags, turns: seq<Turn>)
    requires !flags.simple && !CurrDirDefined(path)
    ensures RunSpec(origin, path, fs, flags, turns) == Outcome(path, Panicked, [])
  {
  }

  /** So going up from /home with the header on ends in a panic at the root. */
  lemma RunParentToRootPanics(fs: Path -> Listing, flags: Flags, turns: seq<Turn>)
    requires !flags.simple && fs(["home"]).Ok?
    requires turns != [] && turns[0].pick == Some(1)
    ensures RunSpec(["home"], ["home"], fs, flags, turns) == Outcome([], Panicked, [])
  {
    var options := PathOptions(fs(["home"]).value, Unindexing(flags), flags.all);
    assert RunSpec(["home"], ["home"], fs, flags, turns) == RunSpec(["home"], [], fs, flags, turns[1..]);
  }

  /** A read error aborts the loop at once, with no output. */
  lemma RunAbortsOnReadError(origin: Path, path: Path, fs: Path -> Listing, flags: Flags, turns: seq<Turn>)
    requires flags.simple || CurrDirDefined(path)
    requires fs(path).Err?
    ensures RunSpec(origin, path, fs, flags, turns) == Outcome(path, Failed(fs(path).error), [])
  {
  }

  /** An index past the end of the options panics, as indexing a Vec out of range does. */
  lemma RunPanicsOutOfRange(origin: Path, path: Path, fs: Path -> Listing, flags: Flags, turns: seq<Turn>, index: nat)
    requires flags.simple || CurrDirDefined(path)
    requires turns != [] && fs(path).Ok? && turns[0].pick == Some(index)
    requires index >= 2 + |ChildLabels(fs(path).value, flags.all)|
    ensures RunSpec(origin, path, fs, flags, turns) == Outcome(path, Panicked, [])
  {
  }

  /** Escape in the selection widget ends the loop with no output. */
  lemma RunCancel(origin: Path, path: Path, fs: Path -> Listing, flags: Flags, turns: seq<Turn>)
    requires flags.simple || CurrDirDefined(path)
    requires turns != [] && fs(path).Ok? && turns[0].pick == None
    ensures RunSpec(origin, path, fs, flags, turns) == Outcome(path, Done, [])
  {
  }

  /** Choosing a child continues the loop one level down, whatever the indexing flags. */
  lemma RunDescend(origin: Path, path: Path, fs: Path -> Listing, flags: Flags, turns: seq<Turn>, index: nat)
    requires flags.simple || CurrDirDefined(path)
    requires turns != [] && fs(path).Ok? && turns[0].pick == Some(index)
    requires 2 <= index < 2 + |ChildLabels(fs(path).value, flags.all)|
    ensures var child := ChildLabels(fs(path).value, flags.all)[index - 2];
      RunSpec(origin, path, fs, flags, turns) ==
      RunSpec(origin, Push(path, if Unindexing(flags) then Strip(child) else child), fs, flags, turns[1..])
  {
    StepChildOfListing(origin, path, fs(path).value, Unindexing(flags), flags.all, index,
                       flags.force, turns[0].confirm);
  }

  /** The loop goes on only while it has turns: it ends through Done, an error or a panic before then. */
  lemma {:induction false} RunUsesItsTurns(origin: Path, path: Path, fs: Path -> Listing, flags: Flags, turns: seq<Turn>)
    ensures var o := RunSpec(origin, path, fs, flags, turns);
      o.exit == AwaitingInput ==> o.printed == [] && (turns == [] ==> o.path == path)
    decreases |turns|
  {
    if (flags.simple || CurrDirDefined(path)) && turns != [] && fs(path).Ok? && turns[0].pick.Some? {
      var options := PathOptions(fs(path).value, Unindexing(flags), flags.all);
      var index := turns[0].pick.value;
      if index < |options| {
        var s := Step(origin, path, options, index, flags.force, turns[0].confirm);
        if s.cont {
          RunUsesItsTurns(origin, s.path, fs, flags, turns[1..]);
        }
      }
    }
  }

  /** One iteration of the loop when the read succeeds and the pick is in range. */
  lemma RunSpecSelect(origin: Path, path: Path, fs: Path -> Listing, flags: Flags, turns: seq<Turn>,
                      options: seq<string>, index: nat)
    requires flags.simple || CurrDirDefined(path)
    requires turns != [] && fs(path).Ok? && turns[0].pick == Some(index)
    requires options == PathOptions(fs(path).value, Unindexing(flags), flags.all) && index < |options|
    ensures var s := Step(origin, path, options, index, flags.force, turns[0].confirm);
      RunSpec(origin, path, fs, flags, turns) ==
      if s.cont then RunSpec(origin, s.path, fs, flags, turns[1..])
      else Outcome(s.path, Done, if s.printed.Some? then [s.printed.value] else [])
  {
  }

  /** A sample tree: /home/u/proj holds two directories, one hidden directory and a file. */
  function DemoFs(p: Path): Listing {
    if p == ["home", "u", "proj"] then
      Ok([Some(DirEntry("src", true)), Some(DirEntry("target", true)),
          Some(DirEntry(".git", true)), Some(DirEntry("Cargo.toml", false))])
    else Ok([])
  }

  /** Listing /home/u/proj without `all` keeps "src" and "target", in that order. */
  lemma DemoListing()
    ensures PathOptions(DemoFs(["home", "u", "proj"]).value, true, false) == [".", "..", "src", "target"]
  {
    var entries := DemoFs(["home", "u", "proj"]).value;
    DemoChildren();
    var o := PathOptions(entries, true, false);
    assert |o| == 4 && o[2] == "src" && o[3] == "target";
  }

  lemma DemoChildren()
    ensures ChildLabels(DemoFs(["home", "u", "proj"]).value, false) == ["src", "target"]
  {
    var entries := DemoFs(["home", "u", "proj"]).value;
    StemKeepsDotless("src");
    StemKeepsDotless("target");
    assert entries == [entries[0]] + [entries[1]] + [entries[2]] + [entries[3]];
    ChildLabelsSingle(entries[0], false);
    ChildLabelsSingle(entries[1], false);
    ChildLabelsSingle(entries[2], false);
    ChildLabelsSingle(entries[3], false);
    ChildLabelsAppend([entries[0]], [entries[1]], false);
    ChildLabelsAppend([entries[0]] + [entries[1]], [entries[2]], false);
    ChildLabelsAppend([entries[0]] + [entries[1]] + [entries[2]], [entries[3]], false);
  }

  /**
   * In the sample tree, from /home/u/proj, unindexed and forced: choosing "src"
   * then ".." returns to the origin, where "." ends the loop without printing anything.
   */
  lemma DemoBackAtOriginPrintsNothing()
    ensures var proj := ["home", "u", "proj"];
      RunSpec(proj, proj, DemoFs, Flags(true, false, 10, true, false),
              [Turn(Some(2), false), Turn(Some(1), false), Turn(Some(0), false)])
        == Outcome(proj, Done, [])
  {
    var proj := ["home", "u", "proj"];
    var flags := Flags(true, false, 10, true, false);
    DemoListing();
    var options := PathOptions(DemoFs(proj).value, true, false);
    var turns := [Turn(Some(2), false), Turn(Some(1), false), Turn(Some(0), false)];
    assert Strip("src") == "src";
    var src := Push(proj, "src");
    RunSpecSelect(proj, proj, DemoFs, flags, turns, options, 2);
    var options' := PathOptions(DemoFs(src).value, true, false);
    assert turns[1..][0] == Turn(Some(1), false);
    RunSpecSelect(proj, src, DemoFs, flags, turns[1..], options', 1);
    assert turns[1..][1..] == [Turn(Some(0), false)];
    RunSpecSelect(proj, proj, DemoFs, flags, turns[1..][1..], options, 0);
  }

  /**
   * The navigation state of main: the origin, fixed at launch, and the
   * current path, which handle_selection changes; `output` is what went to stdout.
   */
  class Session {
    const origin: Path
    var path: Path
    ghost var output: seq<string>

    constructor (cwd: Path)
      ensures origin == cwd && path == cwd && output == []
    {
      origin := cwd;
      path := cwd;
      output := [];
    }

    /** handle_selection: apply the chosen index to `path`; the result says whether the loop goes on. */
    method HandleSelection(options: seq<string>, index: nat, force: bool, answer: bool) returns (cont: bool, prompted: bool)
      requires index >= 2 ==> index < |options|
      modifies this
      ensures var s := Step(origin, old(path), options, index, force, answer);
        path == s.path && cont == s.cont && prompted == s.prompted &&
        output == old(output) + (if s.printed.Some? then [s.printed.value] else [])
    {
      prompted := false;
      match index {
        case 0 =>
          if Render(path) == Render(origin) {
            return false, false;
          }
          var confirm := if force then true else answer;
          prompted := !force;
          if confirm {
            output := output + [Render(path)];
            return false, prompted;
          }
        case 1 =>
          path := Pop(path);
        case _ =>
          var result := Strip(options[index]);
          path := Push(path, result);
      }
      cont := true;
    }

    /** The `while repl` loop of main, driven by a script of turns. */
    method Run(fs: Path -> Listing, flags: Flags, turns: seq<Turn>) returns (exit: Exit)
      modifies this
      ensures var o := RunSpec(origin, old(path), fs, flags, turns);
        path == o.path && exit == o.exit && output == old(output) + o.printed
    {
      ghost var o := RunSpec(origin, path, fs, flags, turns);
      var repl := true;
      var k := 0;
      exit := AwaitingInput;
      while repl
        invariant 0 <= k <= |turns|
        invariant repl ==> output == old(output) && RunSpec(origin, path, fs, flags, turns[k..]) == o
        invariant !repl ==> path == o.path && exit == o.exit && output == old(output) + o.printed
        decreases |turns| - k
      {
        if !flags.simple && !CurrDirDefined(path) {
          RunPanicsInHeader(origin, path, fs, flags, turns[k..]);
          exit := Panicked;
          return;
        }
        var options := GetPathOptions(fs(path), Unindexing(flags), flags.all);
        if options.Err? {
          RunAbortsOnReadError(origin, path, fs, flags, turns[k..]);
          exit := Failed(options.error);
          return;
        }
        if k == |turns| {
          assert turns[k..] == [];
          exit := AwaitingInput;
          return;
        }
        assert turns[k..][0] == turns[k] && turns[k..][1..] == turns[k + 1..];
        match turns[k].pick {
          case None =>
            RunCancel(origin, path, fs, flags, turns[k..]);
            exit := Done;
            repl := false;
          case Some(index) =>
            if index >= |options.value| {
              RunPanicsOutOfRange(origin, path, fs, flags, turns[k..], index);
              exit := Panicked;
              return;
            }
            RunSpecSelect(origin, path, fs, flags, turns[k..], options.value, index);
            var cont, prompted := HandleSelection(options.value, index, flags.force, turns[k].confirm);
            if !cont {
              exit := Done;
            }
            repl := cont;
        }
        k := k + 1;
      }
    }
  }

  /** main: start at the working directory, which is both origin and path, and run the loop. */
  method Navigate(cwd: Path, fs: Path -> Listing, flags: Flags, turns: seq<Turn>) returns (exit: Exit, ghost printed: seq<string>)
    ensures exit == RunSpec(cwd, cwd, fs, flags, turns).exit
    ensures printed == RunSpec(cwd, cwd, fs, flags, turns).printed
  {
    var session := new Session(cwd);
    exit := session.Run(fs, flags, turns);
    printed := session.output;
  }
}
