# term-navigator navigation engine, in Dafny

A model of the core of term-navigator, a terminal directory browser: the user
walks the directory tree one level at a time by picking from a filtered list,
and on confirmation the tool prints the chosen absolute path so that a shell
function can `cd` there. The model covers:

- **Option-list builder** (`src/navigator.rs`, module `Navigator`): a directory
  listing becomes `"."`, `".."`, then the file stems of the readable directory
  entries in enumeration order, hidden names dropped unless `all` is set, and
  (unless indexing is off) every label overwritten in place with `"[i] "`.
  `GetPathOptions` keeps the source's in-place indexing loop.
- **Selection handler and loop** (`src/main.rs`, module `App`): `Step` is
  `handle_selection` as a function, `Session.HandleSelection` the method that
  mutates the current path, `RunSpec` the `while repl` loop of `main` as a
  function, and `Session.Run` / `Navigate` the loop itself. The selection
  widget and the confirm prompt are oracles: a script of `Turn`s, one per
  iteration, each holding the pick (`None` for escape) and the answer the
  prompt would get if shown. What goes to standard output is a ghost sequence.
- **Paths** (module `Paths`): a `PathBuf` as its components below the root
  (`[]` is `/`), with `push`, `pop` and `to_str`.
- **Header arithmetic** (`src/display.rs`, module `Display`): `filler_line`,
  `content_line` and the widths `display_header` derives from the origin.

Behaviours of the code the model keeps as they are:

- Choosing `"."` when the path equals the origin makes `handle_selection`
  return `false` (src/main.rs:47-49), so the loop ends without a prompt and
  without output (`StepSelfAtOrigin`). In the sample tree of
  `DemoBackAtOriginPrintsNothing`, entering `src`, going back up and choosing
  `.` with force therefore prints nothing.
- Indexing is turned off by `--simple` as well as by `--no-index`
  (`Unindexing`, src/main.rs:96).
- Unless `--simple` is set, every iteration draws the header first, and
  `get_curr_dir` expects a parent and a file stem (src/display.rs:44-52): at
  the root, or at a path ending in `..`, the program panics before reading the
  directory (`RunPanicsInHeader`, `RunParentToRootPanics`).

Two more consequences of the code the model makes explicit:

- Labels are file stems, so a directory named `v1.2` is listed as `v1`, and
  choosing it pushes `v1`, not `v1.2` (`StemLabelLeavesName`).
- The prefix strip also runs in unindexed mode, so a directory whose stem is
  itself `"[3] x"` is entered as `x` there (`StepChildOfListing`).

## Model

| member | source | states |
|---|---|---|
| Navigator.FileStem | src/navigator.rs:31-39 | the stem is a prefix of the file name, and non-empty when the name is |
| Navigator.LastDot | src/navigator.rs:34 | the position found holds a '.', with no '.' after it; none is found only when the name has no '.' |
| Navigator.StemDropsExtension | src/navigator.rs:31-39 | the stem of `base + "." + ext` is `base` when `ext` has no '.' (one extension dropped) |
| Navigator.StemKeepsDotless | src/navigator.rs:31-39 | a name whose only '.' is at position 0 (".git"), or that has none, is its own stem |
| Navigator.StemNotHidden | src/navigator.rs:16 | the stem of a name that does not start with '.' does not start with '.' |
| Navigator.ValidPath | src/navigator.rs:7-22 | true iff the entry is a directory and (`all` or its name does not start with '.'); a shown entry's stem is then not hidden either |
| Navigator.ItemLabels | src/navigator.rs:29-39 | one enumerated item gives at most one label: its file stem, exactly when it read successfully and passes ValidPath |
| Navigator.ChildLabels | src/navigator.rs:27-40 | the filter_map/filter/map pipeline: at most one label per entry, concatenated in enumeration order |
| Navigator.ChildLabelsSingle | src/navigator.rs:27-40 | a one-entry listing gives that entry's labels |
| Navigator.ValidIndicesSnoc | src/navigator.rs:27-30 | (helper for ChildLabelsCount) appending an entry adds its position to the valid positions exactly when it reads and passes ValidPath |
| Navigator.ChildLabelsCount | src/navigator.rs:27-43 | the number of child labels equals the number of entries that read successfully and pass ValidPath (so the option count is 2 plus that) |
| Navigator.ChildLabelsAppend | src/navigator.rs:27-40 | the filter/map pipeline distributes over concatenation of listings: child labels keep enumeration order, nothing is sorted |
| Navigator.ChildLabelsMember | src/navigator.rs:7-40 | a label is listed iff some entry read successfully, is a directory, is visible under `all`, and has that stem |
| Navigator.ChildLabelsNotHidden | src/navigator.rs:16-30 | without `all`, no unindexed child label starts with '.' |
| Navigator.NatToString | src/navigator.rs:46 | the index is rendered as a non-empty run of decimal digits without a leading zero |
| Navigator.NatToStringValue | src/navigator.rs:46 | the rendered digits read back as the index |
| Navigator.Unindexed | src/navigator.rs:41-43 | position 0 is ".", position 1 is "..", then exactly the child labels |
| Navigator.PathOptions | src/navigator.rs:41-50 | length is 2 plus the number of child labels; position i holds "[i] " followed by the unindexed label, or the unindexed label alone when indexing is off |
| Navigator.GetPathOptions | src/navigator.rs:24-53 | a failed read returns that error and no list; otherwise the in-place indexing loop yields exactly `PathOptions` |
| Navigator.DigitsValue | src/navigator.rs:46 | (helper for NatToStringValue) the value a digit string denotes |
| Paths.Render | src/main.rs:47 | `to_str` of a path is never empty and starts with '/' |
| Paths.Push | src/main.rs:67 | push adds one component at the end and the string form gains a separator and the name |
| Paths.Pop | src/main.rs:62 | pop at the root leaves the root; elsewhere it drops the last component, which pushing back restores |
| Paths.PopPush | src/main.rs:61-68 | popping undoes a push |
| Paths.RenderInjective | src/main.rs:47 | for well-formed paths, comparing `to_str` strings is the same as comparing paths, in both directions |
| Paths.LastSlashSplit | src/main.rs:47 | (helper for RenderInjective) splitting at the last '/' is unique |
| App.DigitRun | src/main.rs:65 | the run of digits that opens a string: all digits, followed by a non-digit or the end |
| App.Strip | src/main.rs:65-66 | the result is a suffix of the label, and whatever was removed is one whole match of `^\[[0-9]+\] ` |
| App.StripPrefixed | src/main.rs:65-66 | a label that opens with a match loses exactly that match |
| App.StripIndexed | src/main.rs:65-66 | round trip with the indexing loop: `Strip("[i] " + s) == s` for every i and s |
| App.StripChangesIff | src/main.rs:65-66 | the label changes iff it opens with a match; a label without the prefix is returned unchanged |
| App.Step | src/main.rs:38-72 | output happens only when the loop stops and is the current path, never at the origin; a prompt is shown only for index 0 without force; the path is unchanged, popped (index 1) or pushed with the stripped label (index 2 and up) |
| App.StepSelfAtOrigin | src/main.rs:46-49 | index 0 at the origin: the loop stops, no prompt, no output, path unchanged |
| App.StepSelfForced | src/main.rs:51-58 | index 0 away from the origin with force: no prompt, the path printed once, the loop stops |
| App.StepSelfConfirm | src/main.rs:51-59 | index 0 away from the origin without force: the prompt is shown; yes prints and stops, no prints nothing and continues |
| App.StepSelfPrintsIffAway | src/main.rs:46-58 | for well-formed paths, forced index 0 prints exactly when the path differs from the origin, and always stops |
| App.StepParent | src/main.rs:61-63 | index 1 drops the last component, stays at the root, and continues |
| App.StepChildOfListing | src/main.rs:64-68 | index i >= 2 pushes the child label at i - 2 of the listing (the stem itself when indexed, the stem stripped when not) and continues |
| App.StepChildThenParent | src/main.rs:61-68 | descending into a child then choosing index 1 returns to the starting path |
| App.StemLabelLeavesName | src/navigator.rs:31-39 | a directory named "v1.2" is listed as "v1", and choosing it pushes "v1", not "v1.2" |
| App.RunSpecSelect | src/main.rs:96-106 | one iteration with a successful read and an in-range pick is one handled selection, after which the loop continues or stops with what it printed |
| App.Unindexing | src/main.rs:96 | indexing is off whenever `simple` is set, and otherwise exactly when `no_index` is |
| App.UnindexingLabels | src/main.rs:96 | under `simple` or `no_index` the options are the plain labels; otherwise position i is "[i] " followed by the plain label |
| App.CurrDirDefined | src/display.rs:43-52 | get_curr_dir has a parent and a file stem exactly when the path is not the root and does not end in ".." |
| App.RunSpec | src/main.rs:89-107 | the loop: anything printed means a normal end; a failure carries the error of the read at the path where the loop stopped, with nothing printed |
| App.RunPanicsInHeader | src/main.rs:92-94 | with the header on, the loop panics at the root or at a path ending in "..", before reading the directory and with no output |
| App.RunParentToRootPanics | src/main.rs:61-63 | with the header on, choosing ".." from /home reaches the root and the next iteration panics |
| App.RunPrintsAtMostOnce | src/main.rs:89-107 | across the loop at most one line is printed, only when it ends normally, and it is the final path, different from the origin |
| App.RunAbortsOnReadError | src/main.rs:96 | a failed listing aborts the loop at once, with no output |
| App.RunPanicsOutOfRange | src/main.rs:66 | a pick past the end of the options panics |
| App.RunCancel | src/main.rs:100-105 | escape (no selection) ends the loop with no output and the path unchanged |
| App.RunDescend | src/main.rs:96-101 | picking child i continues the loop one level down, under the labels built unindexed when `simple` or `no_index` is set |
| App.RunUsesItsTurns | src/main.rs:90-107 | a run still waiting for input has printed nothing |
| App.DemoChildren | src/navigator.rs:24-40 | listing src, target, .git and a file without `all` gives children "src", "target" |
| App.DemoListing | src/navigator.rs:41-50 | the unindexed options of that listing are ".", "..", "src", "target" |
| App.DemoBackAtOriginPrintsNothing | src/main.rs:84-107 | src, then .., then . with force, from the origin: the loop ends at the origin with no output |
| App.Session.constructor | src/main.rs:84-85 | origin and path both start as the working directory, nothing printed |
| App.Session.HandleSelection | src/main.rs:38-72 | the new path, the continue flag, whether it prompted and the printed line are exactly those of `Step` |
| App.Session.Run | src/main.rs:89-107 | the loop ends in the path, exit and output `RunSpec` gives; the origin is a constant |
| App.Navigate | src/main.rs:74-110 | main starts with origin = path = working directory and ends as `RunSpec` says |
| Display.Repeat | src/display.rs:67 | the repetition is n times the length of `s`, and uniform for a one-character `s` |
| Display.FillerLine | src/display.rs:63-70 | starts and ends with the border symbol with the filler repeated `totalLen` times between |
| Display.FillerLineUniform | src/display.rs:63-70 | with a one-character filler the line is `totalLen + 2` long and the filler everywhere inside |
| Display.ContentLine | src/display.rs:72-75 | requires the content to be no longer than `baseLen` (the usize subtraction); a bar at both ends, the content in the middle, equal runs of PADDING plus half of (`baseLen` minus the content length) spaces on each side |
| Display.ContentLineWidth | src/display.rs:72-75 | the line is `baseLen + 2 * PADDING + 2` wide, minus one when `baseLen` minus the content length is odd |
| Display.HeaderLines | src/display.rs:77-92 | the origin line is the origin text between exactly PADDING spaces on each side; the title sits after PADDING plus half of (origin length + 10) spaces; the border, spaces and equals lines open with their border symbols |
| Display.HeaderWidths | src/display.rs:77-92 | border, spaces, equals and origin lines are all 46 wider than the origin string, the origin line has exactly PADDING spaces each side, the title line is one short when the origin's length is odd |

## Left out

- `confirm_path`, `display_select` and `term_obj` (src/display.rs:9-41): the prompt and the fuzzy-select widget are oracles (`Turn`); the page size `results` is carried in `Flags` but has no effect in the model.
- Errors of the terminal itself (`clear_screen()?`, and `display_select(...)?` failing) abort `main` in the source; the model's turns cannot fail.
- `env::current_dir()?` (src/main.rs:84-85): the working directory is a parameter; its failure is not modelled.
- `get_curr_dir` and the `write_line` calls of `display_header` (src/display.rs:43-61, 93-102): styled terminal output; `HeaderLines` keeps only the lines' text and widths, and `CurrDirDefined` keeps only when `get_curr_dir` panics.
- `clear_screen`, and `println!` as real output: the printed line is appended to a ghost sequence.
- `fs::read_dir` and `is_dir`: the file system is a function from paths to listings; each entry carries its name and whether it is a directory.
- `clap` argument parsing: the flags are the fields of `Flags`.
- The `regex` crate: replaced by `Strip`, an explicit check with the same matches as `^\[[0-9]+\] `.
- The `.expect` panics on non-UTF-8 names and paths: all names are strings.
- Paths.Pop: Rust's `pop` goes through `Path::components`, which drops "." components and ignores a trailing separator; the model drops the last component verbatim. Two inputs differ: a path that was pushed a "." label, and a path that was pushed an empty label (next line). On those, `Paths.PopPush` and `App.StepChildThenParent` hold of the model but not of the program.
- Paths.Push: the name pushed is the stripped stem, not the entry's name. In an unindexed listing (`-n` or `-s`), a directory named "[3] " (or "[3] .x") is labelled "[3] ", which strips to "". Rust's push of "" only adds a trailing separator, giving "/a/", the same string as `Render(["a", ""])`. The model keeps "" as a component, which `Pop` then removes, whereas Rust's `pop` goes to the parent of "/a". Names holding '/' cannot come from a directory read.
- App.CurrDirDefined: `Path::components` normalisation is not modelled here either, so a path ending in a "." or "" component counts as having a file name.
- App.Session.Run: a script that runs out while the loop is still going ends with `AwaitingInput`, where the program would block waiting for the user.
