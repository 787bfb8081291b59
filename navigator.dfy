/**
 * The option-list builder of src/navigator.rs: it turns one directory
 * listing into the ordered labels the selection widget shows.
 */
module Navigator {
  import opened Wrappers

  /** One enumerated directory entry: its file name and whether it is a directory. */
  datatype DirEntry = DirEntry(name: string, isDir: bool)

  /** A failed directory read; the operating system's detail is kept as text. */
  datatype IoError = IoError(message: string)

  /**
   * What `read_dir` yields for a directory: either an error, or the entries in the
   * platform's enumeration order, each of which may itself have failed to read (None).
   */
  type Listing = Result<seq<Option<DirEntry>>, IoError>

  /** Directories only, and dot-names only when `all` is set. */
  predicate ValidPath(e: DirEntry, all: bool): (b: bool)
    ensures !e.isDir ==> !b
    ensures all ==> (b <==> e.isDir)
    ensures !all ==> (b <==> e.isDir && (e.name == [] || e.name[0] != '.'))
    ensures b && !all ==> !("." <= FileStem(e.name))
  {
    e.isDir && (all || !("." <= e.name))
  }

  // ---------------------------------------------------------------------------
  // File stems (Rust's Path::file_stem on a plain file name)
  // ---------------------------------------------------------------------------

  /** Position of the last '.' of `s`, if there is one. */
  function LastDot(s: string): (r: Option<nat>)
    ensures r.None? ==> forall j :: 0 <= j < |s| ==> s[j] != '.'
    ensures r.Some? ==> r.value < |s| && s[r.value] == '.' && forall j :: r.value < j < |s| ==> s[j] != '.'
  {
    if s == [] then None
    else if s[|s| - 1] == '.' then Some(|s| - 1)
    else LastDot(s[..|s| - 1])
  }

  /**
   * The stem of a file name: ".." is kept whole; otherwise the text before the
   * last '.', unless there is no '.' or the only split point is position 0.
   */
  function FileStem(name: string): (r: string)
    ensures r <= name
    ensures |name| > 0 ==> |r| > 0
  {
    if name == ".." then name
    else match LastDot(name)
      case None => name
      case Some(k) => if k == 0 then name else name[..k]
  }

  lemma {:induction false} LastDotIs(s: string, k: nat)
    requires k < |s| && s[k] == '.' && forall j :: k < j < |s| ==> s[j] != '.'
    ensures LastDot(s) == Some(k)
  {
    if k < |s| - 1 {
      LastDotIs(s[..|s| - 1], k);
    }
  }

  /** A stem drops exactly one trailing extension. */
  lemma StemDropsExtension(base: string, ext: string)
    requires base != [] && '.' !in ext
    requires base + "." + ext != ".."
    ensures FileStem(base + "." + ext) == base
  {
    var name := base + "." + ext;
    assert name[|base|] == '.';
    forall j | |base| < j < |name|
      ensures name[j] != '.'
    {
      assert name[j] == ext[j - |base| - 1];
    }
    LastDotIs(name, |base|);
    assert name[..|base|] == base;
  }

  /** A name with no '.' after its first character is its own stem (".git", "src"). */
  lemma StemKeepsDotless(name: string)
    requires |name| > 0 && forall j :: 1 <= j < |name| ==> name[j] != '.'
    ensures FileStem(name) == name
  {
  }

  /** A stem starts with '.' only if the name does. */
  lemma StemNotHidden(name: string)
    requires !("." <= name)
    ensures !("." <= FileStem(name))
  {
  }

  // ---------------------------------------------------------------------------
  // The filter_map / filter / map pipeline
  // ---------------------------------------------------------------------------

  /** The labels one enumerated item contributes: its stem if it read and is valid. */
  function ItemLabels(item: Option<DirEntry>, all: bool): (r: seq<string>)
    ensures |r| <= 1
    ensures r != [] <==> item.Some? && ValidPath(item.value, all)
    ensures r != [] ==> r[0] == FileStem(item.value.name)
  {
    match item
    case None => []
    case Some(e) => if ValidPath(e, all) then [FileStem(e.name)] else []
  }

  /** The child labels of a listing, in enumeration order. */
  function ChildLabels(entries: seq<Option<DirEntry>>, all: bool): (r: seq<string>)
    ensures |r| <= |entries|
  {
    if entries == [] then [] else ItemLabels(entries[0], all) + ChildLabels(entries[1..], all)
  }

  /** A one-entry listing contributes that entry's labels. */
  lemma ChildLabelsSingle(item: Option<DirEntry>, all: bool)
    ensures ChildLabels([item], all) == ItemLabels(item, all)
  {
    assert [item][1..] == [];
  }

  /** Positions of the entries that read successfully and pass ValidPath. */
  ghost function ValidIndices(entries: seq<Option<DirEntry>>, all: bool): set<int> {
    set j | 0 <= j < |entries| && entries[j].Some? && ValidPath(entries[j].value, all)
  }

  lemma ValidIndicesSnoc(pre: seq<Option<DirEntry>>, item: Option<DirEntry>, all: bool)
    ensures ValidIndices(pre + [item], all) ==
            ValidIndices(pre, all) + (if item.Some? && ValidPath(item.value, all) then {|pre|} else {})
  {
    var entries := pre + [item];
    forall j | 0 <= j < |pre|
      ensures entries[j] == pre[j]
    {
    }
  }

  /** There is exactly one child label per entry that read and passes ValidPath. */
  lemma {:induction false} ChildLabelsCount(entries: seq<Option<DirEntry>>, all: bool)
    ensures |ChildLabels(entries, all)| == |ValidIndices(entries, all)|
  {
    if entries == [] {
      assert ValidIndices(entries, all) == {};
    } else {
      var n := |entries|;
      var pre := entries[..n - 1];
      var item := entries[n - 1];
      assert entries == pre + [item];
      ChildLabelsAppend(pre, [item], all);
      ChildLabelsSingle(item, all);
      ChildLabelsCount(pre, all);
      ValidIndicesSnoc(pre, item, all);
      assert |pre| !in ValidIndices(pre, all);
    }
  }

  /** The pipeline distributes over concatenation: nothing is reordered across entries. */
  lemma {:induction false} ChildLabelsAppend(a: seq<Option<DirEntry>>, b: seq<Option<DirEntry>>, all: bool)
    ensures ChildLabels(a + b, all) == ChildLabels(a, all) + ChildLabels(b, all)
  {
    if a == [] {
      assert a + b == b;
    } else {
      assert (a + b)[1..] == a[1..] + b;
      ChildLabelsAppend(a[1..], b, all);
    }
  }

  /** A label is listed iff some entry read, is valid, and has that stem. */
  lemma {:induction false} ChildLabelsMember(entries: seq<Option<DirEntry>>, all: bool, l: string)
    ensures l in ChildLabels(entries, all) <==>
      exists j :: 0 <= j < |entries| && entries[j].Some? && ValidPath(entries[j].value, all)
                  && FileStem(entries[j].value.name) == l
  {
    if entries != [] {
      ChildLabelsMember(entries[1..], all, l);
      if l in ChildLabels(entries[1..], all) {
        var j :| 0 <= j < |entries[1..]| && entries[1..][j].Some? && ValidPath(entries[1..][j].value, all)
                 && FileStem(entries[1..][j].value.name) == l;
        assert entries[j + 1] == entries[1..][j];
      }
      if exists j :: 0 <= j < |entries| && entries[j].Some? && ValidPath(entries[j].value, all)
                     && FileStem(entries[j].value.name) == l {
        var j :| 0 <= j < |entries| && entries[j].Some? && ValidPath(entries[j].value, all)
                 && FileStem(entries[j].value.name) == l;
        if j > 0 {
          assert entries[1..][j - 1] == entries[j];
        }
      }
    }
  }

  /** Without `all`, no child label starts with '.'. */
  lemma {:induction false} ChildLabelsNotHidden(entries: seq<Option<DirEntry>>)
    ensures forall k :: 0 <= k < |ChildLabels(entries, false)| ==> !("." <= ChildLabels(entries, false)[k])
  {
    if entries != [] {
      ChildLabelsNotHidden(entries[1..]);
      match entries[0]
      case None =>
      case Some(e) =>
        if ValidPath(e, false) { StemNotHidden(e.name); }
    }
  }

  // ---------------------------------------------------------------------------
  // Index prefixes: format!("[{}] ", i)
  // ---------------------------------------------------------------------------

  predicate IsDigit(c: char) {
    '0' <= c <= '9'
  }

  function Digit(d: nat): (c: char)
    requires d < 10
    ensures IsDigit(c) && c as int - '0' as int == d
  {
    (d + '0' as int) as char
  }

  /** Decimal rendering of `n`, as Rust's `{}` formats a usize. */
  function NatToString(n: nat): (r: string)
    ensures |r| > 0
    ensures forall k :: 0 <= k < |r| ==> IsDigit(r[k])
    ensures n > 0 ==> r[0] != '0'
  {
    if n < 10 then [Digit(n)] else NatToString(n / 10) + [Digit(n % 10)]
  }

  /** The number a string of decimal digits denotes. */
  function DigitsValue(s: string): nat
    requires forall k :: 0 <= k < |s| ==> IsDigit(s[k])
  {
    if s == [] then 0
    else
      assert IsDigit(s[|s| - 1]);
      10 * DigitsValue(s[..|s| - 1]) + (s[|s| - 1] as int - '0' as int)
  }

  /** The decimal rendering reads back as the same number. */
  lemma {:induction false} NatToStringValue(n: nat)
    ensures DigitsValue(NatToString(n)) == n
  {
    if n >= 10 {
      var s := NatToString(n);
      assert s[..|s| - 1] == NatToString(n / 10);
      NatToStringValue(n / 10);
    }
  }

  /** The prefix the indexing loop writes in front of the label at position `i`. */
  function IndexPrefix(i: nat): string {
    "[" + NatToString(i) + "] "
  }

  /** A label as displayed at position `i`: prefixed unless indexing is off. */
  function Decorated(i: nat, text: string, noIndex: bool): string {
    if noIndex then text else IndexPrefix(i) + text
  }

  /** The labels before indexing: ".", "..", then the child labels. */
  function Unindexed(entries: seq<Option<DirEntry>>, all: bool): (r: seq<string>)
    ensures |r| == 2 + |ChildLabels(entries, all)|
    ensures r[0] == "." && r[1] == ".."
    ensures r[2..] == ChildLabels(entries, all)
  {
    [".", ".."] + ChildLabels(entries, all)
  }

  /** The option list that get_path_options returns for a successful read. */
  function PathOptions(entries: seq<Option<DirEntry>>, noIndex: bool, all: bool): (r: seq<string>)
    ensures |r| == 2 + |ChildLabels(entries, all)|
    ensures r[0] == Decorated(0, ".", noIndex) && r[1] == Decorated(1, "..", noIndex)
    ensures forall k :: 2 <= k < |r| ==> r[k] == Decorated(k, ChildLabels(entries, all)[k - 2], noIndex)
  {
    var u := Unindexed(entries, all);
    seq(|u|, i requires 0 <= i < |u| => Decorated(i, u[i], noIndex))
  }

  /**
   * get_path_options: read the directory, keep the valid entries' stems after "."
   * and "..", then, unless `noIndex`, overwrite each label in place with its index prefix.
   */
  method GetPathOptions(listing: Listing, noIndex: bool, all: bool) returns (r: Result<seq<string>, IoError>)
    ensures listing.Err? ==> r == Err(listing.error)
    ensures listing.Ok? ==> r == Ok(PathOptions(listing.value, noIndex, all))
  {
    if listing.Err? {
      return Err(listing.error);
    }
    var pathOptions := ChildLabels(listing.value, all);
    var options := [".", ".."] + pathOptions;
    if !noIndex {
      ghost var plain := options;
      for i := 0 to |options|
        invariant |options| == |plain|
        invariant forall k :: 0 <= k < i ==> options[k] == IndexPrefix(k) + plain[k]
        invariant forall k :: i <= k < |options| ==> options[k] == plain[k]
      {
        var numOption := IndexPrefix(i);
        numOption := numOption + options[i];
        options := options[i := numOption];
      }
    }
    assert options == PathOptions(listing.value, noIndex, all);
    r := Ok(options);
  }
}
