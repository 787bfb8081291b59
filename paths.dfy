/**
 * Absolute paths as the navigator uses Rust's PathBuf: a sequence of
 * components below the root, extended by `push`, shortened by `pop`, and
 * shown and compared through `to_str`.
 */
module Paths {

  /** An absolute path as its components below the root; the root is []. */
  type Path = seq<string>

  /** A component as a directory read can produce one: non-empty, without '/'. */
  predicate IsComponent(c: string) {
    c != [] && '/' !in c
  }

  predicate WellFormed(p: Path) {
    forall k :: 0 <= k < |p| ==> IsComponent(p[k])
  }

  /** "/a/b" for [a, b]; the empty string for the root's (absent) components. */
  function Joined(p: Path): string {
    if p == [] then "" else Joined(p[..|p| - 1]) + "/" + p[|p| - 1]
  }

  /** The path's string form, as `to_str` shows it: "/" for the root. */
  function Render(p: Path): (s: string)
    ensures |s| > 0 && s[0] == '/'
  {
    if p == [] then "/" else JoinedStartsWithSlash(p); Joined(p)
  }

  lemma {:induction false} JoinedStartsWithSlash(p: Path)
    requires p != []
    ensures |Joined(p)| > 0 && Joined(p)[0] == '/'
  {
    if |p| > 1 {
      JoinedStartsWithSlash(p[..|p| - 1]);
    }
  }

  /** PathBuf::push of a relative name: one more component, joined with a separator. */
  function Push(p: Path, name: string): (r: Path)
    ensures |r| == |p| + 1 && r[..|p|] == p && r[|p|] == name
    ensures Render(r) == (if p == [] then "/" else Render(p) + "/") + name
  {
    var r := p + [name];
    assert r[..|p|] == p;
    assert Render(r) == Joined(r) == Joined(p) + "/" + name;
    r
  }

  /** PathBuf::pop: drop the last component; at the root nothing changes. */
  function Pop(p: Path): (r: Path)
    ensures p == [] ==> r == []
    ensures p != [] ==> Push(r, p[|p| - 1]) == p
  {
    if p == [] then [] else p[..|p| - 1]
  }

  /** Popping undoes a push. */
  lemma PopPush(p: Path, name: string)
    ensures Pop(Push(p, name)) == p
  {
  }

  /** The text after the last '/' of `s` (all of `s` if it has none). */
  function AfterLastSlash(s: string): string {
    if s == [] || s[|s| - 1] == '/' then [] else AfterLastSlash(s[..|s| - 1]) + [s[|s| - 1]]
  }

  lemma {:induction false} AfterLastSlashOf(x: string, a: string)
    requires '/' !in a
    ensures AfterLastSlash(x + "/" + a) == a
  {
    var s := x + "/" + a;
    if a != [] {
      assert a[|a| - 1] in a;
      assert s[..|s| - 1] == x + "/" + a[..|a| - 1];
      AfterLastSlashOf(x, a[..|a| - 1]);
    }
  }

  /** If `x + "/" + a == y + "/" + b` and neither `a` nor `b` holds a '/', the split is the same. */
  lemma LastSlashSplit(x: string, a: string, y: string, b: string)
    requires '/' !in a && '/' !in b
    requires x + "/" + a == y + "/" + b
    ensures x == y && a == b
  {
    var s := x + "/" + a;
    AfterLastSlashOf(x, a);
    AfterLastSlashOf(y, b);
    assert x == s[..|x|];
    assert y == s[..|y|];
  }

  lemma {:induction false} JoinedInjective(p: Path, q: Path)
    requires WellFormed(p) && WellFormed(q)
    requires Joined(p) == Joined(q)
    ensures p == q
  {
    if p != [] && q != [] {
      LastSlashSplit(Joined(p[..|p| - 1]), p[|p| - 1], Joined(q[..|q| - 1]), q[|q| - 1]);
      JoinedInjective(p[..|p| - 1], q[..|q| - 1]);
      assert p == p[..|p| - 1] + [p[|p| - 1]];
      assert q == q[..|q| - 1] + [q[|q| - 1]];
    }
  }

  lemma {:induction false} JoinedLength(p: Path)
    requires p != [] && WellFormed(p)
    ensures |Joined(p)| >= 2
  {
  }

  /**
   * Comparing string forms, as the navigator does, is comparing paths: for
   * well-formed paths `to_str` equality holds exactly when the components agree.
   */
  lemma RenderInjective(p: Path, q: Path)
    requires WellFormed(p) && WellFormed(q)
    ensures Render(p) == Render(q) <==> p == q
  {
    if Render(p) == Render(q) {
      if p == [] && q != [] {
        JoinedLength(q);
      } else if p != [] && q == [] {
        JoinedLength(p);
      } else if p != [] {
        JoinedInjective(p, q);
      }
    }
  }
}
