/**
 * Filesystem paths as strings with '/' separators. A `Path` keeps its
 * string with one trailing separator trimmed, names its last component
 * (`basename`) and its directory part (`dirname`), and appends another
 * path after a separator (`/=`, `/`). `create_pathlist_from_string` splits
 * a colon-separated search list into paths.
 */
module Paths {
  import opened Wrappers

  const Sep: char := '/'
  const Root: string := "/"

  /** The string a Path keeps for p: one trailing separator dropped, unless p is "/" or "". */
  function Trimmed(p: string): (r: string)
    ensures r != p <==> |p| > 1 && p[|p| - 1] == Sep
    ensures r != p ==> p == r + [Sep] && r != ""
  {
    if |p| > 1 && p[|p| - 1] == Sep then p[..|p| - 1] else p
  }

  /** Only one separator is trimmed: "a//" is kept as "a/". */
  lemma TrimsOneSeparator()
    ensures Trimmed("a//") == "a/" && Trimmed("//") == Root && Trimmed(Root) == Root && Trimmed("") == ""
  {
    assert "a//"[..2] == "a/";
    assert "//"[..1] == Root;
  }

  /** A string without a doubled trailing separator is stable under trimming. */
  lemma TrimmedSettles(p: string)
    requires !(|p| > 2 && p[|p| - 1] == Sep && p[|p| - 2] == Sep)
    ensures Trimmed(Trimmed(p)) == Trimmed(p)
  {
    if Trimmed(p) != p && |Trimmed(p)| > 1 {
      assert Trimmed(p)[|Trimmed(p)| - 1] == p[|p| - 2];
    }
  }

  /** "x/" and "x" name the same Path when x does not itself end in a separator. */
  lemma TrailingSeparatorIgnored(x: string)
    requires x != "" && x[|x| - 1] != Sep
    ensures Trimmed(x + [Sep]) == Trimmed(x) == x
  {
    assert (x + [Sep])[..|x|] == x;
  }

  predicate NoSep(s: string) {
    forall i | 0 <= i < |s| :: s[i] != Sep
  }

  /**
   * The index just after the rightmost separator before e, or 0 when there
   * is none: where the component that ends at e starts.
   */
  function ComponentStart(p: string, e: nat): (s: nat)
    requires e <= |p|
    ensures s <= e
    ensures s > 0 ==> p[s - 1] == Sep
    ensures forall i | s <= i < e :: p[i] != Sep
    decreases e
  {
    if e == 0 then 0 else if p[e - 1] == Sep then e else ComponentStart(p, e - 1)
  }

  /** The three facts of ComponentStart's contract determine it. */
  lemma ComponentStartIs(p: string, e: nat, s: nat)
    requires s <= e <= |p|
    requires s > 0 ==> p[s - 1] == Sep
    requires forall i | s <= i < e :: p[i] != Sep
    ensures ComponentStart(p, e) == s
  {
  }

  /** The end of the last component: a trailing separator is not part of it. */
  function ComponentEnd(p: string): (e: nat)
    requires p != ""
    ensures e <= |p|
  {
    if p[|p| - 1] == Sep then |p| - 1 else |p|
  }

  /** `basename`: "" and "/" as they are; otherwise the last component, without a trailing separator. */
  function BasenameOf(p: string): (r: string)
  {
    if p == "" then ""
    else if p == Root then Root
    else
      var e := ComponentEnd(p);
      p[ComponentStart(p, e)..e]
  }

  /** Apart from "/", a basename holds no separator, and it ends the path (before a trailing separator). */
  lemma BasenameIsLastComponent(p: string)
    requires p != "" && p != Root
    ensures NoSep(BasenameOf(p))
    ensures var e := ComponentEnd(p);
            var s := e - |BasenameOf(p)|;
            0 <= s && p[s..e] == BasenameOf(p) && (s == 0 || p[s - 1] == Sep)
  {
  }

  /** The basename of a join is the component appended last, with or without a trailing separator. */
  lemma BasenameOfJoin(a: string, b: string)
    requires b != "" && NoSep(b)
    ensures BasenameOf(a + [Sep] + b) == b
    ensures BasenameOf(a + [Sep] + b + [Sep]) == b
  {
    var p := a + [Sep] + b;
    ComponentStartIs(p, |p|, |a| + 1);
    assert p[|a| + 1..] == b;
    var q := p + [Sep];
    ComponentStartIs(q, |p|, |a| + 1);
    assert q[|a| + 1..|p|] == b;
  }

  /** A path without separators is its own basename. */
  lemma BasenameOfPlainName(p: string)
    requires p != "" && NoSep(p)
    ensures BasenameOf(p) == p
  {
    ComponentStartIs(p, |p|, 0);
  }

  /**
   * `dirname` as written: the part before the rightmost separator found at
   * index 2 or beyond; failing that, "/" when the character at index 1 (at
   * index 0 for a one-character path) is a separator, and "." otherwise.
   */
  function DirnameAsWritten(p: string): (r: string)
    requires p != ""
  {
    var k := ComponentStart(p, |p|);
    if k >= 3 then p[..k - 1]
    else if p[if |p| == 1 then 0 else 1] == Sep then Root
    else "."
  }

  /**
   * `dirname` as intended: the part before the rightmost separator, "/" when
   * that separator is the leading one, and "." when there is none.
   */
  function DirnameOf(p: string): (r: string)
    requires p != ""
  {
    var k := ComponentStart(p, |p|);
    if k >= 2 then p[..k - 1]
    else if k == 1 then Root
    else "."
  }

  /** The two agree once the rightmost separator is at index 2 or beyond. */
  lemma DirnameAgreesFarFromStart(p: string)
    requires p != "" && ComponentStart(p, |p|) >= 3
    ensures DirnameAsWritten(p) == DirnameOf(p)
  {
  }

  /** As written, "a/b" has dirname "/" and "/a" has dirname ".". */
  lemma DirnameNearStartIsWrong()
    ensures DirnameAsWritten("a/b") == Root && DirnameOf("a/b") == "a"
    ensures DirnameAsWritten("/a") == "." && DirnameOf("/a") == Root
  {
    ComponentStartIs("a/b", 3, 2);
    ComponentStartIs("/a", 2, 1);
    assert "a/b"[..1] == "a";
  }

  /** The intended dirname of a join is what was joined onto, for a non-empty left side. */
  lemma DirnameOfJoin(a: string, b: string)
    requires a != "" && NoSep(b)
    ensures DirnameOf(a + [Sep] + b) == a
  {
    var p := a + [Sep] + b;
    ComponentStartIs(p, |p|, |a| + 1);
    assert p[..|a|] == a;
  }

  /** Dirname, a separator and basename rebuild a path whose last separator is not leading or trailing. */
  lemma DirnameAndBasenameSplit(p: string)
    requires p != "" && p[|p| - 1] != Sep && ComponentStart(p, |p|) >= 2
    ensures DirnameOf(p) + [Sep] + BasenameOf(p) == p
  {
    var k := ComponentStart(p, |p|);
    var d, b := DirnameOf(p), BasenameOf(p);
    BasenameFrom(p, k);
    DirnameUpTo(p, k);
    Rebuild(p, k, d, b);
  }

  lemma Rebuild(p: string, k: nat, d: string, b: string)
    requires 1 <= k <= |p| && p[k - 1] == Sep && d == p[..k - 1] && b == p[k..]
    ensures d + [Sep] + b == p
  {
    assert p[..k - 1] + [Sep] == p[..k];
  }

  lemma BasenameFrom(p: string, k: nat)
    requires p != "" && p[|p| - 1] != Sep && k == ComponentStart(p, |p|) && k >= 1
    ensures BasenameOf(p) == p[k..]
  {
    assert p != Root;
  }

  lemma DirnameUpTo(p: string, k: nat)
    requires p != "" && k == ComponentStart(p, |p|) && k >= 2
    ensures DirnameOf(p) == p[..k - 1]
  {
  }

  /** What `operator/=` makes of two path strings. */
  function Joined(lhs: string, rhs: string): (r: string)
    ensures |r| == |lhs| + 1 + |rhs| && r[|lhs|] == Sep
    ensures r[..|lhs|] == lhs && r[|lhs| + 1..] == rhs
  {
    lhs + [Sep] + rhs
  }

  class Path {
    var path: string

    /** `Path(p)`: p with one trailing separator trimmed. */
    constructor (p: string)
      ensures path == Trimmed(p)
    {
      path := p;
      new;
      if |path| > 1 && path[|path| - 1] == Sep {
        path := path[..|path| - 1];
      }
    }

    /** The copy constructor the by-value operands use. */
    constructor Copy(other: Path)
      ensures path == other.path
    {
      path := other.path;
    }

    /** `string()`: the stored path. */
    function String(): string
      reads this
    {
      path
    }

    /** `basename()`, walking an index down from the end of the path. */
    method Basename() returns (r: string)
      ensures r == BasenameOf(path)
    {
      if |path| == 0 {
        return "";
      }
      if |path| == 1 && path[0] == Sep {
        return Root;
      }
      var s := |path| - 1;
      var t := s;
      if path[s] == Sep {
        s := s - 1;
        t := t - 1;
      }
      while s > 0 && path[s] != Sep
        invariant 0 <= s <= t < |path| && t + 1 == ComponentEnd(path)
        invariant ComponentStart(path, s + 1) == ComponentStart(path, t + 1)
        decreases s
      {
        s := s - 1;
      }
      if path[s] == Sep {
        s := s + 1;
      }
      return path[s..t + 1];
    }

    /**
     * `dirname()`, walking an index down from the end of the path but not
     * below 1. The empty path is excluded: the index starts below zero.
     */
    method Dirname() returns (r: string)
      requires path != ""
      ensures r == DirnameAsWritten(path)
    {
      var s := |path| - 1;
      while s > 1
        invariant 0 <= s < |path| && (s >= 1 || s == |path| - 1)
        invariant forall i | s < i < |path| :: path[i] != Sep
      {
        if path[s] == Sep {
          ComponentStartIs(path, |path|, s + 1);
          return path[..s];
        }
        s := s - 1;
      }
      if path[s] == Sep {
        return Root;
      }
      return ".";
    }

    /** `operator/=`: this path, a separator, then rhs. */
    method Append(rhs: Path)
      modifies this
      ensures path == Joined(old(path), old(rhs.path))
    {
      path := path + [Sep] + rhs.path;
    }
  }

  /** `operator==`: the two strings are equal. */
  predicate Equal(lhs: Path, rhs: Path)
    reads lhs, rhs
  {
    lhs.String() == rhs.String()
  }

  /** `operator!=`: the negation of `operator==`. */
  predicate NotEqual(lhs: Path, rhs: Path)
    reads lhs, rhs
  {
    !Equal(lhs, rhs)
  }

  /** Paths made from "x/" and from "x" compare equal. */
  method EqualUpToTrailingSeparator(x: string) returns (r: bool)
    requires x != "" && x[|x| - 1] != Sep
    ensures r
  {
    var a := new Path(x + [Sep]);
    var b := new Path(x);
    TrailingSeparatorIgnored(x);
    r := Equal(a, b) && !NotEqual(a, b);
  }

  /** `operator/(Path, Path)`: a joined copy; the left operand keeps its path. */
  method Join(lhs: Path, rhs: Path) returns (r: Path)
    ensures fresh(r) && r.path == Joined(lhs.path, rhs.path)
  {
    r := new Path.Copy(lhs);
    r.Append(rhs);
  }

  /** `operator/(Path, string)`: the string is made a Path, so its trailing separator goes, before joining. */
  method JoinString(lhs: Path, rhs: string) returns (r: Path)
    ensures fresh(r) && r.path == Joined(lhs.path, Trimmed(rhs))
  {
    var right := new Path(rhs);
    r := Join(lhs, right);
  }

  /** `Path("/dir/") / "filename"` is "/dir/filename". */
  lemma JoinDirAndFile()
    ensures Joined(Trimmed("/dir/"), Trimmed("filename")) == "/dir/filename"
  {
    assert "/dir/"[..4] == "/dir";
  }

  // ---- Colon-separated path lists ----

  const ListSep: char := ':'

  predicate NoColon(s: string) {
    forall i | 0 <= i < |s| :: s[i] != ListSep
  }

  /** The end of the run of non-colon characters that starts at p. */
  function RunEnd(s: string, p: nat): (e: nat)
    requires p <= |s|
    ensures p <= e <= |s|
    ensures forall i | p <= i < e :: s[i] != ListSep
    ensures e < |s| ==> s[e] == ListSep
    decreases |s| - p
  {
    if p < |s| && s[p] != ListSep then RunEnd(s, p + 1) else p
  }

  /** The facts of RunEnd's contract determine it. */
  lemma RunEndIs(s: string, p: nat, e: nat)
    requires p <= e <= |s|
    requires forall i | p <= i < e :: s[i] != ListSep
    requires e < |s| ==> s[e] == ListSep
    ensures RunEnd(s, p) == e
  {
  }

  /** The maximal runs of non-colon characters, in order: the pieces between runs of colons. */
  function Segments(s: string): (r: seq<string>)
    ensures forall i | 0 <= i < |r| :: r[i] != "" && NoColon(r[i])
    decreases |s|
  {
    if s == "" then []
    else if s[0] == ListSep then Segments(s[1..])
    else
      var k := RunEnd(s, 0);
      [s[..k]] + Segments(s[k..])
  }

  /** The names joined by single colons. */
  function JoinedByColons(names: seq<string>): string
  {
    if |names| == 0 then ""
    else if |names| == 1 then names[0]
    else names[0] + [ListSep] + JoinedByColons(names[1..])
  }

  /** Splitting names joined by colons gives the names back, when none is empty or holds a colon. */
  lemma {:induction false} SegmentsOfJoined(names: seq<string>)
    requires forall i | 0 <= i < |names| :: names[i] != "" && NoColon(names[i])
    ensures Segments(JoinedByColons(names)) == names
    decreases |names|
  {
    if |names| == 1 {
      var s := names[0];
      RunEndIs(s, 0, |s|);
      assert s[..|s|] == s && s[|s|..] == "";
    } else if |names| > 1 {
      var rest := JoinedByColons(names[1..]);
      var s := names[0] + [ListSep] + rest;
      RunEndIs(s, 0, |names[0]|);
      assert s[..|names[0]|] == names[0];
      assert s[|names[0]|..][1..] == rest;
      SegmentsOfJoined(names[1..]);
      assert names == [names[0]] + names[1..];
    }
  }

  /** Leading, trailing and doubled colons give no empty entries: "::a::b:" splits as "a", "b". */
  lemma StrayColonsIgnored()
    ensures Segments("::a::b:") == ["a", "b"]
  {
    var s := "::a::b:";
    assert s[1..] == ":a::b:" && s[1..][1..] == "a::b:";
    var t := "a::b:";
    RunEndIs(t, 0, 1);
    assert t[..1] == "a" && t[1..] == "::b:";
    var u := "b:";
    assert t[1..][1..][1..] == u;
    RunEndIs(u, 0, 1);
    assert u[..1] == "b" && u[1..] == ":" && u[1..][1..] == "";
  }

  /** A colon at the front of what is left is skipped. */
  lemma SegmentsAfterColon(s: string, i: nat)
    requires i < |s| && s[i] == ListSep
    ensures Segments(s[i..]) == Segments(s[i + 1..])
  {
    assert s[i..][1..] == s[i + 1..];
  }

  /** A run of non-colons at the front of what is left is the next segment. */
  lemma SegmentsAfterRun(s: string, i: nat, j: nat)
    requires i < j <= |s|
    requires forall k | i <= k < j :: s[k] != ListSep
    requires j < |s| ==> s[j] == ListSep
    ensures Segments(s[i..]) == [s[i..j]] + Segments(s[j..])
  {
    RunEndIs(s[i..], 0, j - i);
    assert s[i..][..j - i] == s[i..j] && s[i..][j - i..] == s[j..];
  }

  /** The input `create_pathlist_from_string` is defined on: empty, or holding a non-colon. */
  predicate ListableString(s: string) {
    s == "" || exists i | 0 <= i < |s| :: s[i] != ListSep
  }

  /**
   * `create_pathlist_from_string`: leading colons skipped, then one Path
   * per run of non-colons. An input made only of colons is excluded: the
   * skip runs past the end of the string.
   */
  method CreatePathList(s: string) returns (list: seq<Path>)
    requires ListableString(s)
    ensures |list| == |Segments(s)|
    ensures forall k | 0 <= k < |list| :: list[k].path == Trimmed(Segments(s)[k])
  {
    list := [];
    if s == "" {
      return;
    }
    var i := SkipColons(s);
    ghost var done: seq<string> := [];
    while i < |s|
      invariant i <= |s|
      invariant |list| == |done|
      invariant forall k | 0 <= k < |list| :: list[k].path == Trimmed(done[k])
      invariant done + Segments(s[i..]) == Segments(s)
      decreases |s| - i
    {
      i, list, done := AddNext(s, i, list, done);
    }
  }

  /** One step of the split: a colon is passed over; a run of non-colons becomes the next Path. */
  method AddNext(s: string, i: nat, list: seq<Path>, ghost done: seq<string>)
    returns (i': nat, list': seq<Path>, ghost done': seq<string>)
    requires i < |s| && |list| == |done| && done + Segments(s[i..]) == Segments(s)
    requires forall k | 0 <= k < |list| :: list[k].path == Trimmed(done[k])
    ensures i < i' <= |s| && |list'| == |done'| && done' + Segments(s[i'..]) == Segments(s)
    ensures forall k | 0 <= k < |list'| :: list'[k].path == Trimmed(done'[k])
  {
    if s[i] == ListSep {
      SegmentsAfterColon(s, i);
      i', list', done' := i + 1, list, done;
    } else {
      var p, j := NextPath(s, i);
      ConcatAssoc(done, [s[i..j]], Segments(s[j..]));
      i', list', done' := j, list + [p], done + [s[i..j]];
    }
  }

  /** The leading colons of a string that holds something else. */
  method SkipColons(s: string) returns (start: nat)
    requires s != "" && ListableString(s)
    ensures start < |s| && Segments(s[start..]) == Segments(s)
  {
    start := 0;
    while s[start] == ListSep
      invariant start < |s| && exists i | start <= i < |s| :: s[i] != ListSep
      invariant Segments(s[start..]) == Segments(s)
      decreases |s| - start
    {
      SegmentsAfterColon(s, start);
      start := start + 1;
    }
  }

  /** The Path made of the run of non-colons at i, and the index just after the run. */
  method NextPath(s: string, i: nat) returns (p: Path, j: nat)
    requires i < |s| && s[i] != ListSep
    ensures fresh(p) && i < j <= |s| && p.path == Trimmed(s[i..j])
    ensures Segments(s[i..]) == [s[i..j]] + Segments(s[j..])
  {
    j := NextColon(s, i);
    SegmentsAfterRun(s, i, j);
    p := new Path(s[i..j]);
  }

  /** The index of the first colon at or after i, or the end of s. */
  method NextColon(s: string, i: nat) returns (j: nat)
    requires i < |s| && s[i] != ListSep
    ensures i < j <= |s|
    ensures forall k | i <= k < j :: s[k] != ListSep
    ensures j < |s| ==> s[j] == ListSep
  {
    j := i;
    while j < |s| && s[j] != ListSep
      invariant i <= j <= |s|
      invariant forall k | i <= k < j :: s[k] != ListSep
      decreases |s| - j
    {
      j := j + 1;
    }
  }
}
