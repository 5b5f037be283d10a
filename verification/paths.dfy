/** The POSIX flavour of Node's `path` module as the plugins use it: `normalize`,
    `join` (also behind Nx's `joinPathFragments`), `dirname`, `basename` and
    `relative`. A path is a string; segments are separated by '/'. */
module Paths {
  import opened Text

  /** A segment that normalisation keeps as it is. */
  predicate PlainSegment(s: string)
  {
    s != "" && s != "." && s != ".." && '/' !in s
  }

  /** One step of Node's `normalizeString`: empty and '.' segments vanish,
      '..' removes the segment before it, and a '..' with nothing to remove
      survives only in a relative path. */
  function NormalizeStep(acc: seq<string>, s: string, allowAboveRoot: bool): (r: seq<string>)
    ensures (forall i :: 0 <= i < |acc| ==> acc[i] != "" && acc[i] != ".") ==>
      forall i :: 0 <= i < |r| ==> r[i] != "" && r[i] != "."
  {
    if s == "" || s == "." then acc
    else if s == ".." then
      if |acc| > 0 && acc[|acc| - 1] != ".." then acc[..|acc| - 1]
      else if allowAboveRoot then acc + [".."]
      else acc
    else acc + [s]
  }

  /** `normalizeString` over the '/'-separated segments, one step per
      segment from the left. */
  function NormalizeSegments(segs: seq<string>, allowAboveRoot: bool): (r: seq<string>)
    ensures forall i :: 0 <= i < |r| ==> r[i] != "" && r[i] != "."
    decreases |segs|
  {
    if |segs| == 0 then []
    else NormalizeStep(NormalizeSegments(segs[..|segs| - 1], allowAboveRoot), segs[|segs| - 1], allowAboveRoot)
  }

  /** `path.normalize(p)`. */
  function Normalize(p: string): (r: string)
  {
    if p == "" then "."
    else
      var absolute := p[0] == '/';
      var trailing := p[|p| - 1] == '/';
      var body := Join(NormalizeSegments(Split(p, '/'), !absolute), "/");
      if body == "" then
        if absolute then "/" else if trailing then "./" else "."
      else
        var body' := if trailing then body + "/" else body;
        if absolute then "/" + body' else body'
  }

  /** The non-empty fragments joined by '/' (`path.join` before normalising). */
  function JoinNonEmpty(parts: seq<string>): string
  {
    if |parts| == 0 then ""
    else
      var rest := JoinNonEmpty(parts[1..]);
      if parts[0] == "" then rest
      else if rest == "" then parts[0]
      else parts[0] + "/" + rest
  }

  /** `path.join(...parts)`, which Nx's `joinPathFragments` also computes on a
      POSIX system. */
  function PathJoin(parts: seq<string>): string
  {
    var joined := JoinNonEmpty(parts);
    if joined == "" then "." else Normalize(joined)
  }

  /** Normalising one more segment: the step `NormalizeSegments` takes last. */
  lemma NormalizeSnoc(segs: seq<string>, s: string, allowAboveRoot: bool)
    ensures NormalizeSegments(segs + [s], allowAboveRoot) ==
      NormalizeStep(NormalizeSegments(segs, allowAboveRoot), s, allowAboveRoot)
  {
    var t := segs + [s];
    assert t[..|t| - 1] == segs && t[|t| - 1] == s;
  }

  /** Non-empty fragments are joined with '/' between each two. */
  lemma {:induction false} JoinNonEmptyFull(parts: seq<string>)
    requires forall i :: 0 <= i < |parts| ==> parts[i] != ""
    ensures JoinNonEmpty(parts) == Join(parts, "/")
  {
    if |parts| > 1 {
      JoinNonEmptyFull(parts[1..]);
      assert |Join(parts[1..], "/")| >= |parts[1]|;
    } else if |parts| == 1 {
      assert JoinNonEmpty(parts[1..]) == "";
    }
  }

  /** A plain segment is appended as it is. */
  lemma StepPlain(acc: seq<string>, s: string, allowAboveRoot: bool)
    requires PlainSegment(s)
    ensures NormalizeStep(acc, s, allowAboveRoot) == acc + [s]
  {
  }

  /** A '..' after a segment other than '..' removes it. */
  lemma StepUp(acc: seq<string>, allowAboveRoot: bool)
    requires |acc| > 0 && acc[|acc| - 1] != ".."
    ensures NormalizeStep(acc, "..", allowAboveRoot) == acc[..|acc| - 1]
  {
  }

  /** Appending plain segments to a list appends them to its normal form. */
  lemma {:induction false} NormalizeAppendPlain(a: seq<string>, p: seq<string>, allowAboveRoot: bool)
    requires forall i :: 0 <= i < |p| ==> PlainSegment(p[i])
    ensures NormalizeSegments(a + p, allowAboveRoot) == NormalizeSegments(a, allowAboveRoot) + p
  {
    if |p| > 0 {
      NormalizeAppendPlain(a, p[..|p| - 1], allowAboveRoot);
      AppendPlainStep(a, p, NormalizeSegments(a, allowAboveRoot), allowAboveRoot);
    } else {
      assert a + p == a;
    }
  }

  /** The last plain segment of `NormalizeAppendPlain`. */
  lemma AppendPlainStep(a: seq<string>, p: seq<string>, n: seq<string>, allowAboveRoot: bool)
    requires |p| > 0 && PlainSegment(p[|p| - 1])
    requires NormalizeSegments(a + p[..|p| - 1], allowAboveRoot) == n + p[..|p| - 1]
    ensures NormalizeSegments(a + p, allowAboveRoot) == n + p
  {
    var init, last := p[..|p| - 1], p[|p| - 1];
    assert a + p == (a + init) + [last];
    NormalizeSnoc(a + init, last, allowAboveRoot);
    StepPlain(n + init, last, allowAboveRoot);
    assert init + [last] == p;
  }

  lemma UpsSnoc(k: nat)
    requires k > 0
    ensures Ups(k) == Ups(k - 1) + [".."]
  {
  }

  /** One '..' removes the last segment when that one is not '..'. */
  lemma ClimbOne(b: seq<string>, allowAboveRoot: bool)
    requires var n := NormalizeSegments(b, allowAboveRoot); |n| > 0 && n[|n| - 1] != ".."
    ensures var n := NormalizeSegments(b, allowAboveRoot);
      NormalizeSegments(b + [".."], allowAboveRoot) == n[..|n| - 1]
  {
    NormalizeSnoc(b, "..", allowAboveRoot);
    StepUp(NormalizeSegments(b, allowAboveRoot), allowAboveRoot);
  }

  lemma AppendUps(a: seq<string>, k: nat)
    requires k > 0
    ensures a + Ups(k) == (a + Ups(k - 1)) + [".."]
  {
    UpsSnoc(k);
  }

  /** Climbing `k` levels removes the last `k` segments when none is '..'. */
  lemma {:induction false} NormalizeClimb(a: seq<string>, k: nat, allowAboveRoot: bool)
    requires k <= |NormalizeSegments(a, allowAboveRoot)|
    requires var n := NormalizeSegments(a, allowAboveRoot);
      forall i :: |n| - k <= i < |n| ==> n[i] != ".."
    ensures var n := NormalizeSegments(a, allowAboveRoot);
      NormalizeSegments(a + Ups(k), allowAboveRoot) == n[..|n| - k]
  {
    var n := NormalizeSegments(a, allowAboveRoot);
    if k > 0 {
      NormalizeClimb(a, k - 1, allowAboveRoot);
      ClimbStep(a, k, n, allowAboveRoot);
    } else {
      assert a + Ups(k) == a;
    }
  }

  /** The last climb of `NormalizeClimb`. */
  lemma ClimbStep(a: seq<string>, k: nat, n: seq<string>, allowAboveRoot: bool)
    requires 0 < k <= |n| && n[|n| - k] != ".."
    requires NormalizeSegments(a + Ups(k - 1), allowAboveRoot) == n[..|n| - (k - 1)]
    ensures NormalizeSegments(a + Ups(k), allowAboveRoot) == n[..|n| - k]
  {
    var b := a + Ups(k - 1);
    var m := n[..|n| - (k - 1)];
    assert m[|m| - 1] == n[|n| - k];
    ClimbOne(b, allowAboveRoot);
    AppendUps(a, k);
    assert m[..|m| - 1] == n[..|n| - k];
  }

  /** Climbing out of plain trailing segments removes them. */
  lemma ClimbPlainTail(x: seq<string>, prefix: seq<string>, tail: seq<string>, k: nat, allowAboveRoot: bool)
    requires NormalizeSegments(x, allowAboveRoot) == prefix + tail
    requires k <= |tail|
    requires forall i :: 0 <= i < |tail| ==> PlainSegment(tail[i])
    ensures NormalizeSegments(x + Ups(k), allowAboveRoot) == prefix + tail[..|tail| - k]
  {
    var n := prefix + tail;
    assert forall i :: |prefix| <= i < |n| ==> n[i] == tail[i - |prefix|];
    NormalizeClimb(x, k, allowAboveRoot);
    assert n[..|n| - k] == prefix + tail[..|tail| - k];
  }

  /** `path.join` of non-empty fragments that spell relative segments is the
      join of the normalised segments. */
  lemma PathJoinSegments(parts: seq<string>, segs: seq<string>)
    requires forall i :: 0 <= i < |parts| ==> parts[i] != ""
    requires |segs| > 0 && Join(parts, "/") == Join(segs, "/")
    requires forall i :: 0 <= i < |segs| ==> '/' !in segs[i]
    requires segs[0] != "" && segs[|segs| - 1] != ""
    requires NormalizeSegments(segs, true) != []
    ensures PathJoin(parts) == Join(NormalizeSegments(segs, true), "/")
  {
    JoinNonEmptyFull(parts);
    var p := Join(segs, "/");
    RelativeJoinEnds(segs);
    SplitJoin(segs, '/');
    var body := NormalizeSegments(segs, true);
    JoinEnds(body, "/");
    NormalizeRelative(p, body);
  }

  /** Segments without '/' whose first and last are non-empty join to a
      path that neither starts nor ends with '/'. */
  lemma RelativeJoinEnds(segs: seq<string>)
    requires |segs| > 0 && forall i :: 0 <= i < |segs| ==> '/' !in segs[i]
    requires segs[0] != "" && segs[|segs| - 1] != ""
    ensures var p := Join(segs, "/"); p != "" && p[0] != '/' && p[|p| - 1] != '/'
  {
    var p := Join(segs, "/");
    JoinEnds(segs, "/");
    var last := segs[|segs| - 1];
    assert p[0] == segs[0][0];
    assert p[|p| - 1] == last[|last| - 1];
    assert p[|p| - 1] in last;
  }

  /** A relative path without a trailing '/' normalises to the join of its
      normalised segments when that is not empty. */
  lemma NormalizeRelative(p: string, body: seq<string>)
    requires p != "" && p[0] != '/' && p[|p| - 1] != '/'
    requires body == NormalizeSegments(Split(p, '/'), true) && Join(body, "/") != ""
    ensures Normalize(p) == Join(body, "/")
  {
  }

  /** Plain segments pass normalisation untouched. */
  lemma {:induction false} NormalizePlainSegments(segs: seq<string>, allowAboveRoot: bool)
    requires forall i :: 0 <= i < |segs| ==> PlainSegment(segs[i])
    ensures NormalizeSegments(segs, allowAboveRoot) == segs
  {
    if |segs| > 0 {
      NormalizePlainSegments(segs[..|segs| - 1], allowAboveRoot);
      assert segs[..|segs| - 1] + [segs[|segs| - 1]] == segs;
    }
  }

  /** Joining plain, relative segments gives them separated by '/'. */
  lemma PathJoinPlain(segs: seq<string>)
    requires |segs| > 0
    requires forall i :: 0 <= i < |segs| ==> PlainSegment(segs[i])
    ensures PathJoin(segs) == Join(segs, "/")
  {
    JoinNonEmptyPlain(segs);
    var joined := Join(segs, "/");
    SplitJoin(segs, '/');
    NormalizePlainSegments(segs, true);
    JoinFirstChar(segs);
    JoinLastChar(segs);
  }

  lemma {:induction false} JoinNonEmptyPlain(segs: seq<string>)
    requires forall i :: 0 <= i < |segs| ==> PlainSegment(segs[i])
    ensures JoinNonEmpty(segs) == Join(segs, "/")
  {
    if |segs| > 1 {
      JoinNonEmptyPlain(segs[1..]);
      assert Join(segs[1..], "/") != "" by {
        JoinFirstChar(segs[1..]);
      }
    } else if |segs| == 1 {
      assert JoinNonEmpty(segs[1..]) == "";
    }
  }

  /** A join of plain segments starts and ends with a segment character. */
  lemma {:induction false} JoinFirstChar(segs: seq<string>)
    requires |segs| > 0
    requires forall i :: 0 <= i < |segs| ==> PlainSegment(segs[i])
    ensures |Join(segs, "/")| > 0 && Join(segs, "/")[0] != '/'
  {
    assert PlainSegment(segs[0]);
  }

  lemma {:induction false} JoinLastChar(segs: seq<string>)
    requires |segs| > 0
    requires forall i :: 0 <= i < |segs| ==> PlainSegment(segs[i])
    ensures |Join(segs, "/")| > 0
    ensures Join(segs, "/")[|Join(segs, "/")| - 1] != '/'
  {
    if |segs| > 1 {
      JoinLastChar(segs[1..]);
    } else {
      assert PlainSegment(segs[0]);
      assert segs[0][|segs[0]| - 1] in segs[0];
    }
  }

  /** The largest index k >= lo with p[k] != '/', when one exists below |p|. */
  function LastNonSlash(p: string, lo: nat): (k: int)
    ensures k == -1 || (lo <= k < |p| && p[k] != '/')
    ensures k == -1 ==> forall i :: lo <= i < |p| ==> p[i] == '/'
    ensures k >= 0 ==> forall i :: k < i < |p| ==> p[i] == '/'
    decreases |p|
  {
    if |p| <= lo then -1
    else if p[|p| - 1] != '/' then |p| - 1
    else LastNonSlash(p[..|p| - 1], lo)
  }

  /** The largest index j with lo <= j < hi and p[j] == '/', or -1. */
  function LastSlashBelow(p: string, lo: nat, hi: nat): (j: int)
    requires hi <= |p|
    ensures j == -1 || (lo <= j < hi && p[j] == '/')
    ensures j == -1 ==> forall i :: lo <= i < hi ==> p[i] != '/'
    ensures j >= 0 ==> forall i :: j < i < hi ==> p[i] != '/'
    decreases hi
  {
    if hi <= lo then -1
    else if p[hi - 1] == '/' then hi - 1
    else LastSlashBelow(p, lo, hi - 1)
  }

  /** `path.dirname(p)`: trailing separators are ignored, then everything
      before the last separator is kept; the first character is never examined
      by the backwards scan, so a rooted path keeps its root. */
  function DirName(p: string): (r: string)
  {
    if p == "" then "."
    else
      var hasRoot := p[0] == '/';
      var k := LastNonSlash(p, 1);
      var end := if k == -1 then -1 else LastSlashBelow(p, 1, k);
      if end == -1 then (if hasRoot then "/" else ".")
      else if hasRoot && end == 1 then "//"
      else p[..end]
  }

  /** `path.basename(p)`: the last segment once trailing separators are gone. */
  function BaseName(p: string): (r: string)
    ensures '/' !in r
  {
    var k := LastNonSlash(p, 0);
    if k == -1 then ""
    else
      var j := LastSlashBelow(p, 0, k);
      p[j + 1..k + 1]
  }

  /** A file name after a directory: `dirname` gives the directory and
      `basename` the file name. */
  lemma DirNameBaseName(dir: string, file: string)
    requires PlainSegment(file)
    requires |dir| > 1 && dir[|dir| - 1] != '/'
    ensures DirName(dir + "/" + file) == dir
    ensures BaseName(dir + "/" + file) == file
  {
    var p := dir + "/" + file;
    ChildScan(dir, file, 0);
    ChildScan(dir, file, 1);
    assert p[..|dir|] == dir;
    assert p[|dir| + 1..] == file;
  }

  /** The backward scans over `dir/file` stop at the end of the file name and
      at the separator before it. */
  lemma ChildScan(dir: string, file: string, lo: nat)
    requires PlainSegment(file)
    requires lo < |dir|
    ensures var p := dir + "/" + file;
      LastNonSlash(p, lo) == |p| - 1 && LastSlashBelow(p, lo, |p| - 1) == |dir|
  {
    var p := dir + "/" + file;
    assert p[|p| - 1] == file[|file| - 1];
    assert p[|dir|] == '/';
    forall i | |dir| < i < |p|
      ensures p[i] != '/'
    {
      assert p[i] == file[i - |dir| - 1];
    }
  }

  /** The segments of `path.resolve(cwd, p)` for an absolute `cwd`. */
  function ResolveSegments(cwd: string, p: string): seq<string>
  {
    var full := if |p| > 0 && p[0] == '/' then p else cwd + "/" + p;
    NormalizeSegments(Split(full, '/'), false)
  }

  /** The number of leading segments two segment lists share. */
  function CommonPrefix(a: seq<string>, b: seq<string>): (n: nat)
    ensures n <= |a| && n <= |b|
    ensures a[..n] == b[..n]
    ensures n < |a| && n < |b| ==> a[n] != b[n]
  {
    if |a| == 0 || |b| == 0 || a[0] != b[0] then 0
    else
      var n := CommonPrefix(a[1..], b[1..]);
      assert a[..n + 1] == [a[0]] + a[1..][..n];
      assert b[..n + 1] == [b[0]] + b[1..][..n];
      1 + n
  }

  /** `n` copies of '..'. */
  function Ups(n: nat): (r: seq<string>)
    ensures |r| == n
    ensures forall i :: 0 <= i < n ==> r[i] == ".."
  {
    if n == 0 then [] else [".."] + Ups(n - 1)
  }

  /** `path.relative(from, to)` with both resolved against the working
      directory `cwd`: climb out of what `from` does not share with `to`,
      then descend into the rest of `to`. */
  function Relative(cwd: string, from: string, to: string): string
  {
    var f := ResolveSegments(cwd, from);
    var t := ResolveSegments(cwd, to);
    var n := CommonPrefix(f, t);
    Join(Ups(|f| - n) + t[n..], "/")
  }

  /** A file below a directory is reached by descending into its remaining
      segments. */
  lemma RelativeBelow(cwd: string, dir: seq<string>, rest: seq<string>)
    requires |dir| > 0 && |rest| > 0
    requires forall i :: 0 <= i < |dir| ==> PlainSegment(dir[i])
    requires forall i :: 0 <= i < |rest| ==> PlainSegment(rest[i])
    ensures Relative(cwd, "/" + Join(dir, "/"), "/" + Join(dir + rest, "/")) == Join(rest, "/")
  {
    AbsoluteSegments(dir);
    AbsoluteSegments(dir + rest);
    CommonPrefixExtension(dir, rest);
    assert (dir + rest)[|dir|..] == rest;
    assert Ups(0) + rest == rest;
  }

  lemma {:induction false} CommonPrefixExtension(a: seq<string>, rest: seq<string>)
    ensures CommonPrefix(a, a + rest) == |a|
  {
    if |a| > 0 {
      CommonPrefixExtension(a[1..], rest);
      assert (a + rest)[1..] == a[1..] + rest;
    } else if |rest| > 0 {
      assert |a| == 0;
    }
  }

  /** An absolute path made of plain segments resolves to those segments. */
  lemma AbsoluteSegments(segs: seq<string>)
    requires |segs| > 0
    requires forall i :: 0 <= i < |segs| ==> PlainSegment(segs[i])
    ensures NormalizeSegments(Split("/" + Join(segs, "/"), '/'), false) == segs
  {
    RootedJoin(segs);
    SplitJoin([""] + segs, '/');
    DropLeadingEmpty(segs);
  }

  lemma RootedJoin(segs: seq<string>)
    requires |segs| > 0
    requires forall i :: 0 <= i < |segs| ==> PlainSegment(segs[i])
    ensures "/" + Join(segs, "/") == Join([""] + segs, "/")
    ensures forall i :: 0 <= i < |[""] + segs| ==> '/' !in ([""] + segs)[i]
  {
    assert ([""] + segs)[1..] == segs;
  }

  lemma {:induction false} DropLeadingEmpty(segs: seq<string>)
    requires forall i :: 0 <= i < |segs| ==> PlainSegment(segs[i])
    ensures NormalizeSegments([""] + segs, false) == segs
  {
    if |segs| == 0 {
      assert NormalizeSegments([""], false) == NormalizeSegments([], false);
    } else {
      DropLeadingEmpty(segs[..|segs| - 1]);
      assert ([""] + segs)[..|segs|] == [""] + segs[..|segs| - 1];
      assert segs[..|segs| - 1] + [segs[|segs| - 1]] == segs;
    }
  }
}
