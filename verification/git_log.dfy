/** The release script that reads the git log: the range it asks `git log`
    for, the records it cuts the output into, the Conventional Commits
    header it recognises with a regular expression, and the references it
    collects from a commit's description. The output of `git log` is a
    parameter. */
module GitLog {
  import opened Wrappers
  import opened Text

  // ---------------------------------------------------------------------
  // The log range and the records

  const DefaultTo := "HEAD"

  /** The revision range: `to` alone when `from` is missing, empty or equal
      to `to`, and `from..to` otherwise. */
  function GitRange(from: Option<string>, to: string): (range: string)
    ensures (from.None? || from.value == "" || from.value == to) ==> range == to
    ensures (from.Some? && from.value != "" && from.value != to) ==> range == from.value + ".." + to
  {
    if from.None? || from.value == "" || from.value == to then to else from.value + ".." + to
  }

  /** The arguments of the `git` call. */
  function GitLogArgs(range: string): (args: seq<string>)
    ensures |args| == 5 && args[2] == range
  {
    ["--no-pager", "log", range, "--pretty=\"----%n%s|%h|%an|%ae%n%b\"", "--name-status"]
  }

  const RecordSeparator := "----\n"

  /** `RawGitCommit`; a field missing from the first line is `undefined`. */
  datatype RawGitCommit = RawGitCommit(
    message: string,
    shortHash: Option<string>,
    authorName: Option<string>,
    authorEmail: Option<string>,
    body: string)

  function Field(parts: seq<string>, i: nat): (f: Option<string>)
    ensures f.Some? <==> i < |parts|
    ensures f.Some? ==> f.value == parts[i]
  {
    if i < |parts| then Some(parts[i]) else None
  }

  /** One record: its first line split on '|' into subject, short hash,
      author name and author e-mail, the remaining lines as the body. */
  function ParseRecord(chunk: string): (c: RawGitCommit)
    ensures '\n' !in c.message && '|' !in c.message
  {
    var lines := Split(chunk, '\n');
    var fields := Split(lines[0], '|');
    SplitPiecesFree(lines[0], '|', '\n');
    RawGitCommit(fields[0], Field(fields, 1), Field(fields, 2), Field(fields, 3), Join(lines[1..], "\n"))
  }

  /** The records of `getGitDiff`: the output split on the separator, the
      chunk before the first separator dropped. */
  function GetGitDiff(output: string): (commits: seq<RawGitCommit>)
    ensures |commits| == |SplitOn(output, RecordSeparator)| - 1
  {
    var chunks := SplitOn(output, RecordSeparator);
    seq(|chunks| - 1, i requires 0 <= i < |chunks| - 1 => ParseRecord(chunks[i + 1]))
  }

  /** A commit whose fields are all present and hold neither '|' nor a line
      break. */
  predicate WellFormed(c: RawGitCommit)
  {
    c.shortHash.Some? && c.authorName.Some? && c.authorEmail.Some? &&
    '|' !in c.message && '\n' !in c.message &&
    '|' !in c.shortHash.value && '\n' !in c.shortHash.value &&
    '|' !in c.authorName.value && '\n' !in c.authorName.value &&
    '|' !in c.authorEmail.value && '\n' !in c.authorEmail.value
  }

  /** The record `git log` prints for a commit, without its separator. */
  function FormatRecord(c: RawGitCommit): string
    requires WellFormed(c)
  {
    Join([c.message, c.shortHash.value, c.authorName.value, c.authorEmail.value], "|") + "\n" + c.body
  }

  /** A record is read back as the commit it was printed from. */
  lemma RecordRoundTrip(c: RawGitCommit)
    requires WellFormed(c)
    ensures ParseRecord(FormatRecord(c)) == c
  {
    var fields := [c.message, c.shortHash.value, c.authorName.value, c.authorEmail.value];
    var first := Join(fields, "|");
    assert '\n' !in first by {
      JoinFree(fields, "|", '\n');
    }
    SplitAfterPiece(first, c.body, '\n');
    assert FormatRecord(c) == first + ['\n'] + c.body;
    JoinSplit(c.body, '\n');
    SplitJoin(fields, '|');
  }

  /** The whole log of a list of commits. */
  function FormatLog(cs: seq<RawGitCommit>): string
    requires forall i :: 0 <= i < |cs| ==> WellFormed(cs[i])
  {
    if |cs| == 0 then "" else RecordSeparator + FormatRecord(cs[0]) + FormatLog(cs[1..])
  }

  /** A piece free of the separator, followed by the separator, is cut off
      whole: no occurrence of the separator can start inside it. */
  lemma {:induction false} SplitOnPiece(x: string, rest: string)
    requires !Contains(x, RecordSeparator)
    ensures SplitOn(x + RecordSeparator + rest, RecordSeparator) == [x] + SplitOn(rest, RecordSeparator)
    decreases |x|
  {
    var sep := RecordSeparator;
    var s := x + sep + rest;
    if |x| == 0 {
      assert s == sep + rest;
      assert s[|sep|..] == rest;
    } else {
      assert !(sep <= s) by {
        if |x| >= |sep| {
          assert !(sep <= x);
          assert s[..|sep|] == x[..|sep|];
        } else {
          assert s[4] == sep[4 - |x|] == '-';
        }
      }
      assert !Contains(x[1..], sep);
      SplitOnPiece(x[1..], rest);
      assert s[1..] == x[1..] + sep + rest;
      assert [x[0]] + x[1..] == x;
    }
  }

  /** A piece free of the separator is a single chunk. */
  lemma {:induction false} SplitOnWhole(x: string)
    requires !Contains(x, RecordSeparator)
    ensures SplitOn(x, RecordSeparator) == [x]
    decreases |x|
  {
    if |x| >= |RecordSeparator| {
      assert !Contains(x[1..], RecordSeparator);
      SplitOnWhole(x[1..]);
      assert [x[0]] + x[1..] == x;
    }
  }

  predicate Printable(cs: seq<RawGitCommit>)
  {
    forall i :: 0 <= i < |cs| ==> WellFormed(cs[i]) && !Contains(FormatRecord(cs[i]), RecordSeparator)
  }

  /** The records of the commits, in order. */
  function Records(cs: seq<RawGitCommit>): (rs: seq<string>)
    requires Printable(cs)
    ensures |rs| == |cs|
    ensures forall i :: 0 <= i < |cs| ==> rs[i] == FormatRecord(cs[i])
  {
    seq(|cs|, i requires 0 <= i < |cs| && Printable(cs) => FormatRecord(cs[i]))
  }

  /** The log after its first separator is cut into the records. */
  lemma {:induction false} ChunksAfterFirst(cs: seq<RawGitCommit>)
    requires |cs| > 0 && Printable(cs)
    ensures SplitOn(FormatRecord(cs[0]) + FormatLog(cs[1..]), RecordSeparator) == Records(cs)
    decreases |cs|
  {
    var r0 := FormatRecord(cs[0]);
    if |cs| == 1 {
      assert FormatLog(cs[1..]) == "";
      assert r0 + "" == r0;
      SplitOnWhole(r0);
    } else {
      var rest := cs[1..];
      assert Printable(rest);
      var more := FormatRecord(rest[0]) + FormatLog(rest[1..]);
      assert FormatLog(rest) == RecordSeparator + more;
      assert r0 + FormatLog(rest) == r0 + RecordSeparator + more;
      SplitOnPiece(r0, more);
      ChunksAfterFirst(rest);
      assert Records(cs) == [r0] + Records(rest);
    }
  }

  /** The chunks of the log: an empty one, then one record per commit. */
  lemma ChunksOfLog(cs: seq<RawGitCommit>)
    requires Printable(cs)
    ensures SplitOn(FormatLog(cs), RecordSeparator) == [""] + Records(cs)
  {
    if |cs| == 0 {
      SplitOnWhole("");
    } else {
      var more := FormatRecord(cs[0]) + FormatLog(cs[1..]);
      assert FormatLog(cs) == "" + RecordSeparator + more;
      SplitOnPiece("", more);
      ChunksAfterFirst(cs);
    }
  }

  /** The log of well-formed commits, none of whose records holds the
      separator, is read back as those commits, in order. */
  lemma LogRoundTrip(cs: seq<RawGitCommit>)
    requires Printable(cs)
    ensures GetGitDiff(FormatLog(cs)) == cs
  {
    ChunksOfLog(cs);
    forall i | 0 <= i < |cs|
      ensures GetGitDiff(FormatLog(cs))[i] == cs[i]
    {
      RecordRoundTrip(cs[i]);
    }
  }

  // ---------------------------------------------------------------------
  // The Conventional Commits header

  /** The groups of a match of
      `(?<type>[a-z]+)(\((?<scope>.+)\))?(?<breaking>!)?: (?<description>.+)`
      with the `i` flag, each defaulting to ''. */
  datatype Conventional = Conventional(kind: string, scope: string, description: string, breaking: bool)

  /** `[a-z]` under the `i` flag: an ASCII letter of either case. */
  predicate IsLetter(c: char)
  {
    'a' <= c <= 'z' || 'A' <= c <= 'Z'
  }

  /** `.`: anything but a line terminator. */
  predicate IsLineChar(c: char)
  {
    !IsLineTerminator(c)
  }

  /** The number of letters from `p` on. */
  function LetterRun(s: string, p: nat): (k: nat)
    requires p <= |s|
    ensures p + k <= |s|
    ensures forall i :: p <= i < p + k ==> IsLetter(s[i])
    ensures p + k < |s| ==> !IsLetter(s[p + k])
    decreases |s| - p
  {
    if p == |s| || !IsLetter(s[p]) then 0 else 1 + LetterRun(s, p + 1)
  }

  /** The number of characters `.` matches from `p` on. */
  function LineRun(s: string, p: nat): (k: nat)
    requires p <= |s|
    ensures p + k <= |s|
    ensures forall i :: p <= i < p + k ==> IsLineChar(s[i])
    ensures p + k < |s| ==> !IsLineChar(s[p + k])
    decreases |s| - p
  {
    if p == |s| || !IsLineChar(s[p]) then 0 else 1 + LineRun(s, p + 1)
  }

  /** `: (?<description>.+)` at `r`: the greedy `.+` takes the rest of the
      line, and needs one character at least. */
  function DescriptionAt(s: string, r: nat): (d: Option<string>)
    requires r <= |s|
    ensures d.Some? ==> r + 2 < |s| && s[r] == ':' && s[r + 1] == ' ' && ':' in s
    ensures d.Some? ==> d.value == s[r + 2..r + 2 + LineRun(s, r + 2)] && |d.value| > 0
  {
    if r + 2 < |s| && s[r] == ':' && s[r + 1] == ' ' && IsLineChar(s[r + 2]) then
      Some(s[r + 2..r + 2 + LineRun(s, r + 2)])
    else None
  }

  /** `(?<breaking>!)?: (?<description>.+)` at `r`: the greedy `!?` is
      tried with the '!' first. */
  function TailAt(s: string, r: nat): (t: Option<(bool, string)>)
    requires r <= |s|
    ensures t.Some? && t.value.0 ==> r < |s| && s[r] == '!' && DescriptionAt(s, r + 1) == Some(t.value.1)
    ensures t.Some? && !t.value.0 ==> DescriptionAt(s, r) == Some(t.value.1)
    ensures t.None? ==> DescriptionAt(s, r).None?
    ensures t.Some? ==> ':' in s
  {
    if r < |s| && s[r] == '!' && DescriptionAt(s, r + 1).Some? then Some((true, DescriptionAt(s, r + 1).value))
    else if DescriptionAt(s, r).Some? then Some((false, DescriptionAt(s, r).value))
    else None
  }

  /** `\((?<scope>.+)\)` followed by the tail, with `(` at `q`: the greedy
      `.+` gives the scope `len` characters first, then one fewer, down to
      one. The result holds the position of the closing ')' and the tail. */
  function ScopeSearch(s: string, q: nat, len: nat): (m: Option<(nat, bool, string)>)
    requires q + 1 + len <= |s|
    ensures m.Some? ==> q + 1 < m.value.0 <= q + 1 + len && m.value.0 < |s| && s[m.value.0] == ')'
    ensures m.Some? ==> TailAt(s, m.value.0 + 1) == Some((m.value.1, m.value.2))
    ensures m.Some? ==> ':' in s
    decreases len
  {
    if len == 0 then None
    else
      var j := q + 1 + len;
      var t := if j < |s| && s[j] == ')' then TailAt(s, j + 1) else None;
      if t.Some? then Some((j, t.value.0, t.value.1)) else ScopeSearch(s, q, len - 1)
  }

  /** A match starting at `p`. The letters run as far as they go: a shorter
      type would leave a letter next, which none of '(', '!' and ':'
      matches. The scope group is tried before it is skipped. */
  function MatchAt(s: string, p: nat): (m: Option<Conventional>)
    requires p <= |s|
    ensures m.Some? ==> ':' in s
  {
    var n := LetterRun(s, p);
    if n == 0 then None
    else
      var q := p + n;
      var scoped := if q < |s| && s[q] == '(' then ScopeSearch(s, q, LineRun(s, q + 1)) else None;
      if scoped.Some? then Some(Conventional(s[p..q], s[q + 1..scoped.value.0], scoped.value.2, scoped.value.1))
      else
        var tail := TailAt(s, q);
        if tail.Some? then Some(Conventional(s[p..q], "", tail.value.1, tail.value.0)) else None
  }

  /** The leftmost match, trying each start from `p` on. */
  function SearchFrom(s: string, p: nat): (m: Option<Conventional>)
    requires p <= |s|
    ensures m.Some? ==> ':' in s
    decreases |s| - p
  {
    if p == |s| then None
    else if MatchAt(s, p).Some? then MatchAt(s, p)
    else SearchFrom(s, p + 1)
  }

  /** `parseConventionalCommitsMessage(message)`; `None` is `null`. A
      subject without a colon never matches. */
  function ParseConventional(message: string): (m: Option<Conventional>)
    ensures m.Some? ==> ':' in message
  {
    SearchFrom(message, 0)
  }

  /** The text a match covers. */
  function Shape(c: Conventional): string
  {
    c.kind + (if c.scope == "" then "" else "(" + c.scope + ")") + (if c.breaking then "!" else "") + ": " + c.description
  }

  /** The groups fit the pattern. */
  predicate FitsPattern(c: Conventional)
  {
    |c.kind| > 0 && (forall i :: 0 <= i < |c.kind| ==> IsLetter(c.kind[i])) &&
    (forall i :: 0 <= i < |c.scope| ==> IsLineChar(c.scope[i])) &&
    |c.description| > 0 && (forall i :: 0 <= i < |c.description| ==> IsLineChar(c.description[i]))
  }

  /** Where a tail ends, and what it covers. */
  lemma TailEnd(s: string, r: nat) returns (e: nat)
    requires r <= |s| && TailAt(s, r).Some?
    ensures r <= e <= |s|
    ensures var t := TailAt(s, r).value;
      s[r..e] == (if t.0 then "!" else "") + ": " + t.1 &&
      |t.1| > 0 && forall i :: 0 <= i < |t.1| ==> IsLineChar(t.1[i])
  {
    var t := TailAt(s, r).value;
    var r' := if t.0 then r + 1 else r;
    e := r' + 2 + LineRun(s, r' + 2);
    assert s[r'..e] == ": " + s[r' + 2..e];
    if t.0 {
      assert s[r..e] == "!" + s[r'..e];
    }
  }

  /** The text of a scoped match, cut at its '(' and its ')'. */
  lemma ScopedSlices(s: string, p: nat, q: nat, j: nat, e: nat, c: Conventional)
    requires p < q && q + 1 < j < e <= |s| && s[q] == '(' && s[j] == ')'
    requires c.kind == s[p..q] && c.scope == s[q + 1..j]
    requires s[j + 1..e] == (if c.breaking then "!" else "") + ": " + c.description
    ensures s[p..e] == Shape(c)
  {
    assert s[p..e] == s[p..q] + [s[q]] + s[q + 1..j] + [s[j]] + s[j + 1..e];
  }

  /** A type, a parenthesised scope and a tail, read off the text. */
  lemma ScopedShape(s: string, p: nat, q: nat, j: nat, tail: (bool, string))
    requires p < q && q + 1 < j < |s| && s[q] == '(' && s[j] == ')' && TailAt(s, j + 1) == Some(tail)
    requires forall i :: p <= i < q ==> IsLetter(s[i])
    requires forall i :: q < i < j ==> IsLineChar(s[i])
    ensures var c := Conventional(s[p..q], s[q + 1..j], tail.1, tail.0);
      FitsPattern(c) && exists e :: p <= e <= |s| && s[p..e] == Shape(c)
  {
    var e := TailEnd(s, j + 1);
    ScopedSlices(s, p, q, j, e, Conventional(s[p..q], s[q + 1..j], tail.1, tail.0));
  }

  /** A type and a tail, read off the text. */
  lemma PlainShape(s: string, p: nat, q: nat, tail: (bool, string))
    requires p < q <= |s| && TailAt(s, q) == Some(tail)
    requires forall i :: p <= i < q ==> IsLetter(s[i])
    ensures var c := Conventional(s[p..q], "", tail.1, tail.0);
      FitsPattern(c) && exists e :: p <= e <= |s| && s[p..e] == Shape(c)
  {
    var c := Conventional(s[p..q], "", tail.1, tail.0);
    var e := TailEnd(s, q);
    assert s[p..e] == s[p..q] + s[q..e];
    assert s[p..e] == Shape(c);
  }

  lemma MatchAtSound(s: string, p: nat)
    requires p <= |s| && MatchAt(s, p).Some?
    ensures FitsPattern(MatchAt(s, p).value)
    ensures exists e :: p <= e <= |s| && s[p..e] == Shape(MatchAt(s, p).value)
  {
    var q := p + LetterRun(s, p);
    var scoped := if q < |s| && s[q] == '(' then ScopeSearch(s, q, LineRun(s, q + 1)) else None;
    if scoped.Some? {
      var m := scoped.value;
      ScopedShape(s, p, q, m.0, (m.1, m.2));
    } else {
      PlainShape(s, p, q, TailAt(s, q).value);
    }
  }

  /** A match is found only where the text has the pattern's shape. */
  lemma {:induction false} ParseSound(s: string, p: nat)
    requires p <= |s| && SearchFrom(s, p).Some?
    ensures FitsPattern(SearchFrom(s, p).value)
    ensures exists k, e :: p <= k <= e <= |s| && s[k..e] == Shape(SearchFrom(s, p).value)
    decreases |s| - p
  {
    if MatchAt(s, p).Some? {
      MatchAtSound(s, p);
      var e :| p <= e <= |s| && s[p..e] == Shape(MatchAt(s, p).value);
    } else {
      ParseSound(s, p + 1);
      var k, e :| p + 1 <= k <= e <= |s| && s[k..e] == Shape(SearchFrom(s, p + 1).value);
    }
  }

  lemma LetterRunOf(s: string, t: string)
    requires |t| <= |s| && t <= s && forall i :: 0 <= i < |t| ==> IsLetter(t[i])
    requires |t| < |s| ==> !IsLetter(s[|t|])
    ensures LetterRun(s, 0) == |t|
  {
    assert forall i :: 0 <= i < |t| ==> s[i] == t[i];
  }

  lemma LineRunToEnd(s: string, p: nat)
    requires p <= |s| && forall i :: p <= i < |s| ==> IsLineChar(s[i])
    ensures LineRun(s, p) == |s| - p
  {
  }

  /** `: d` at `r`, at the end of the text, gives the description `d`. */
  lemma DescriptionAtEnd(s: string, r: nat, d: string)
    requires r + 2 + |d| == |s| && s[r] == ':' && s[r + 1] == ' ' && s[r + 2..] == d
    requires |d| > 0 && forall i :: 0 <= i < |d| ==> IsLineChar(d[i])
    ensures DescriptionAt(s, r) == Some(d)
  {
    assert forall i :: r + 2 <= i < |s| ==> s[i] == d[i - (r + 2)];
    LineRunToEnd(s, r + 2);
    assert s[r + 2..r + 2 + LineRun(s, r + 2)] == d;
  }

  /** A header `type: description`, or `type!: description`, gives that
      type and description with no scope, whatever the letters' case. */
  lemma PlainHeader(t: string, bang: bool, d: string)
    requires |t| > 0 && forall i :: 0 <= i < |t| ==> IsLetter(t[i])
    requires |d| > 0 && forall i :: 0 <= i < |d| ==> IsLineChar(d[i])
    ensures ParseConventional(t + (if bang then "!" else "") + ": " + d) == Some(Conventional(t, "", d, bang))
  {
    var b := if bang then "!" else "";
    var s := t + b + ": " + d;
    var q := |t|;
    assert s[..q] == t;
    LetterRunOf(s, t);
    var r := q + |b|;
    assert s[r] == ':' && s[r + 1] == ' ' && s[r + 2..] == d;
    DescriptionAtEnd(s, r, d);
    if bang {
      assert s[q] == '!';
    } else {
      assert s[q] == ':';
    }
    assert TailAt(s, q) == Some((bang, d));
    assert MatchAt(s, 0) == Some(Conventional(s[0..q], "", d, bang));
  }

  /** The part of a scoped header from its ')' on. */
  lemma ScopedTail(s: string, j: nat, bang: bool, d: string)
    requires j < |s| && s[j..] == ")" + (if bang then "!" else "") + ": " + d
    requires |d| > 0 && forall i :: 0 <= i < |d| ==> IsLineChar(d[i]) && d[i] != ')'
    ensures s[j] == ')' && TailAt(s, j + 1) == Some((bang, d))
    ensures forall i :: j < i < |s| ==> IsLineChar(s[i]) && s[i] != ')'
  {
    var b := if bang then "!" else "";
    var r := j + 1 + |b|;
    assert forall i :: j <= i < |s| ==> s[i] == s[j..][i - j];
    assert s[r] == ':' && s[r + 1] == ' ';
    assert s[r + 2..] == s[j..][r + 2 - j..] == d;
    DescriptionAtEnd(s, r, d);
    if bang {
      assert s[j + 1] == '!';
    } else {
      assert s[j + 1] == ':';
    }
    forall i | j < i < |s|
      ensures IsLineChar(s[i]) && s[i] != ')'
    {
      if i >= r + 2 {
        assert s[i] == d[i - r - 2];
      }
    }
  }

  /** A type, `(`, a scope and a tail without ')' give the match whose scope
      ends at the last ')'. */
  lemma ScopedMatch(s: string, q: nat, j: nat, tail: (bool, string))
    requires 0 < q && q + 1 < j < |s| && LetterRun(s, 0) == q && s[q] == '(' && s[j] == ')'
    requires TailAt(s, j + 1) == Some(tail)
    requires forall i :: q < i < |s| ==> IsLineChar(s[i])
    requires forall i :: j < i < |s| ==> s[i] != ')'
    ensures ParseConventional(s) == Some(Conventional(s[..q], s[q + 1..j], tail.1, tail.0))
  {
    LineRunToEnd(s, q + 1);
    ScopeSearchSkips(s, q, LineRun(s, q + 1), j, tail);
    assert MatchAt(s, 0) == Some(Conventional(s[0..q], s[q + 1..j], tail.1, tail.0));
  }

  /** A header with a scope gives that scope as long as the description
      holds no ')': the greedy scope would otherwise reach into it. */
  lemma ScopedHeader(t: string, sc: string, bang: bool, d: string)
    requires |t| > 0 && forall i :: 0 <= i < |t| ==> IsLetter(t[i])
    requires |sc| > 0 && forall i :: 0 <= i < |sc| ==> IsLineChar(sc[i])
    requires |d| > 0 && forall i :: 0 <= i < |d| ==> IsLineChar(d[i]) && d[i] != ')'
    ensures ParseConventional(t + "(" + sc + ")" + (if bang then "!" else "") + ": " + d) == Some(Conventional(t, sc, d, bang))
  {
    var u := ")" + (if bang then "!" else "") + ": " + d;
    var s := t + "(" + sc + u;
    assert t + "(" + sc + ")" + (if bang then "!" else "") + ": " + d == s;
    var q := |t|;
    var j := q + 1 + |sc|;
    assert s[..q] == t;
    assert s[q] == '(';
    assert s[q + 1..j] == sc;
    assert s[j..] == u;
    LetterRunOf(s, t);
    ScopedTail(s, j, bang, d);
    forall i | q < i < j
      ensures IsLineChar(s[i])
    {
      assert s[i] == sc[i - q - 1];
    }
    ScopedMatch(s, q, j, (bang, d));
  }

  /** The greedy scope passes over lengths whose end is no ')'. */
  lemma ScopeSearchSkips(s: string, q: nat, len: nat, j: nat, tail: (bool, string))
    requires q + 1 < j <= q + 1 + len <= |s| && j < |s| && s[j] == ')' && TailAt(s, j + 1) == Some(tail)
    requires forall i :: j < i < |s| ==> s[i] != ')'
    ensures ScopeSearch(s, q, len) == Some((j, tail.0, tail.1))
  {
    ScopeSearchSkipTo(s, q, len, j - q - 1);
    ScopeSearchHit(s, q, j, tail);
  }

  lemma ScopeSearchSkipTo(s: string, q: nat, len: nat, lo: nat)
    requires lo <= len && q + 1 + len <= |s|
    requires forall i :: q + 1 + lo < i < |s| ==> s[i] != ')'
    ensures ScopeSearch(s, q, len) == ScopeSearch(s, q, lo)
  {
    var f := (k: nat) => if q + 1 + k <= |s| then ScopeSearch(s, q, k) else None;
    forall k | lo < k <= len
      ensures f(k) == f(k - 1)
    {
      ScopeSearchPasses(s, q, k);
    }
    SameDownTo(f, lo, len);
  }

  /** A function that keeps its value at each step down keeps it all the
      way down. */
  lemma {:induction false} SameDownTo<T>(f: nat -> T, lo: nat, len: nat)
    requires lo <= len
    requires forall k :: lo < k <= len ==> f(k) == f(k - 1)
    ensures f(len) == f(lo)
    decreases len
  {
    if len > lo {
      SameDownTo(f, lo, len - 1);
    }
  }

  lemma ScopeSearchPasses(s: string, q: nat, len: nat)
    requires 0 < len && q + 1 + len <= |s|
    requires q + 1 + len < |s| ==> s[q + 1 + len] != ')'
    ensures ScopeSearch(s, q, len) == ScopeSearch(s, q, len - 1)
  {
  }

  lemma ScopeSearchHit(s: string, q: nat, j: nat, tail: (bool, string))
    requires q + 1 < j < |s| && s[j] == ')'
    requires TailAt(s, j + 1) == Some(tail)
    ensures ScopeSearch(s, q, j - q - 1) == Some((j, tail.0, tail.1))
  {
  }

  /** The scope is greedy: `fix(a): b): c` has the scope `a): b`. */
  lemma GreedyScope()
    ensures ParseConventional("fix(a): b): c") == Some(Conventional("fix", "a): b", "c", false))
  {
    assert "fix" + "(" + "a): b" + ")" + "" + ": " + "c" == "fix(a): b): c";
    ScopedHeader("fix", "a): b", false, "c");
  }

  // ---------------------------------------------------------------------
  // The references of a commit

  datatype ReferenceType = PullRequest | Issue | Hash

  /** `Reference`; the hash reference holds `undefined` when the record had
      no hash field. */
  datatype Reference = Reference(kind: ReferenceType, value: Option<string>)

  /** `[ a-z]`, without the `i` flag. */
  predicate IsSpaceOrLower(c: char)
  {
    c == ' ' || 'a' <= c <= 'z'
  }

  function DigitRun(s: string, p: nat): (k: nat)
    requires p <= |s|
    ensures p + k <= |s|
    ensures forall i :: p <= i < p + k ==> IsDigit(s[i])
    ensures p + k < |s| ==> !IsDigit(s[p + k])
    decreases |s| - p
  {
    if p == |s| || !IsDigit(s[p]) then 0 else 1 + DigitRun(s, p + 1)
  }

  function SpaceRun(s: string, p: nat): (k: nat)
    requires p <= |s|
    ensures p + k <= |s|
    ensures forall i :: p <= i < p + k ==> IsSpace(s[i])
    ensures p + k < |s| ==> !IsSpace(s[p + k])
    decreases |s| - p
  {
    if p == |s| || !IsSpace(s[p]) then 0 else 1 + SpaceRun(s, p + 1)
  }

  function SpaceOrLowerRun(s: string, p: nat): (k: nat)
    requires p <= |s|
    ensures p + k <= |s|
    ensures forall i :: p <= i < p + k ==> IsSpaceOrLower(s[i])
    ensures p + k < |s| ==> !IsSpaceOrLower(s[p + k])
    decreases |s| - p
  {
    if p == |s| || !IsSpaceOrLower(s[p]) then 0 else 1 + SpaceOrLowerRun(s, p + 1)
  }

  /** `#\d+` at `p`: the '#' and every digit after it; the value and where
      the match ends. */
  function IssueAt(s: string, p: nat): (m: Option<(string, nat)>)
    requires p <= |s|
    ensures m.Some? ==> p < m.value.1 <= |s| && s[p] == '#' && m.value.0 == s[p..m.value.1]
    ensures m.Some? ==> m.value.1 == p + 1 + DigitRun(s, p + 1) && DigitRun(s, p + 1) > 0
    ensures m.None? ==> p == |s| || s[p] != '#' || DigitRun(s, p + 1) == 0
  {
    if p < |s| && s[p] == '#' && DigitRun(s, p + 1) > 0 then
      var e := p + 1 + DigitRun(s, p + 1);
      Some((s[p..e], e))
    else None
  }

  /** `\([ a-z]*(#\d+)\s*\)` at `p`. Each repetition runs as far as it goes:
      what follows it ('#', then a space or ')', then ')') is never in its
      own class. The value is the `#\d+` group. */
  function PullRequestAt(s: string, p: nat): (m: Option<(string, nat)>)
    requires p <= |s|
    ensures m.Some? ==> p < m.value.1 <= |s| && s[p] == '(' && s[m.value.1 - 1] == ')'
    ensures m.Some? ==> var a := p + 1 + SpaceOrLowerRun(s, p + 1);
      a < |s| && IssueAt(s, a).Some? && m.value.0 == IssueAt(s, a).value.0
  {
    if p < |s| && s[p] == '(' then
      var a := p + 1 + SpaceOrLowerRun(s, p + 1);
      var issue := IssueAt(s, a);
      if issue.Some? then
        var w := issue.value.1 + SpaceRun(s, issue.value.1);
        if w < |s| && s[w] == ')' then Some((issue.value.0, w + 1)) else None
      else None
    else None
  }

  /** `matchAll` of the pull-request pattern from `p`: each search resumes
      where the previous match ended. */
  function PullRequestRefs(s: string, p: nat): (refs: seq<string>)
    requires p <= |s|
    decreases |s| - p
  {
    if p == |s| then []
    else
      var m := PullRequestAt(s, p);
      if m.Some? then [m.value.0] + PullRequestRefs(s, m.value.1) else PullRequestRefs(s, p + 1)
  }

  /** `matchAll` of the issue pattern from `p`. */
  function IssueRefs(s: string, p: nat): (refs: seq<string>)
    requires p <= |s|
    decreases |s| - p
  {
    if p == |s| then []
    else
      var m := IssueAt(s, p);
      if m.Some? then [m.value.0] + IssueRefs(s, m.value.1) else IssueRefs(s, p + 1)
  }

  /** A '#' with a digit after it. */
  predicate IssueStart(s: string, k: nat)
  {
    k < |s| && s[k] == '#' && DigitRun(s, k + 1) > 0
  }

  /** The issue scan finds every '#' with a digit after it: the digits of
      an earlier match never reach past a '#'. */
  lemma {:induction false} IssueRefsComplete(s: string, p: nat, k: nat)
    requires p <= k && IssueStart(s, k)
    ensures IssueAt(s, k).Some? && IssueAt(s, k).value.0 in IssueRefs(s, p)
    decreases |s| - p
  {
    if p < k {
      var m := IssueAt(s, p);
      if m.Some? {
        assert !IsDigit(s[k]);
        assert m.value.1 <= k;
        IssueRefsComplete(s, m.value.1, k);
      } else {
        IssueRefsComplete(s, p + 1, k);
      }
    }
  }

  /** Each pull-request reference is the '#' and digits at some '#' from
      `p` on. */
  lemma {:induction false} PullRequestRefsAreIssues(s: string, p: nat)
    requires p <= |s|
    ensures forall v :: v in PullRequestRefs(s, p) ==> exists a :: p <= a && IssueStart(s, a) && IssueAt(s, a).value.0 == v
    decreases |s| - p
  {
    if p < |s| {
      var m := PullRequestAt(s, p);
      if m.Some? {
        PullRequestRefsAreIssues(s, m.value.1);
        var a := p + 1 + SpaceOrLowerRun(s, p + 1);
        assert IssueStart(s, a);
      } else {
        PullRequestRefsAreIssues(s, p + 1);
      }
    }
  }

  /** Every pull-request reference is found again by the issue scan, which
      the issue loop then skips. */
  lemma PullRequestsAreIssues(description: string)
    ensures forall v :: v in PullRequestRefs(description, 0) ==> v in IssueRefs(description, 0)
  {
    PullRequestRefsAreIssues(description, 0);
    forall v | v in PullRequestRefs(description, 0)
      ensures v in IssueRefs(description, 0)
    {
      var a :| 0 <= a && IssueStart(description, a) && IssueAt(description, a).value.0 == v;
      IssueRefsComplete(description, 0, a);
    }
  }

  function Values(refs: seq<Reference>): (vs: seq<Option<string>>)
    ensures |vs| == |refs|
    ensures forall i :: 0 <= i < |refs| ==> vs[i] == refs[i].value
  {
    seq(|refs|, i requires 0 <= i < |refs| => refs[i].value)
  }

  /** The issue loop: each issue value is pushed unless some reference
      already holds it. */
  function AddIssues(refs: seq<Reference>, issues: seq<string>): (r: seq<Reference>)
    ensures |refs| <= |r| && r[..|refs|] == refs
    ensures forall k :: |refs| <= k < |r| ==> r[k].kind == Issue && r[k].value.Some? && r[k].value.value in issues
    ensures forall v :: v in issues ==> Some(v) in Values(r)
    ensures forall k, l :: 0 <= k < l < |r| && |refs| <= l ==> r[k].value != r[l].value
    decreases |issues|
  {
    if |issues| == 0 then refs
    else
      var prev := AddIssues(refs, issues[..|issues| - 1]);
      var v := issues[|issues| - 1];
      assert forall w :: w in issues ==> w in issues[..|issues| - 1] || w == v;
      if Some(v) in Values(prev) then prev
      else
        var r := prev + [Reference(Issue, Some(v))];
        assert Values(r) == Values(prev) + [Some(v)];
        r
  }

  /** The references `parseGitCommit` builds for a description and a hash. */
  function BuiltReferences(description: string, shortHash: Option<string>): seq<Reference>
  {
    var prs := PullRequestRefs(description, 0);
    var pullRequests := seq(|prs|, i requires 0 <= i < |prs| => Reference(PullRequest, Some(prs[i])));
    AddIssues(pullRequests, IssueRefs(description, 0)) + [Reference(Hash, shortHash)]
  }

  /** What `parseGitCommit` returns: `null` for a subject that is no
      Conventional Commits header, and `undefined` otherwise, since its body
      falls off its end after building the references. */
  datatype ParseResult = Null | Undefined

  function ParseResultOf(commit: RawGitCommit): (r: ParseResult)
    ensures r == Null <==> ParseConventional(commit.message).None?
  {
    if ParseConventional(commit.message).None? then Null else Undefined
  }

  /** `parseGitCommit(commit)`; `references` is the local list it builds,
      which no caller sees. */
  method ParseGitCommit(commit: RawGitCommit) returns (r: ParseResult, references: seq<Reference>)
    ensures r == ParseResultOf(commit)
    ensures r == Undefined ==>
      references == BuiltReferences(ParseConventional(commit.message).value.description, commit.shortHash)
  {
    var parsedMessage := ParseConventional(commit.message);
    if parsedMessage.None? {
      return Null, [];
    }
    var description := parsedMessage.value.description;
    references := [];
    var prs := PullRequestRefs(description, 0);
    for i := 0 to |prs|
      invariant |references| == i
      invariant forall k :: 0 <= k < i ==> references[k] == Reference(PullRequest, Some(prs[k]))
    {
      references := references + [Reference(PullRequest, Some(prs[i]))];
    }
    var pullRequests := references;
    assert pullRequests == seq(|prs|, k requires 0 <= k < |prs| => Reference(PullRequest, Some(prs[k])));
    var issues := IssueRefs(description, 0);
    for i := 0 to |issues|
      invariant references == AddIssues(pullRequests, issues[..i])
    {
      assert issues[..i + 1][..i] == issues[..i];
      if Some(issues[i]) !in Values(references) {
        references := references + [Reference(Issue, Some(issues[i]))];
      }
    }
    assert issues[..|issues|] == issues;
    references := references + [Reference(Hash, commit.shortHash)];
    return Undefined, references;
  }

  /** `isBreaking`: a '!' in the header or `BREAKING CHANGE:` in the body. */
  function IsBreaking(c: Conventional, body: string): bool
  {
    c.breaking || Contains(body, "BREAKING CHANGE:")
  }

  /** `Boolean(r)`: `null` and `undefined` are both falsy. */
  predicate Truthy(r: ParseResult)
  {
    match r
    case Null => false
    case Undefined => false
  }

  /** `commits.map(parseGitCommit).filter(Boolean)` in `getVersionChange`. */
  function ParsedCommits(commits: seq<RawGitCommit>): seq<ParseResult>
  {
    if |commits| == 0 then []
    else
      var r := ParseResultOf(commits[0]);
      (if Truthy(r) then [r] else []) + ParsedCommits(commits[1..])
  }

  /** As written, no commit survives the filter, whatever the log says. */
  lemma {:induction false} NoCommitSurvives(commits: seq<RawGitCommit>)
    ensures ParsedCommits(commits) == []
  {
    if |commits| > 0 {
      NoCommitSurvives(commits[1..]);
    }
  }

  /** The commit `parseGitCommit` evidently means to return. */
  datatype GitCommit = GitCommit(
    raw: RawGitCommit,
    kind: string,
    scope: string,
    description: string,
    isBreaking: bool,
    references: seq<Reference>)

  /** `parseGitCommit` returning the commit it builds. */
  function ParseGitCommitIntended(commit: RawGitCommit): (r: Option<GitCommit>)
    ensures r.None? <==> ParseConventional(commit.message).None?
    ensures r.Some? ==> r.value.raw == commit && r.value.description == ParseConventional(commit.message).value.description
  {
    var parsed := ParseConventional(commit.message);
    if parsed.None? then None
    else
      var c := parsed.value;
      Some(GitCommit(commit, c.kind, c.scope, c.description, IsBreaking(c, commit.body),
        BuiltReferences(c.description, commit.shortHash)))
  }

  /** `commits.map(parseGitCommit).filter(Boolean)` with the intended
      return. */
  function ParsedCommitsIntended(commits: seq<RawGitCommit>): seq<GitCommit>
  {
    if |commits| == 0 then []
    else
      var r := ParseGitCommitIntended(commits[0]);
      (if r.Some? then [r.value] else []) + ParsedCommitsIntended(commits[1..])
  }

  /** With the intended return, exactly the commits with a Conventional
      Commits header are kept, in order. */
  lemma {:induction false} ConventionalCommitsKept(commits: seq<RawGitCommit>)
    ensures var kept := ParsedCommitsIntended(commits);
      |kept| == |Conventionals(commits)| &&
      forall i :: 0 <= i < |kept| ==> kept[i].raw == Conventionals(commits)[i]
  {
    if |commits| > 0 {
      ConventionalCommitsKept(commits[1..]);
    }
  }

  /** The commits whose subject is a Conventional Commits header. */
  function Conventionals(commits: seq<RawGitCommit>): (cs: seq<RawGitCommit>)
    ensures forall c :: c in cs <==> c in commits && ParseConventional(c.message).Some?
  {
    if |commits| == 0 then []
    else
      assert forall c :: c in commits <==> c == commits[0] || c in commits[1..];
      (if ParseConventional(commits[0].message).Some? then [commits[0]] else []) + Conventionals(commits[1..])
  }
}
