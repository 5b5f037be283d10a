/** The emulator helpers of the firebase package: the first configured
    emulator port (with an optional `--only` filter), the start-or-reuse
    decision of `startEmulators`, and the parsing of a `ps`/`wmic` process
    listing into rows and the descendants of a process. HTTP probes, spawning
    and killing are oracles. */
module FirebaseUtils {
  import opened Wrappers
  import opened Text
  import opened Records
  import opened Emulators
  import Urls

  const MissingEmulators := Error("firebase.json does not contain the necessary emulators configuration")

  // ---------------------------------------------------------------------
  // The first emulator port

  /** `(only && only.includes(emulator)) || !only`. */
  predicate PassesFilter(only: Option<string>, key: string)
  {
    only.None? || only.value == "" || Contains(only.value, key)
  }

  /** An entry whose port would be taken. */
  predicate Selected(entry: (string, EmulatorValue), only: Option<string>)
  {
    PortOf(entry.1).Truthy() && PassesFilter(only, entry.0)
  }

  /** The port of the first selected entry in key order, or `undefined`. */
  function FirstPort(entries: EmulatorEntries, only: Option<string>): (p: PortValue)
    ensures p == NoPort <==> forall i :: 0 <= i < |entries| ==> !Selected(entries[i], only)
    ensures p != NoPort ==> p.Truthy()
    ensures p != NoPort ==> exists i :: (0 <= i < |entries| && Selected(entries[i], only) && PortOf(entries[i].1) == p &&
      forall j :: 0 <= j < i ==> !Selected(entries[j], only))
  {
    if |entries| == 0 then NoPort
    else if Selected(entries[0], only) then PortOf(entries[0].1)
    else
      var p := FirstPort(entries[1..], only);
      if p == NoPort then p
      else
        var i :| 0 <= i < |entries[1..]| && Selected(entries[1..][i], only) && PortOf(entries[1..][i].1) == p &&
          forall j :: 0 <= j < i ==> !Selected(entries[1..][j], only);
        assert Selected(entries[i + 1], only) && forall j :: 0 <= j < i + 1 ==> !Selected(entries[j], only);
        p
  }

  /** `getFirstEmulatorPort(context, only)` once `firebase.json` is read:
      the port is kept by the first selected key, later ones are skipped. */
  method GetFirstEmulatorPort(config: FirebaseJson, only: Option<string>) returns (r: Result<PortValue>)
    ensures config.emulators.None? ==> r == Err(MissingEmulators)
    ensures config.emulators.Some? ==> r == Ok(FirstPort(config.emulators.value, only))
  {
    if config.emulators.None? {
      return Err(MissingEmulators);
    }
    var entries := config.emulators.value;
    var port := NoPort;
    var i := 0;
    while i < |entries|
      invariant i <= |entries|
      invariant port == NoPort || port.Truthy()
      invariant FirstPort(entries, only) == if port.Truthy() then port else FirstPort(entries[i..], only)
    {
      var (emulator, value) := entries[i];
      assert entries[i..][1..] == entries[i + 1..];
      if !port.Truthy() && PortOf(value).Truthy() {
        if (only.Some? && only.value != "" && Contains(only.value, emulator)) || !(only.Some? && only.value != "") {
          port := PortOf(value);
        }
      }
      i := i + 1;
    }
    r := Ok(port);
  }

  /** The '--'-separated part of the command that mentions `only`, if any. */
  function OnlyPartOf(command: string): (r: Option<string>)
    ensures r.Some? ==> Contains(r.value, "only")
  {
    FirstContaining(SplitOn(command, "--"), "only")
  }

  function FirstContaining(parts: seq<string>, word: string): (r: Option<string>)
    ensures r.None? <==> forall i :: 0 <= i < |parts| ==> !Contains(parts[i], word)
    ensures r.Some? ==> Contains(r.value, word) && r.value in parts
  {
    if |parts| == 0 then None
    else if Contains(parts[0], word) then Some(parts[0])
    else FirstContaining(parts[1..], word)
  }

  /** The address probed for a port. */
  function Url(port: PortValue): string
  {
    "http://localhost:" + port.Render()
  }

  /** The port `isServerUp` probes: the filter is the `only` part. */
  function ProbePort(entries: EmulatorEntries, command: string): PortValue
  {
    FirstPort(entries, OnlyPartOf(command))
  }

  /** The port `waitForServer` polls: the filter is the whole command. */
  function WaitPort(entries: EmulatorEntries, command: string): PortValue
  {
    FirstPort(entries, Some(command))
  }

  /** The two filters disagree: without any `only` part, the probe takes the
      first truthy port while the wait keeps only keys written in the
      command, and polls `localhost:undefined` when none is. */
  lemma ProbeAndWaitDiffer(entries: EmulatorEntries, command: string)
    requires command != ""
    requires forall i :: 0 <= i < |SplitOn(command, "--")| ==> !Contains(SplitOn(command, "--")[i], "only")
    requires forall i :: 0 <= i < |entries| ==> !Contains(command, entries[i].0)
    requires exists i :: 0 <= i < |entries| && PortOf(entries[i].1).Truthy()
    ensures ProbePort(entries, command).Truthy()
    ensures WaitPort(entries, command) == NoPort
  {
    var i :| 0 <= i < |entries| && PortOf(entries[i].1).Truthy();
    assert Selected(entries[i], None);
  }

  /** With an `only` part, both filters keep the keys it names; the wait
      also keeps keys written elsewhere in the command. */
  lemma OnlyPartWithinCommand(entries: EmulatorEntries, command: string, key: string)
    requires OnlyPartOf(command).Some? && PassesFilter(OnlyPartOf(command), key)
    ensures PassesFilter(Some(command), key)
  {
    var part := OnlyPartOf(command).value;
    var parts := SplitOn(command, "--");
    JoinSplitOn(command, "--");
    var k :| 0 <= k < |parts| && parts[k] == part;
    JoinPiece(parts, "--", k);
    ContainsTransitive(command, part, key);
  }

  /** A piece of a join is contained in the joined string. */
  lemma {:induction false} JoinPiece(parts: seq<string>, sep: string, k: nat)
    requires k < |parts|
    ensures Contains(Join(parts, sep), parts[k])
  {
    if k == 0 {
      if |parts| == 1 {
        PrefixContained(parts[0], "");
        assert parts[0] + "" == parts[0];
      } else {
        PrefixContained(parts[0], sep + Join(parts[1..], sep));
        assert Join(parts, sep) == parts[0] + (sep + Join(parts[1..], sep));
      }
    } else {
      JoinPiece(parts[1..], sep, k - 1);
      ContainedAfter(parts[0] + sep, Join(parts[1..], sep), parts[k]);
      assert Join(parts, sep) == (parts[0] + sep) + Join(parts[1..], sep);
    }
  }

  lemma PrefixContained(a: string, b: string)
    ensures Contains(a + b, a)
  {
    assert a <= a + b;
  }

  lemma {:induction false} ContainedAfter(a: string, b: string, sub: string)
    requires Contains(b, sub)
    ensures Contains(a + b, sub)
    decreases |a|
  {
    if |a| > 0 {
      ContainedAfter(a[1..], b, sub);
      assert (a + b)[1..] == a[1..] + b;
    } else {
      assert a + b == b;
    }
  }

  /** `Contains` is transitive. */
  lemma {:induction false} ContainsTransitive(s: string, mid: string, sub: string)
    requires Contains(s, mid) && Contains(mid, sub)
    ensures Contains(s, sub)
    decreases |s|
  {
    if mid <= s {
      PrefixThenContains(s, mid, sub);
    } else {
      ContainsTransitive(s[1..], mid, sub);
    }
  }

  lemma {:induction false} PrefixThenContains(s: string, mid: string, sub: string)
    requires mid <= s && Contains(mid, sub)
    ensures Contains(s, sub)
    decreases |mid|
  {
    if sub <= mid {
      assert sub <= s by {
        assert s[..|sub|] == mid[..|sub|];
      }
    } else {
      assert |mid| > 0 && Contains(mid[1..], sub);
      assert mid[1..] <= s[1..] by {
        assert s[1..][..|mid| - 1] == mid[1..];
      }
      PrefixThenContains(s[1..], mid[1..], sub);
    }
  }

  /** `new URL` accepts the address built for the port. */
  predicate UrlParses(port: PortValue)
  {
    Urls.PortTextParses(port.Render())
  }

  /** An undefined port builds `http://localhost:undefined`, which `new URL`
      rejects. */
  lemma UndefinedPortRejected()
    ensures !UrlParses(NoPort)
  {
    Urls.UndefinedRejected();
  }

  /** In the situation of `ProbeAndWaitDiffer` the probe's address parses
      whenever its port is a number in range, while the wait's never does. */
  lemma UnnamedKeysNeverPolled(entries: EmulatorEntries, command: string)
    requires command != ""
    requires forall i :: 0 <= i < |SplitOn(command, "--")| ==> !Contains(SplitOn(command, "--")[i], "only")
    requires forall i :: 0 <= i < |entries| ==> !Contains(command, entries[i].0)
    requires exists i :: 0 <= i < |entries| && PortOf(entries[i].1).Truthy()
    ensures !UrlParses(WaitPort(entries, command))
    ensures ProbePort(entries, command).NumPort? ==>
      (UrlParses(ProbePort(entries, command)) <==> 0 <= ProbePort(entries, command).n <= Urls.MaxPort)
  {
    ProbeAndWaitDiffer(entries, command);
    UndefinedPortRejected();
    if ProbePort(entries, command).NumPort? {
      Urls.NumberPortParses(ProbePort(entries, command).n);
    }
  }

  /** How `startEmulators` ends. */
  datatype EmulatorStart =
    | AlreadyUp          // the probed port answered: nothing is started and no killer is returned
    | Started            // the emulators were spawned and answered in time: the killer is returned
    | TimedOut           // the emulators were spawned but never answered within 120 seconds: it rejects
    | NeverSettles       // `new URL` rejected the probe's address: `request`'s promise rejects unhandled,
                         // the probe's own promise is never resolved, and nothing is started

  /** `startEmulators(command, context)`: `probeAnswers` is whether the probe
      of the `only`-filtered port answers, `answersInTime` whether the polled
      port answers before the timeout. An address `new URL` rejects is never
      requested: a rejected probe address leaves the call pending for ever,
      and a rejected wait address leaves only the timeout to fire. `probed`
      lists the addresses handed to `request`. */
  method StartEmulators(command: string, config: FirebaseJson, probeAnswers: bool, answersInTime: bool)
    returns (r: Result<EmulatorStart>, probed: seq<string>)
    ensures config.emulators.None? ==> r == Err(MissingEmulators) && probed == []
    ensures config.emulators.Some? ==>
      var entries := config.emulators.value;
      var probe := ProbePort(entries, command);
      var wait := WaitPort(entries, command);
      && |probed| > 0 && probed[0] == Url(probe)
      && (!UrlParses(probe) ==> r == Ok(NeverSettles) && probed == [Url(probe)])
      && (UrlParses(probe) && probeAnswers ==> r == Ok(AlreadyUp) && probed == [Url(probe)])
      && (UrlParses(probe) && !probeAnswers ==> probed == [Url(probe), Url(wait)])
      && (UrlParses(probe) && !probeAnswers ==> r == Ok(if answersInTime && UrlParses(wait) then Started else TimedOut))
  {
    var first := GetFirstEmulatorPort(config, OnlyPartOf(command));
    if first.Err? {
      return Err(first.failure), [];
    }
    probed := [Url(first.value)];
    if !UrlParses(first.value) {
      return Ok(NeverSettles), probed;
    }
    if probeAnswers {
      return Ok(AlreadyUp), probed;
    }
    var port := GetFirstEmulatorPort(config, Some(command));
    probed := probed + [Url(port.value)];
    r := Ok(if answersInTime && UrlParses(port.value) then Started else TimedOut);
  }

  // ---------------------------------------------------------------------
  // Process listings

  /** `normalizeHeaders(str)`: the Windows and `ps` column names mapped to
      one vocabulary. */
  function NormalizeHeaders(str: string): (r: string)
    ensures str == "Name" || str == "COMM" ==> r == "COMMAND"
    ensures str == "ParentProcessId" ==> r == "PPID"
    ensures str == "ProcessId" ==> r == "PID"
    ensures str == "Status" ==> r == "STAT"
    ensures str !in ["Name", "COMM", "ParentProcessId", "ProcessId", "Status"] ==> r == str
  {
    if str == "Name" || str == "COMM" then "COMMAND"
    else if str == "ParentProcessId" then "PPID"
    else if str == "ProcessId" then "PID"
    else if str == "Status" then "STAT"
    else str
  }

  /** Normalising is idempotent: a normalised header maps to itself. */
  lemma NormalizeHeadersIdempotent(str: string)
    ensures NormalizeHeaders(NormalizeHeaders(str)) == NormalizeHeaders(str)
  {
  }

  predicate NotSpace(c: char)
  {
    !IsSpace(c)
  }

  /** `s.split(/\s+/)`: the pieces between runs of white space. */
  function Words(s: string): (ws: seq<string>)
    ensures |ws| >= 1
    decreases |s|
  {
    var k := RunLength(s, NotSpace);
    if k == |s| then [s]
    else
      var run := RunLength(s[k..], IsSpace);
      [s[..k]] + Words(s[k + run..])
  }

  /** A word, white space, and the rest: the word comes first. */
  lemma WordsCons(w: string, gap: string, rest: string)
    requires |w| > 0 && |gap| > 0
    requires forall j :: 0 <= j < |w| ==> !IsSpace(w[j])
    requires forall j :: 0 <= j < |gap| ==> IsSpace(gap[j])
    requires |rest| > 0 ==> !IsSpace(rest[0])
    ensures Words(w + gap + rest) == [w] + Words(rest)
  {
    var s := w + gap + rest;
    WordRun(w, gap + rest);
    assert s == w + (gap + rest);
    assert s[|w|..] == gap + rest;
    GapRun(gap, rest);
    WordsAt(s, |w|, |gap|);
    assert s[|w| + |gap|..] == rest;
    assert s[..|w|] == w;
  }

  lemma WordRun(w: string, tail: string)
    requires |tail| > 0 && IsSpace(tail[0])
    requires forall j :: 0 <= j < |w| ==> !IsSpace(w[j])
    ensures RunLength(w + tail, NotSpace) == |w|
  {
    var s := w + tail;
    forall i | 0 <= i < |w| ensures NotSpace(s[i]) {
      assert s[i] == w[i];
    }
    assert s[|w|] == tail[0];
    RunLengthExact(s, NotSpace, |w|);
  }

  lemma GapRun(gap: string, rest: string)
    requires forall j :: 0 <= j < |gap| ==> IsSpace(gap[j])
    requires |rest| > 0 ==> !IsSpace(rest[0])
    ensures RunLength(gap + rest, IsSpace) == |gap|
  {
    var t := gap + rest;
    forall i | 0 <= i < |gap| ensures IsSpace(t[i]) {
      assert t[i] == gap[i];
    }
    assert |rest| > 0 ==> t[|gap|] == rest[0];
    RunLengthExact(t, IsSpace, |gap|);
  }

  /** One step of `Words`: the first word, then the words after the run of
      white space that follows it. */
  lemma WordsAt(s: string, k: nat, run: nat)
    requires k < |s| && RunLength(s, NotSpace) == k
    requires RunLength(s[k..], IsSpace) == run
    ensures Words(s) == [s[..k]] + Words(s[k + run..])
  {
  }

  lemma RunLengthExact(s: string, p: char -> bool, k: nat)
    requires k <= |s|
    requires forall i :: 0 <= i < k ==> p(s[i])
    requires k < |s| ==> !p(s[k])
    ensures RunLength(s, p) == k
  {
  }

  /** A row of the listing: column name to value; `undefined` when the line
      ran out of columns. */
  type Row = Record<Option<string>>

  /** `columns.shift()`. */
  function Shift(columns: seq<string>): (Option<string>, seq<string>)
  {
    if |columns| == 0 then (None, []) else (Some(columns[0]), columns[1..])
  }

  /** The row the loop of `listChildProcessPID` builds from the headers left
      `h`, the columns left, and the row so far: each header but the last
      takes one column, the last takes the rest joined by ' '. */
  function RowOf(h: seq<string>, columns: seq<string>, row: Row): Row
    decreases |h|
  {
    if |h| == 0 then row
    else if |h| == 1 then Put(row, h[0], Some(Join(columns, " ")))
    else
      var (c, rest) := Shift(columns);
      RowOf(h[1..], rest, Put(row, h[0], c))
  }

  /** The loop that shifts `h` and `columns` into a row. */
  method ParseRow(headers: seq<string>, columns: seq<string>) returns (row: Row)
    ensures row == RowOf(headers, columns, [])
  {
    row := [];
    var h := headers;
    var cols := columns;
    while |h| > 0
      invariant RowOf(h, cols, row) == RowOf(headers, columns, [])
      decreases |h|
    {
      var key := h[0];
      h := h[1..];
      if |h| > 0 {
        var (c, rest) := Shift(cols);
        row := Put(row, key, c);
        cols := rest;
      } else {
        row := Put(row, key, Some(Join(cols, " ")));
      }
    }
  }

  predicate Distinct(h: seq<string>)
  {
    forall i, j :: 0 <= i < j < |h| ==> h[i] != h[j]
  }

  /** With distinct headers and at least as many columns: header i holds
      column i, and the last header the remaining columns joined by ' '. */
  lemma {:induction false} RowFields(h: seq<string>, columns: seq<string>, row: Row, i: nat)
    requires Distinct(h) && i < |h| && |columns| >= |h|
    ensures Get(RowOf(h, columns, row), h[i]) ==
      Some(Some(if i < |h| - 1 then columns[i] else Join(columns[|h| - 1..], " ")))
    decreases |h|
  {
    if |h| == 1 {
      PutGet(row, h[0], Some(Join(columns, " ")), h[0]);
      assert columns[0..] == columns;
    } else {
      var row' := Put(row, h[0], Some(columns[0]));
      assert Distinct(h[1..]);
      if i == 0 {
        RowKeeps(h[1..], columns[1..], row', h[0]);
        PutGet(row, h[0], Some(columns[0]), h[0]);
      } else {
        RowFields(h[1..], columns[1..], row', i - 1);
        assert columns[1..][|h[1..]| - 1..] == columns[|h| - 1..];
      }
    }
  }

  /** Keys not among the headers keep their value. */
  lemma {:induction false} RowKeeps(h: seq<string>, columns: seq<string>, row: Row, k: string)
    requires k !in h
    ensures Get(RowOf(h, columns, row), k) == Get(row, k)
    decreases |h|
  {
    if |h| == 1 {
      PutGet(row, h[0], Some(Join(columns, " ")), k);
    } else if |h| > 1 {
      var (c, rest) := Shift(columns);
      PutGet(row, h[0], c, k);
      RowKeeps(h[1..], rest, Put(row, h[0], c), k);
    }
  }

  /** A field as an object key: `undefined` when missing. */
  function Field(row: Row, name: string): string
  {
    var v := Get(row, name);
    if v.Some? && v.value.Some? then v.value.value else "undefined"
  }

  /** The properties every plain object `{}` inherits from
      `Object.prototype`; each reads as a truthy value. */
  const ObjectPrototypeKeys: set<string> := {
    "constructor", "__proto__", "toString", "toLocaleString", "valueOf",
    "hasOwnProperty", "isPrototypeOf", "propertyIsEnumerable",
    "__defineGetter__", "__defineSetter__", "__lookupGetter__", "__lookupSetter__"
  }

  /** `parents[ppid]` is truthy: the key was set to `true`, or it names an
      inherited property. */
  predicate IsParent(parents: set<string>, ppid: string)
  {
    ppid in parents || ppid in ObjectPrototypeKeys
  }

  /** The rows accepted in one pass: a row is a child when its parent is the
      root or a row accepted before it, or when its parent column reads as
      an inherited property of the `parents` object. */
  function Children(rows: seq<Row>, parents: set<string>): seq<Row>
  {
    if |rows| == 0 then []
    else if IsParent(parents, Field(rows[0], "PPID")) then
      [rows[0]] + Children(rows[1..], parents + {Field(rows[0], "PID")})
    else Children(rows[1..], parents)
  }

  /** The descendant collection of `listChildProcessPID`. */
  method CollectChildren(rows: seq<Row>, pid: string) returns (children: seq<Row>)
    ensures children == Children(rows, {pid})
  {
    var parents := {pid};
    children := [];
    var i := 0;
    while i < |rows|
      invariant i <= |rows|
      invariant children + Children(rows[i..], parents) == Children(rows, {pid})
    {
      var p := rows[i];
      assert rows[i..][1..] == rows[i + 1..];
      if IsParent(parents, Field(p, "PPID")) {
        parents := parents + {Field(p, "PID")};
        children := children + [p];
      }
      i := i + 1;
    }
  }

  /** Every row whose parent column is truthy in `parents` (a key set there,
      or an inherited one) is a child. */
  lemma {:induction false} DirectChildrenKept(rows: seq<Row>, parents: set<string>, i: nat)
    requires i < |rows| && IsParent(parents, Field(rows[i], "PPID"))
    ensures rows[i] in Children(rows, parents)
  {
    if i > 0 {
      var next := if IsParent(parents, Field(rows[0], "PPID")) then parents + {Field(rows[0], "PID")} else parents;
      DirectChildrenKept(rows[1..], next, i - 1);
    }
  }

  /** Only rows of the listing are reported, and never more than there
      are. */
  lemma {:induction false} ChildrenFromRows(rows: seq<Row>, parents: set<string>)
    ensures |Children(rows, parents)| <= |rows|
    ensures forall r :: r in Children(rows, parents) ==> r in rows
  {
    if |rows| > 0 {
      ChildrenFromRows(rows[1..], parents);
      ChildrenFromRows(rows[1..], parents + {Field(rows[0], "PID")});
    }
  }

  /** The single pass misses a grandchild listed before its parent, and finds
      it when listed after. */
  lemma GrandchildOrder(root: string, child: string, grandchild: string)
    requires child != root && child !in ObjectPrototypeKeys
    ensures var c := [("PPID", Some(root)), ("PID", Some(child))];
      var g := [("PPID", Some(child)), ("PID", Some(grandchild))];
      Children([g, c], {root}) == [c] && Children([c, g], {root}) == [c, g]
  {
    var c := [("PPID", Some(root)), ("PID", Some(child))];
    var g := [("PPID", Some(child)), ("PID", Some(grandchild))];
    var ppid := "PPID";
    var pid := "PID";
    assert pid != ppid by {
      assert |pid| != |ppid|;
    }
    assert Get(c, ppid) == Some(Some(root));
    assert Get(c, pid) == Some(Some(child)) by {
      assert c[1..] == [(pid, Some(child))];
    }
    assert Get(g, ppid) == Some(Some(child));
    assert Field(c, ppid) == root && Field(c, pid) == child;
    assert Field(g, ppid) == child;
    assert [g, c][1..] == [c];
    assert [c, g][1..] == [g];
    assert Children([c], {root}) == [c];
    assert Children([g], {root, child}) == [g];
    assert Children([g, c], {root}) == [c];
    assert {root} + {child} == {root, child};
    assert Children([c, g], {root}) == [c] + Children([g], {root, child});
  }

  /** A row whose parent column reads `constructor` is accepted whatever the
      root, since `parents.constructor` is inherited and truthy. */
  lemma InheritedParentAccepted(root: string, child: string)
    ensures var r := [("PPID", Some("constructor")), ("PID", Some(child))];
      Children([r], {root}) == [r]
  {
    var r := [("PPID", Some("constructor")), ("PID", Some(child))];
    assert Get(r, "PPID") == Some(Some("constructor"));
    assert Field(r, "PPID") == "constructor";
    assert "constructor" in ObjectPrototypeKeys;
    assert [r][1..] == [];
  }

  /** The listing's lines: the first gives the headers, each later one a
      row; then the descendants of `pid`. */
  function ListChildren(lines: seq<string>, pid: string): seq<Row>
  {
    if |lines| == 0 then []
    else
      var headers := MapNormalize(Words(Trim(lines[0])));
      Children(Rows(headers, lines[1..]), {pid})
  }

  function MapNormalize(hs: seq<string>): (r: seq<string>)
    ensures |r| == |hs| && forall i :: 0 <= i < |hs| ==> r[i] == NormalizeHeaders(hs[i])
  {
    if |hs| == 0 then [] else [NormalizeHeaders(hs[0])] + MapNormalize(hs[1..])
  }

  function Rows(headers: seq<string>, lines: seq<string>): (r: seq<Row>)
    ensures |r| == |lines|
    ensures forall i :: 0 <= i < |lines| ==> r[i] == RowOf(headers, Words(Trim(lines[i])), [])
  {
    if |lines| == 0 then [] else [RowOf(headers, Words(Trim(lines[0])), [])] + Rows(headers, lines[1..])
  }
}
