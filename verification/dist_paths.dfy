/** The two release scripts of the repository: before publishing, every path
    in a plugin's `executors.json` and `generators.json` gets a `dist`
    segment inserted after its first '/'-segment, and afterwards every `dist`
    segment is removed again. The two manifest files are the state; a file
    that does not exist is skipped. Console messages are not modelled. */
module DistPaths {
  import opened Wrappers
  import opened Text
  import opened Records

  const Dist := "dist"

  /** `path.split('/')`. */
  function Segments(path: string): (parts: seq<string>)
    ensures |parts| >= 1
    ensures forall i :: 0 <= i < |parts| ==> '/' !in parts[i]
    ensures forall x :: x in parts ==> '/' !in x
  {
    Split(path, '/')
  }

  /** `[...parts.slice(0, 1), 'dist', ...parts.slice(1)]`. */
  function InsertedSegments(parts: seq<string>): (r: seq<string>)
    requires |parts| >= 1
    ensures |r| == |parts| + 1
    ensures r[0] == parts[0] && r[1] == Dist
    ensures forall i :: 1 <= i < |parts| ==> r[i + 1] == parts[i]
  {
    parts[..1] + [Dist] + parts[1..]
  }

  /** The path as `process-executors-and-generators` rewrites it. */
  function InsertDist(path: string): string
  {
    Join(InsertedSegments(Segments(path)), "/")
  }

  /** `parts.filter(x => x !== 'dist')`. */
  function WithoutDist(parts: seq<string>): (r: seq<string>)
    ensures |r| <= |parts|
    ensures Dist !in r
    ensures forall x :: x in r ==> x in parts
    ensures Dist !in parts ==> r == parts
    ensures Dist in parts ==> |r| < |parts|
  {
    if |parts| == 0 then []
    else if parts[0] == Dist then WithoutDist(parts[1..])
    else [parts[0]] + WithoutDist(parts[1..])
  }

  /** The path as `revert-executors-and-generators` rewrites it. */
  function RemoveDist(path: string): string
  {
    Join(WithoutDist(Segments(path)), "/")
  }

  lemma {:induction false} WithoutDistAppend(a: seq<string>, b: seq<string>)
    ensures WithoutDist(a + b) == WithoutDist(a) + WithoutDist(b)
    decreases |a|
  {
    if |a| > 0 {
      assert (a + b)[1..] == a[1..] + b;
      assert (a + b)[0] == a[0];
      WithoutDistAppend(a[1..], b);
      if a[0] == Dist {
        assert WithoutDist(a + b) == WithoutDist(a[1..] + b);
      } else {
        assert WithoutDist(a + b) == [a[0]] + WithoutDist(a[1..] + b);
        assert WithoutDist(a) == [a[0]] + WithoutDist(a[1..]);
      }
    } else {
      assert a + b == b;
    }
  }

  /** The processed path has exactly one more segment: `dist`, in second
      place, with the other segments in their order. */
  lemma InsertDistSegments(path: string)
    ensures Segments(InsertDist(path)) == InsertedSegments(Segments(path))
    ensures |Segments(InsertDist(path))| == |Segments(path)| + 1
  {
    var ins := InsertedSegments(Segments(path));
    assert forall i :: 0 <= i < |ins| ==> '/' !in ins[i];
    SplitJoin(ins, '/');
  }

  /** `a/b/c` becomes `a/dist/b/c`. */
  lemma InsertDistThreeSegments()
    ensures InsertDist("a/b/c") == "a/dist/b/c"
  {
    var parts := ["a", "b", "c"];
    assert Join(parts, "/") == "a/b/c" by {
      assert Join(["c"], "/") == "c";
      assert Join(["b", "c"], "/") == "b/c";
    }
    SplitJoin(parts, '/');
    assert InsertedSegments(parts) == ["a", "dist", "b", "c"];
    assert Join(["a", "dist", "b", "c"], "/") == "a/dist/b/c" by {
      assert Join(["b", "c"], "/") == "b/c";
      assert Join(["dist", "b", "c"], "/") == "dist/b/c";
    }
  }

  /** A single segment `x` becomes `x/dist`. */
  lemma InsertDistOneSegment()
    ensures InsertDist("x") == "x/dist"
  {
    SplitNoSeparator("x", '/');
    assert InsertedSegments(["x"]) == ["x", "dist"];
    assert Join(["x", "dist"], "/") == "x/dist";
  }

  /** The reverted path keeps every segment other than `dist`, in order. */
  lemma RemoveDistSegments(path: string)
    ensures WithoutDist(Segments(path)) != [] ==> Segments(RemoveDist(path)) == WithoutDist(Segments(path))
    ensures WithoutDist(Segments(path)) == [] ==> RemoveDist(path) == ""
  {
    var f := WithoutDist(Segments(path));
    if f != [] {
      SplitJoin(f, '/');
    }
  }

  /** Reverting twice is reverting once. */
  lemma RemoveDistIdempotent(path: string)
    ensures RemoveDist(RemoveDist(path)) == RemoveDist(path)
  {
    var f := WithoutDist(Segments(path));
    RemoveDistSegments(path);
    if f == [] {
      assert Segments("") == [""];
    }
  }

  /** Reverting a processed path is reverting the path itself: the inserted
      segment is removed along with any `dist` the path had. */
  lemma RemoveAfterInsert(path: string)
    ensures RemoveDist(InsertDist(path)) == RemoveDist(path)
  {
    var parts := Segments(path);
    InsertDistSegments(path);
    assert InsertedSegments(parts) == (parts[..1] + [Dist]) + parts[1..];
    assert parts == parts[..1] + parts[1..];
    WithoutDistAppend(parts[..1] + [Dist], parts[1..]);
    WithoutDistAppend(parts[..1], [Dist]);
    WithoutDistAppend(parts[..1], parts[1..]);
  }

  /** Reverting leaves a path unchanged exactly when it has no `dist`
      segment. */
  lemma RemoveDistFixes(path: string)
    ensures RemoveDist(path) == path <==> Dist !in Segments(path)
  {
    var parts := Segments(path);
    var f := WithoutDist(parts);
    if Dist !in parts {
      JoinSplit(path, '/');
    } else if f != [] {
      RemoveDistSegments(path);
      assert Segments(RemoveDist(path)) != parts;
    } else {
      assert Segments(Join(f, "/")) == [""];
      assert Dist !in [""];
      assert Segments(RemoveDist(path)) != parts;
    }
  }

  /** Reverting a processed path gives it back exactly when it had no `dist`
      segment of its own. */
  lemma RevertProcessRoundTrip(path: string)
    ensures RemoveDist(InsertDist(path)) == path <==> Dist !in Segments(path)
  {
    RemoveAfterInsert(path);
    RemoveDistFixes(path);
  }

  // ---------------------------------------------------------------------
  // The manifests

  /** An entry of `executors.json`'s `executors`. */
  datatype ExecutorEntry = ExecutorEntry(implementation: string, schema: string, description: string)

  /** An entry of `generators.json`'s `generators`. */
  datatype GeneratorEntry = GeneratorEntry(factory: string, schema: string, description: string)

  /** `executors.json`; `executors` is `None` when the key is missing. */
  datatype ExecutorsJson = ExecutorsJson(executors: Option<Record<ExecutorEntry>>)

  datatype GeneratorsJson = GeneratorsJson(generators: Option<Record<GeneratorEntry>>)

  /** The two files, `None` when a file does not exist. */
  datatype Manifests = Manifests(executorsJson: Option<ExecutorsJson>, generatorsJson: Option<GeneratorsJson>)

  /** `Object.keys(undefined)` throws this. */
  const ConvertUndefined := "Cannot convert undefined or null to object"

  /** Every key keeps its place and each entry is rewritten by `f`. */
  function MapExecutors(r: Record<ExecutorEntry>, f: ExecutorEntry -> ExecutorEntry): (r': Record<ExecutorEntry>)
    ensures |r'| == |r|
    ensures forall i :: 0 <= i < |r| ==> r'[i] == (r[i].0, f(r[i].1))
  {
    seq(|r|, i requires 0 <= i < |r| => (r[i].0, f(r[i].1)))
  }

  function MapGenerators(r: Record<GeneratorEntry>, f: GeneratorEntry -> GeneratorEntry): (r': Record<GeneratorEntry>)
    ensures |r'| == |r|
    ensures forall i :: 0 <= i < |r| ==> r'[i] == (r[i].0, f(r[i].1))
  {
    seq(|r|, i requires 0 <= i < |r| => (r[i].0, f(r[i].1)))
  }

  function ProcessExecutor(e: ExecutorEntry): ExecutorEntry
  {
    e.(implementation := InsertDist(e.implementation), schema := InsertDist(e.schema))
  }

  function ProcessGenerator(g: GeneratorEntry): GeneratorEntry
  {
    g.(factory := InsertDist(g.factory), schema := InsertDist(g.schema))
  }

  function RevertExecutor(e: ExecutorEntry): ExecutorEntry
  {
    e.(implementation := RemoveDist(e.implementation), schema := RemoveDist(e.schema))
  }

  function RevertGenerator(g: GeneratorEntry): GeneratorEntry
  {
    g.(factory := RemoveDist(g.factory), schema := RemoveDist(g.schema))
  }

  /** One script over both files: each existing file has every entry
      rewritten; a file without its map throws before it is written, and a
      throw on `executors.json` leaves `generators.json` alone. */
  function Rewrite(m: Manifests, fe: ExecutorEntry -> ExecutorEntry, fg: GeneratorEntry -> GeneratorEntry): (r: (Option<Failure>, Manifests))
    ensures r.0.Some? ==> r.0.value == TypeError(ConvertUndefined)
    ensures r.0.None? <==>
      (m.executorsJson.None? || m.executorsJson.value.executors.Some?) &&
      (m.generatorsJson.None? || m.generatorsJson.value.generators.Some?)
    ensures (r.1.executorsJson.None? <==> m.executorsJson.None?) && (r.1.generatorsJson.None? <==> m.generatorsJson.None?)
  {
    var e :=
      if m.executorsJson.None? then Ok(m)
      else if m.executorsJson.value.executors.None? then Err(TypeError(ConvertUndefined))
      else Ok(m.(executorsJson := Some(ExecutorsJson(Some(MapExecutors(m.executorsJson.value.executors.value, fe))))));
    if e.Err? then (Some(e.failure), m)
    else
      var m1 := e.value;
      if m1.generatorsJson.None? then (None, m1)
      else if m1.generatorsJson.value.generators.None? then (Some(TypeError(ConvertUndefined)), m1)
      else (None, m1.(generatorsJson := Some(GeneratorsJson(Some(MapGenerators(m1.generatorsJson.value.generators.value, fg))))))
  }

  function Process(m: Manifests): (Option<Failure>, Manifests)
  {
    Rewrite(m, ProcessExecutor, ProcessGenerator)
  }

  function Revert(m: Manifests): (Option<Failure>, Manifests)
  {
    Rewrite(m, RevertExecutor, RevertGenerator)
  }

  /** No path of the manifests has a `dist` segment. */
  predicate NoDistPaths(m: Manifests)
  {
    (m.executorsJson.Some? && m.executorsJson.value.executors.Some? ==>
      var r := m.executorsJson.value.executors.value;
      forall i :: 0 <= i < |r| ==>
        Dist !in Segments(r[i].1.implementation) && Dist !in Segments(r[i].1.schema)) &&
    (m.generatorsJson.Some? && m.generatorsJson.value.generators.Some? ==>
      var r := m.generatorsJson.value.generators.value;
      forall i :: 0 <= i < |r| ==>
        Dist !in Segments(r[i].1.factory) && Dist !in Segments(r[i].1.schema))
  }

  /** The files on disk the scripts read and write. */
  class PluginManifests {
    var executorsJson: Option<ExecutorsJson>
    var generatorsJson: Option<GeneratorsJson>

    function State(): Manifests
      reads this
    {
      Manifests(executorsJson, generatorsJson)
    }

    constructor(m: Manifests)
      ensures State() == m
    {
      executorsJson := m.executorsJson;
      generatorsJson := m.generatorsJson;
    }

    /** `processExecutorAndGenerators()`. */
    method ProcessExecutorsAndGenerators() returns (err: Option<Failure>)
      modifies this
      ensures (err, State()) == Process(old(State()))
    {
      if executorsJson.Some? {
        var json := executorsJson.value;
        if json.executors.None? {
          return Some(TypeError(ConvertUndefined));
        }
        var executors := json.executors.value;
        for i := 0 to |executors|
          invariant |executors| == |json.executors.value|
          invariant forall j :: 0 <= j < i ==> executors[j] == (json.executors.value[j].0, ProcessExecutor(json.executors.value[j].1))
          invariant forall j :: i <= j < |executors| ==> executors[j] == json.executors.value[j]
        {
          var (key, entry) := executors[i];
          entry := entry.(implementation := Join(InsertedSegments(Split(entry.implementation, '/')), "/"));
          entry := entry.(schema := Join(InsertedSegments(Split(entry.schema, '/')), "/"));
          executors := executors[i := (key, entry)];
        }
        assert executors == MapExecutors(json.executors.value, ProcessExecutor);
        executorsJson := Some(ExecutorsJson(Some(executors)));
      }
      if generatorsJson.Some? {
        var json := generatorsJson.value;
        if json.generators.None? {
          return Some(TypeError(ConvertUndefined));
        }
        var generators := json.generators.value;
        for i := 0 to |generators|
          invariant |generators| == |json.generators.value|
          invariant forall j :: 0 <= j < i ==> generators[j] == (json.generators.value[j].0, ProcessGenerator(json.generators.value[j].1))
          invariant forall j :: i <= j < |generators| ==> generators[j] == json.generators.value[j]
        {
          var (key, entry) := generators[i];
          entry := entry.(factory := Join(InsertedSegments(Split(entry.factory, '/')), "/"));
          entry := entry.(schema := Join(InsertedSegments(Split(entry.schema, '/')), "/"));
          generators := generators[i := (key, entry)];
        }
        assert generators == MapGenerators(json.generators.value, ProcessGenerator);
        generatorsJson := Some(GeneratorsJson(Some(generators)));
      }
      return None;
    }

    /** `revertExecutorsAndGenerators()`. */
    method RevertExecutorsAndGenerators() returns (err: Option<Failure>)
      modifies this
      ensures (err, State()) == Revert(old(State()))
    {
      if executorsJson.Some? {
        var json := executorsJson.value;
        if json.executors.None? {
          return Some(TypeError(ConvertUndefined));
        }
        var executors := json.executors.value;
        for i := 0 to |executors|
          invariant |executors| == |json.executors.value|
          invariant forall j :: 0 <= j < i ==> executors[j] == (json.executors.value[j].0, RevertExecutor(json.executors.value[j].1))
          invariant forall j :: i <= j < |executors| ==> executors[j] == json.executors.value[j]
        {
          var (key, entry) := executors[i];
          entry := entry.(implementation := Join(WithoutDist(Split(entry.implementation, '/')), "/"));
          entry := entry.(schema := Join(WithoutDist(Split(entry.schema, '/')), "/"));
          executors := executors[i := (key, entry)];
        }
        assert executors == MapExecutors(json.executors.value, RevertExecutor);
        executorsJson := Some(ExecutorsJson(Some(executors)));
      }
      if generatorsJson.Some? {
        var json := generatorsJson.value;
        if json.generators.None? {
          return Some(TypeError(ConvertUndefined));
        }
        var generators := json.generators.value;
        for i := 0 to |generators|
          invariant |generators| == |json.generators.value|
          invariant forall j :: 0 <= j < i ==> generators[j] == (json.generators.value[j].0, RevertGenerator(json.generators.value[j].1))
          invariant forall j :: i <= j < |generators| ==> generators[j] == json.generators.value[j]
        {
          var (key, entry) := generators[i];
          entry := entry.(factory := Join(WithoutDist(Split(entry.factory, '/')), "/"));
          entry := entry.(schema := Join(WithoutDist(Split(entry.schema, '/')), "/"));
          generators := generators[i := (key, entry)];
        }
        assert generators == MapGenerators(json.generators.value, RevertGenerator);
        generatorsJson := Some(GeneratorsJson(Some(generators)));
      }
      return None;
    }
  }

  /** Both scripts keep the keys of both maps, in order. */
  lemma RewriteKeepsKeys(m: Manifests, fe: ExecutorEntry -> ExecutorEntry, fg: GeneratorEntry -> GeneratorEntry)
    ensures var r := Rewrite(m, fe, fg).1;
      (m.executorsJson.Some? && m.executorsJson.value.executors.Some? ==>
        r.executorsJson.value.executors.Some? &&
        Keys(r.executorsJson.value.executors.value) == Keys(m.executorsJson.value.executors.value)) &&
      (m.generatorsJson.Some? && m.generatorsJson.value.generators.Some? && Rewrite(m, fe, fg).0.None? ==>
        r.generatorsJson.value.generators.Some? &&
        Keys(r.generatorsJson.value.generators.value) == Keys(m.generatorsJson.value.generators.value))
  {
  }

  /** Reverting processed manifests gives them back when no path had a
      `dist` segment to begin with. */
  lemma RevertAfterProcess(m: Manifests)
    requires NoDistPaths(m)
    ensures Process(m).0 == Revert(Process(m).1).0
    ensures Revert(Process(m).1).1 == m
  {
    if m.executorsJson.Some? && m.executorsJson.value.executors.Some? {
      var r := m.executorsJson.value.executors.value;
      forall i | 0 <= i < |r|
        ensures RevertExecutor(ProcessExecutor(r[i].1)) == r[i].1
      {
        RevertProcessRoundTrip(r[i].1.implementation);
        RevertProcessRoundTrip(r[i].1.schema);
      }
      assert MapExecutors(MapExecutors(r, ProcessExecutor), RevertExecutor) == r;
    }
    if m.generatorsJson.Some? && m.generatorsJson.value.generators.Some? {
      var r := m.generatorsJson.value.generators.value;
      forall i | 0 <= i < |r|
        ensures RevertGenerator(ProcessGenerator(r[i].1)) == r[i].1
      {
        RevertProcessRoundTrip(r[i].1.factory);
        RevertProcessRoundTrip(r[i].1.schema);
      }
      assert MapGenerators(MapGenerators(r, ProcessGenerator), RevertGenerator) == r;
    }
  }

  /** Reverting twice is reverting once. */
  lemma RevertIdempotent(m: Manifests)
    requires Revert(m).0.None?
    ensures Revert(Revert(m).1) == Revert(m)
  {
    if m.executorsJson.Some? {
      var r := m.executorsJson.value.executors.value;
      forall i | 0 <= i < |r|
        ensures RevertExecutor(RevertExecutor(r[i].1)) == RevertExecutor(r[i].1)
      {
        RemoveDistIdempotent(r[i].1.implementation);
        RemoveDistIdempotent(r[i].1.schema);
      }
      assert MapExecutors(MapExecutors(r, RevertExecutor), RevertExecutor) == MapExecutors(r, RevertExecutor);
    }
    if m.generatorsJson.Some? {
      var r := m.generatorsJson.value.generators.value;
      forall i | 0 <= i < |r|
        ensures RevertGenerator(RevertGenerator(r[i].1)) == RevertGenerator(r[i].1)
      {
        RemoveDistIdempotent(r[i].1.factory);
        RemoveDistIdempotent(r[i].1.schema);
      }
      assert MapGenerators(MapGenerators(r, RevertGenerator), RevertGenerator) == MapGenerators(r, RevertGenerator);
    }
  }
}
