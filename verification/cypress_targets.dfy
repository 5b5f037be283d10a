/** The targets the firebase-cypress plugin infers for every Cypress
    configuration file: a run target for end-to-end tests (with one
    configuration per extra web server command), one CI target per spec file
    grouped under an aggregating no-op target, a component testing target and
    an open target, all depending on the emulator target of the project that
    serves the application. */
module CypressTargets {
  import opened Wrappers
  import opened Text
  import opened Records
  import opened Paths
  import opened Workspace
  import FirebaseTargets

  /** The key under which the Cypress preset stores its own options. */
  const PluginOptionsKey := "__NX_PLUGIN_OPTIONS__"

  /** The reason of the `TypeError` raised by reading `prop` of `undefined`. */
  function ReadOfUndefined(prop: string): string
  {
    "Cannot read properties of undefined (reading '" + prop + "')"
  }

  // --- Plugin options

  /** The plugin options as written in `nx.json`; each name may be missing. */
  datatype PluginOptions = PluginOptions(
    targetName: Option<string>,
    ciTargetName: Option<string>,
    componentTestingTargetName: Option<string>,
    openTargetName: Option<string>,
    emulatorTargetName: Option<string>)

  /** The target names once defaults are filled in. */
  datatype Names = Names(
    targetName: string,
    ciTargetName: string,
    componentTestingTargetName: string,
    openTargetName: string,
    emulatorTargetName: string)

  /** A name given (even the empty one) is kept; a missing one defaults. */
  predicate Defaulted(given: Option<string>, name: string, default: string)
  {
    if given.Some? then name == given.value else name == default
  }

  /** `normalizeOptions(options)`: every missing option (or a missing options
      object) is given its default with `??=`. */
  function NormalizeOptions(options: Option<PluginOptions>): (n: Names)
    ensures var o := options.GetOr(PluginOptions(None, None, None, None, None));
      && Defaulted(o.targetName, n.targetName, "e2e")
      && Defaulted(o.ciTargetName, n.ciTargetName, "e2e-ci")
      && Defaulted(o.componentTestingTargetName, n.componentTestingTargetName, "component")
      && Defaulted(o.openTargetName, n.openTargetName, "open-cypress")
      && Defaulted(o.emulatorTargetName, n.emulatorTargetName, "firebase-emulators")
  {
    var o := options.GetOr(PluginOptions(None, None, None, None, None));
    Names(o.targetName.GetOr("e2e"), o.ciTargetName.GetOr("e2e-ci"),
          o.componentTestingTargetName.GetOr("component"), o.openTargetName.GetOr("open-cypress"),
          o.emulatorTargetName.GetOr("firebase-emulators"))
  }

  // --- The loaded Cypress configuration

  /** The preset options the generator reads: the named web server commands
      and the CI web server command. A key present with the value `undefined`
      is not distinguished from a missing key. */
  datatype PresetOptions = PresetOptions(webServerCommands: Option<Record<string>>, ciWebServerCommand: Option<string>)

  /** The `e2e` or `component` section of a Cypress configuration. */
  datatype TestingConfig = TestingConfig(
    pluginOptions: Option<PresetOptions>,
    env: Option<PresetOptions>,
    baseUrl: Option<string>,
    videosFolder: Option<string>,
    screenshotsFolder: Option<string>)

  /** The parts of the exported Cypress configuration the generator reads. */
  datatype CypressConfig = CypressConfig(
    e2e: Option<TestingConfig>,
    component: Option<TestingConfig>,
    env: Option<PresetOptions>,
    videosFolder: Option<string>,
    screenshotsFolder: Option<string>)

  datatype TestingType = E2e | Component

  function Section(config: CypressConfig, t: TestingType): Option<TestingConfig>
  {
    match t
    case E2e => config.e2e
    case Component => config.component
  }

  /** `{...base, ...over}` restricted to the two keys read: a key the later
      object holds replaces the earlier one; spreading `undefined` adds
      nothing. */
  function Spread(base: PresetOptions, over: Option<PresetOptions>): (r: PresetOptions)
    ensures over.Some? && over.value.webServerCommands.Some? ==> r.webServerCommands == over.value.webServerCommands
    ensures over.None? || over.value.webServerCommands.None? ==> r.webServerCommands == base.webServerCommands
    ensures over.Some? && over.value.ciWebServerCommand.Some? ==> r.ciWebServerCommand == over.value.ciWebServerCommand
    ensures over.None? || over.value.ciWebServerCommand.None? ==> r.ciWebServerCommand == base.ciWebServerCommand
  {
    match over
    case None => base
    case Some(o) =>
      PresetOptions(if o.webServerCommands.Some? then o.webServerCommands else base.webServerCommands,
                    if o.ciWebServerCommand.Some? then o.ciWebServerCommand else base.ciWebServerCommand)
  }

  /** `{...config.e2e?.[NX_PLUGIN_OPTIONS], ...config.env, ...config.e2e?.env}`. */
  function MergedPresetOptions(config: CypressConfig): PresetOptions
  {
    var pluginOptions := if config.e2e.Some? then config.e2e.value.pluginOptions else None;
    var e2eEnv := if config.e2e.Some? then config.e2e.value.env else None;
    Spread(Spread(Spread(PresetOptions(None, None), pluginOptions), config.env), e2eEnv)
  }

  /** The end-to-end environment overrides the global environment, which
      overrides the preset's own options. */
  lemma MergedPrecedence(config: CypressConfig, e2e: TestingConfig)
    requires config.e2e == Some(e2e)
    ensures var m := MergedPresetOptions(config);
      && (e2e.env.Some? && e2e.env.value.webServerCommands.Some? ==>
            m.webServerCommands == e2e.env.value.webServerCommands)
      && ((e2e.env.None? || e2e.env.value.webServerCommands.None?) && config.env.Some? && config.env.value.webServerCommands.Some? ==>
            m.webServerCommands == config.env.value.webServerCommands)
      && ((e2e.env.None? || e2e.env.value.webServerCommands.None?) && (config.env.None? || config.env.value.webServerCommands.None?) ==>
            m.webServerCommands == if e2e.pluginOptions.Some? then e2e.pluginOptions.value.webServerCommands else None)
      && (e2e.env.Some? && e2e.env.value.ciWebServerCommand.Some? ==>
            m.ciWebServerCommand == e2e.env.value.ciWebServerCommand)
      && ((e2e.env.None? || e2e.env.value.ciWebServerCommand.None?) && config.env.Some? && config.env.value.ciWebServerCommand.Some? ==>
            m.ciWebServerCommand == config.env.value.ciWebServerCommand)
  {
  }

  // --- The project that serves the application

  /** `getProjectFromCommand(command)`: the part before the first ':' of the
      last space-separated word, or "" when that word is empty. */
  function GetProjectFromCommand(command: string): (project: string)
    ensures ':' !in project
  {
    var words := Split(command, ' ');
    var last := words[|words| - 1];
    if last == "" then "" else Split(last, ':')[0]
  }

  /** `nx run <project>:<target>` names the project it runs. */
  lemma ProjectOfRunCommand(prefix: string, project: string, target: string)
    requires ' ' !in project && ' ' !in target && ':' !in project
    ensures GetProjectFromCommand(prefix + " " + project + ":" + target) == project
  {
    var word := project + ":" + target;
    assert ' ' !in word;
    assert prefix + " " + project + ":" + target == prefix + [' '] + word;
    SplitLastPiece(prefix, word, ' ');
    assert word == project + [':'] + target;
    SplitAfterPiece(project, target, ':');
  }

  /** A command ending in a space names no project. */
  lemma NoProjectAfterTrailingSpace(prefix: string)
    ensures GetProjectFromCommand(prefix + " ") == ""
  {
    assert prefix + " " == prefix + [' '] + "";
    SplitLastPiece(prefix, "", ' ');
  }

  /** `dependencyProjectName.length ? `${name}:${emulatorTargetName}` : undefined`. */
  function DependencyTarget(project: string, emulatorTargetName: string): (t: Option<string>)
    ensures t.Some? <==> project != ""
    ensures t.Some? ==> t.value == project + ":" + emulatorTargetName
  {
    if |project| > 0 then Some(project + ":" + emulatorTargetName) else None
  }

  /** `cypressConfig.e2e[NX_PLUGIN_OPTIONS].webServerCommands.default`, read
      without optional chaining and then split: each missing link throws. */
  function DefaultWebServerCommand(config: CypressConfig): (r: Result<string>)
    ensures r.Ok? <==> config.e2e.Some? && config.e2e.value.pluginOptions.Some?
                       && config.e2e.value.pluginOptions.value.webServerCommands.Some?
                       && HasKey(config.e2e.value.pluginOptions.value.webServerCommands.value, "default")
    ensures r.Ok? ==> ("default", r.value) in config.e2e.value.pluginOptions.value.webServerCommands.value
    ensures config.e2e.None? ==> r == Err(TypeError(ReadOfUndefined(PluginOptionsKey)))
  {
    if config.e2e.None? then Err(TypeError(ReadOfUndefined(PluginOptionsKey)))
    else if config.e2e.value.pluginOptions.None? then Err(TypeError(ReadOfUndefined("webServerCommands")))
    else
      var commands := config.e2e.value.pluginOptions.value.webServerCommands;
      if commands.None? then Err(TypeError(ReadOfUndefined("default")))
      else match Get(commands.value, "default")
        case None => Err(TypeError(ReadOfUndefined("split")))
        case Some(c) => Ok(c)
  }

  // --- Inputs, outputs and run options

  datatype Input = NamedInput(name: string) | ExternalDependencies(packages: seq<string>)

  /** `getInputs(namedInputs)`: the project's own files, the dependencies'
      production (or default) files, and the installed Cypress version. */
  function GetInputs(hasProduction: bool): (inputs: seq<Input>)
    ensures |inputs| == 3 && inputs[0] == NamedInput("default") && inputs[2] == ExternalDependencies(["cypress"])
    ensures inputs[1] == NamedInput(if hasProduction then "^production" else "^default")
  {
    [NamedInput("default"), NamedInput(if hasProduction then "^production" else "^default"),
     ExternalDependencies(["cypress"])]
  }

  /** `getOutput(path)` as written: a folder above the project is joined with
      the project root and then with itself a second time. */
  function GetOutput(projectRoot: string, path: string): string
  {
    if StartsWith(path, "..") then PathJoin(["{workspaceRoot}", projectRoot, path, path])
    else PathJoin(["{projectRoot}", path])
  }

  /** `getOutput(path)` with the folder joined once. */
  function GetOutputIntended(projectRoot: string, path: string): string
  {
    if StartsWith(path, "..") then PathJoin(["{workspaceRoot}", projectRoot, path])
    else PathJoin(["{projectRoot}", path])
  }

  /** A folder inside the project is an output below `{projectRoot}`. */
  lemma OutputInsideProject(projectRoot: string, segs: seq<string>)
    requires |segs| > 0
    requires forall i :: 0 <= i < |segs| ==> PlainSegment(segs[i])
    requires !StartsWith(Join(segs, "/"), "..")
    ensures GetOutput(projectRoot, Join(segs, "/")) == "{projectRoot}/" + Join(segs, "/")
  {
    var path := Join(segs, "/");
    InsideBranch(projectRoot, path);
    PlaceholderPrefix(path);
    BelowPlaceholder("{projectRoot}", segs);
  }

  lemma InsideBranch(projectRoot: string, path: string)
    requires !StartsWith(path, "..")
    ensures GetOutput(projectRoot, path) == PathJoin(["{projectRoot}", path])
  {
  }

  lemma PlaceholderPrefix(path: string)
    ensures "{projectRoot}" + "/" + path == "{projectRoot}/" + path
    ensures PlainSegment("{projectRoot}")
  {
    var prefix := "{projectRoot}/";
    assert prefix == "{projectRoot}" + "/";
  }

  /** The corrected output of a folder inside the project is the same. */
  lemma IntendedOutputInsideProject(projectRoot: string, segs: seq<string>)
    requires |segs| > 0
    requires forall i :: 0 <= i < |segs| ==> PlainSegment(segs[i])
    requires !StartsWith(Join(segs, "/"), "..")
    ensures GetOutputIntended(projectRoot, Join(segs, "/")) == GetOutput(projectRoot, Join(segs, "/"))
  {
  }

  /** A placeholder segment followed by plain segments joins to itself. */
  lemma BelowPlaceholder(placeholder: string, segs: seq<string>)
    requires PlainSegment(placeholder)
    requires |segs| > 0
    requires forall i :: 0 <= i < |segs| ==> PlainSegment(segs[i])
    ensures PathJoin([placeholder, Join(segs, "/")]) == placeholder + "/" + Join(segs, "/")
  {
    var path := Join(segs, "/");
    var all := [placeholder] + segs;
    JoinAppend([placeholder], segs, "/");
    PlainAfter(placeholder, segs);
    JoinNonEmptyPlain(all);
    JoinNonEmptyPair(placeholder, segs);
    PathJoinPlain(all);
  }

  /** A plain segment before plain segments. */
  lemma PlainAfter(placeholder: string, segs: seq<string>)
    requires PlainSegment(placeholder)
    requires forall i :: 0 <= i < |segs| ==> PlainSegment(segs[i])
    ensures var all := [placeholder] + segs; forall i :: 0 <= i < |all| ==> PlainSegment(all[i])
  {
    var all := [placeholder] + segs;
    forall i | 0 <= i < |all|
      ensures PlainSegment(all[i])
    {
      if i > 0 {
        assert all[i] == segs[i - 1];
      }
    }
  }

  /** Two non-empty fragments are joined with one separator. */
  lemma JoinNonEmptyPair(placeholder: string, segs: seq<string>)
    requires PlainSegment(placeholder) && |segs| > 0 && PlainSegment(segs[0])
    ensures JoinNonEmpty([placeholder, Join(segs, "/")]) == placeholder + "/" + Join(segs, "/")
  {
    var path := Join(segs, "/");
    JoinEnds(segs, "/");
    assert path != "";
    assert [placeholder, path][1..] == [path];
    assert JoinNonEmpty([path]) == path by {
      assert [path][1..] == [];
    }
  }

  /** The segments of a folder that climbs out of a project of depth `k`
      to the workspace root and descends into `below`. */
  predicate ClimbsToWorkspace(rootSegs: seq<string>, below: seq<string>)
  {
    && |rootSegs| > 0 && |below| > 0
    && (forall i :: 0 <= i < |rootSegs| ==> PlainSegment(rootSegs[i]))
    && (forall i :: 0 <= i < |below| ==> PlainSegment(below[i]))
  }

  /** Such a folder starts with '..' and is one relative path. */
  lemma ClimbingPath(rootSegs: seq<string>, below: seq<string>)
    requires ClimbsToWorkspace(rootSegs, below)
    ensures var path := Join(Ups(|rootSegs|) + below, "/");
      StartsWith(path, "..") && path != ""
    ensures forall i :: 0 <= i < |Ups(|rootSegs|) + below| ==> '/' !in (Ups(|rootSegs|) + below)[i]
  {
    var segs := Ups(|rootSegs|) + below;
    JoinEnds(segs, "/");
    assert segs[0] == "..";
    assert forall i :: 0 <= i < |segs| ==> segs[i] == ".." || PlainSegment(segs[i]);
  }

  /** The fragments `getOutput` joins, placed between separators. */
  lemma JoinFragments(w: string, root: string, path: string, twice: bool)
    ensures !twice ==> Join([w, root, path], "/") == w + "/" + root + "/" + path
    ensures twice ==> Join([w, root, path, path], "/") == w + "/" + root + "/" + path + "/" + path
  {
    JoinAppend([root], [path], "/");
    assert [root] + [path] == [root, path];
    JoinAppend([w], [root, path], "/");
    assert [w] + [root, path] == [w, root, path];
    if twice {
      JoinAppend([w, root, path], [path], "/");
      assert [w, root, path] + [path] == [w, root, path, path];
    }
  }

  /** The fragments joined once for a folder above the project spell its
      segments, none holding a separator. */
  lemma SpelledSegments(w: string, rootSegs: seq<string>, below: seq<string>)
    requires PlainSegment(w) && ClimbsToWorkspace(rootSegs, below)
    ensures var k := |rootSegs|;
      var root := Join(rootSegs, "/");
      var path := Join(Ups(k) + below, "/");
      var parts := [w, root, path];
      var segs := [w] + rootSegs + (Ups(k) + below);
      && (forall i :: 0 <= i < |parts| ==> parts[i] != "")
      && Join(parts, "/") == Join(segs, "/")
      && (forall i :: 0 <= i < |segs| ==> '/' !in segs[i])
      && segs[0] != "" && segs[|segs| - 1] != ""
  {
    var k := |rootSegs|;
    var climb := Ups(k) + below;
    ClimbingPath(rootSegs, below);
    JoinEnds(rootSegs, "/");
    JoinFragments(w, Join(rootSegs, "/"), Join(climb, "/"), false);
    SegmentsJoin(w, rootSegs, climb);
  }

  /** The fragments joined twice: the folder's segments appear twice. */
  lemma SpelledSegmentsTwice(w: string, rootSegs: seq<string>, below: seq<string>)
    requires PlainSegment(w) && ClimbsToWorkspace(rootSegs, below)
    ensures var k := |rootSegs|;
      var root := Join(rootSegs, "/");
      var path := Join(Ups(k) + below, "/");
      var parts := [w, root, path, path];
      var segs := [w] + rootSegs + (Ups(k) + below) + (Ups(k) + below);
      && (forall i :: 0 <= i < |parts| ==> parts[i] != "")
      && Join(parts, "/") == Join(segs, "/")
      && (forall i :: 0 <= i < |segs| ==> '/' !in segs[i])
      && segs[0] != "" && segs[|segs| - 1] != ""
  {
    var k := |rootSegs|;
    var climb := Ups(k) + below;
    var once := [w] + rootSegs + climb;
    ClimbingPath(rootSegs, below);
    JoinEnds(rootSegs, "/");
    JoinFragments(w, Join(rootSegs, "/"), Join(climb, "/"), true);
    SegmentsJoin(w, rootSegs, climb);
    JoinAppend(once, climb, "/");
    SlashFreeAppend(once, climb);
  }

  /** `[w] + rootSegs + climb` joins to the three fragments and holds no
      separator. */
  lemma SegmentsJoin(w: string, rootSegs: seq<string>, climb: seq<string>)
    requires PlainSegment(w) && |rootSegs| > 0 && |climb| > 0
    requires forall i :: 0 <= i < |rootSegs| ==> PlainSegment(rootSegs[i])
    requires forall i :: 0 <= i < |climb| ==> '/' !in climb[i]
    ensures var once := [w] + rootSegs + climb;
      Join(once, "/") == w + "/" + Join(rootSegs, "/") + "/" + Join(climb, "/")
      && forall i :: 0 <= i < |once| ==> '/' !in once[i]
  {
    var once := [w] + rootSegs + climb;
    JoinAppend([w], rootSegs, "/");
    JoinAppend([w] + rootSegs, climb, "/");
    forall i | 0 <= i < |once|
      ensures '/' !in once[i]
    {
      if i == 0 {
      } else if i <= |rootSegs| {
        assert once[i] == rootSegs[i - 1];
      } else {
        assert once[i] == climb[i - 1 - |rootSegs|];
      }
    }
  }

  /** Two separator-free lists make one. */
  lemma SlashFreeAppend(a: seq<string>, b: seq<string>)
    requires forall i :: 0 <= i < |a| ==> '/' !in a[i]
    requires forall i :: 0 <= i < |b| ==> '/' !in b[i]
    ensures forall i :: 0 <= i < |a + b| ==> '/' !in (a + b)[i]
  {
    forall i | 0 <= i < |a + b|
      ensures '/' !in (a + b)[i]
    {
      if i >= |a| {
        assert (a + b)[i] == b[i - |a|];
      }
    }
  }

  /** The as-written output of a folder above the project: the second copy
      of the folder climbs out of the first and descends again, so the
      output is right only when `below` is no deeper than the project. */
  lemma OutputAboveProject(rootSegs: seq<string>, below: seq<string>)
    requires ClimbsToWorkspace(rootSegs, below) && |below| >= |rootSegs|
    ensures var k := |rootSegs|;
      GetOutput(Join(rootSegs, "/"), Join(Ups(k) + below, "/"))
        == Join(["{workspaceRoot}"] + below[..|below| - k] + below, "/")
  {
    var w := "{workspaceRoot}";
    var k := |rootSegs|;
    var root := Join(rootSegs, "/");
    var climb := Ups(k) + below;
    var path := Join(climb, "/");
    assert PlainSegment(w);
    ClimbingPath(rootSegs, below);
    SpelledSegmentsTwice(w, rootSegs, below);
    NormalizeTwice(w, rootSegs, below);
    PathJoinSegments([w, root, path, path], [w] + rootSegs + climb + climb);
  }

  lemma NormalizeTwice(w: string, rootSegs: seq<string>, below: seq<string>)
    requires PlainSegment(w)
    requires ClimbsToWorkspace(rootSegs, below) && |below| >= |rootSegs|
    ensures var k := |rootSegs|;
      NormalizeSegments([w] + rootSegs + (Ups(k) + below) + (Ups(k) + below), true) == [w] + below[..|below| - k] + below
  {
    var k := |rootSegs|;
    var ups := Ups(k);
    var b := [w] + rootSegs + (ups + below);
    Regroup([w] + rootSegs, ups, below);
    NormalizeClimbOnce(w, rootSegs, below);
    ClimbPlainTail(b, [w], below, k, true);
    NormalizeAppendPlain(b + ups, below, true);
  }

  lemma Regroup(a: seq<string>, u: seq<string>, c: seq<string>)
    ensures a + (u + c) + (u + c) == (a + (u + c) + u) + c
  {
  }

  lemma NormalizeClimbOnce(w: string, rootSegs: seq<string>, below: seq<string>)
    requires PlainSegment(w)
    requires ClimbsToWorkspace(rootSegs, below)
    ensures NormalizeSegments([w] + rootSegs + (Ups(|rootSegs|) + below), true) == [w] + below
  {
    var k := |rootSegs|;
    var ups := Ups(k);
    var a := [w] + rootSegs;
    var x := a + ups;
    assert x + below == [w] + rootSegs + (ups + below);
    NormalizePlainSegments(a, true);
    ClimbPlainTail(a, [w], rootSegs, k, true);
    assert [w] + rootSegs[..0] == [w];
    NormalizeAppendPlain(x, below, true);
  }

  /** The corrected output of a folder above the project is the folder below
      the workspace root. */
  lemma IntendedOutputAboveProject(rootSegs: seq<string>, below: seq<string>)
    requires ClimbsToWorkspace(rootSegs, below)
    ensures GetOutputIntended(Join(rootSegs, "/"), Join(Ups(|rootSegs|) + below, "/"))
         == Join(["{workspaceRoot}"] + below, "/")
  {
    var w := "{workspaceRoot}";
    var k := |rootSegs|;
    var root := Join(rootSegs, "/");
    var climb := Ups(k) + below;
    var path := Join(climb, "/");
    assert PlainSegment(w);
    ClimbingPath(rootSegs, below);
    SpelledSegments(w, rootSegs, below);
    NormalizeClimbOnce(w, rootSegs, below);
    PathJoinSegments([w, root, path], [w] + rootSegs + climb);
  }

  /** A folder that descends deeper below the workspace root than the
      project lies is mapped to a different output than intended. */
  lemma OutputAboveProjectWrong(rootSegs: seq<string>, below: seq<string>)
    requires ClimbsToWorkspace(rootSegs, below) && |below| > |rootSegs|
    ensures var root := Join(rootSegs, "/");
      var path := Join(Ups(|rootSegs|) + below, "/");
      GetOutput(root, path) != GetOutputIntended(root, path)
  {
    var w := "{workspaceRoot}";
    var k := |rootSegs|;
    OutputAboveProject(rootSegs, below);
    IntendedOutputAboveProject(rootSegs, below);
    var doubled := [w] + below[..|below| - k] + below;
    var once := [w] + below;
    assert PlainSegment(w);
    assert forall i :: 0 <= i < |doubled| ==> '/' !in doubled[i] by {
      assert forall i :: 0 <= i < |doubled| ==> doubled[i] == w || doubled[i] in below;
    }
    assert forall i :: 0 <= i < |once| ==> '/' !in once[i];
    SplitJoin(doubled, '/');
    SplitJoin(once, '/');
    assert |doubled| != |once|;
  }

  /** The folders `getOutputs` consults, in the order it pushes them: the
      global videos and screenshots folders, then those of the testing type. */
  function OutputFolders(config: CypressConfig, section: TestingConfig): seq<Option<string>>
  {
    [config.videosFolder, config.screenshotsFolder, section.videosFolder, section.screenshotsFolder]
  }

  /** `getOutput` for the project, as a function of the folder. */
  function OutputFn(projectRoot: string): string -> string
  {
    path => GetOutput(projectRoot, path)
  }

  /** `o` is the output `out` gives a truthy folder `f`. */
  predicate OutputOf(out: string -> string, f: Option<string>, o: string)
  {
    f.Some? && f.value != "" && o == out(f.value)
  }

  /** One output per truthy folder, in folder order. */
  function FolderOutputs(out: string -> string, folders: seq<Option<string>>): (r: seq<string>)
    ensures |r| <= |folders|
    decreases |folders|
  {
    if |folders| == 0 then []
    else
      var f := folders[|folders| - 1];
      FolderOutputs(out, folders[..|folders| - 1]) + (if f.Some? && f.value != "" then [out(f.value)] else [])
  }

  /** The outputs are exactly those of the truthy folders. */
  lemma {:induction false} FolderOutputsExact(out: string -> string, folders: seq<Option<string>>)
    ensures forall o :: o in FolderOutputs(out, folders) <==>
                        exists i :: 0 <= i < |folders| && OutputOf(out, folders[i], o)
  {
    var n := |folders|;
    if n > 0 {
      var pre := folders[..n - 1];
      FolderOutputsExact(out, pre);
      forall o
        ensures o in FolderOutputs(out, folders) <==> exists i :: 0 <= i < n && OutputOf(out, folders[i], o)
      {
        if exists i :: 0 <= i < n && OutputOf(out, folders[i], o) {
          var i :| 0 <= i < n && OutputOf(out, folders[i], o);
          if i < n - 1 {
            assert OutputOf(out, pre[i], o);
          }
        }
        if o in FolderOutputs(out, pre) {
          var i :| 0 <= i < n - 1 && OutputOf(out, pre[i], o);
          assert OutputOf(out, folders[i], o);
        }
      }
    }
  }

  /** `getOutputs(projectRoot, cypressConfig, testingType)`: one output per
      truthy folder; reading the folders of a missing testing section throws. */
  method GetOutputs(projectRoot: string, config: CypressConfig, testingType: TestingType)
    returns (r: Result<seq<string>>)
    ensures Section(config, testingType).None? ==> r == Err(TypeError(ReadOfUndefined("videosFolder")))
    ensures Section(config, testingType).Some? ==>
      r == Ok(FolderOutputs(OutputFn(projectRoot), OutputFolders(config, Section(config, testingType).value)))
  {
    var section := Section(config, testingType);
    var a, b := config.videosFolder, config.screenshotsFolder;
    var outputs: seq<string> := [];
    FolderOutputsSnoc(OutputFn(projectRoot), [], a);
    assert [] + [a] == [a];
    if a.Some? && a.value != "" {
      outputs := outputs + [GetOutput(projectRoot, a.value)];
    }
    assert outputs == FolderOutputs(OutputFn(projectRoot), [a]);
    FolderOutputsSnoc(OutputFn(projectRoot), [a], b);
    assert [a] + [b] == [a, b];
    if b.Some? && b.value != "" {
      outputs := outputs + [GetOutput(projectRoot, b.value)];
    }
    assert outputs == FolderOutputs(OutputFn(projectRoot), [a, b]);
    if section.None? {
      return Err(TypeError(ReadOfUndefined("videosFolder")));
    }
    var c, d := section.value.videosFolder, section.value.screenshotsFolder;
    FolderOutputsSnoc(OutputFn(projectRoot), [a, b], c);
    assert [a, b] + [c] == [a, b, c];
    if c.Some? && c.value != "" {
      outputs := outputs + [GetOutput(projectRoot, c.value)];
    }
    assert outputs == FolderOutputs(OutputFn(projectRoot), [a, b, c]);
    FolderOutputsSnoc(OutputFn(projectRoot), [a, b, c], d);
    assert [a, b, c] + [d] == [a, b, c, d] == OutputFolders(config, section.value);
    if d.Some? && d.value != "" {
      outputs := outputs + [GetOutput(projectRoot, d.value)];
    }
    assert outputs == FolderOutputs(OutputFn(projectRoot), [a, b, c, d]);
    r := Ok(outputs);
  }

  /** One more folder adds its output when it is truthy. */
  lemma FolderOutputsSnoc(out: string -> string, folders: seq<Option<string>>, f: Option<string>)
    ensures FolderOutputs(out, folders + [f]) ==
      FolderOutputs(out, folders) + (if f.Some? && f.value != "" then [out(f.value)] else [])
  {
    assert (folders + [f])[..|folders|] == folders;
  }

  /** The outputs of a testing section that exists. */
  function SectionOutputs(projectRoot: string, config: CypressConfig, section: TestingConfig): seq<string>
  {
    FolderOutputs(OutputFn(projectRoot), OutputFolders(config, section))
  }

  /** The options of the run target. */
  datatype RunOptions = RunOptions(devServerTarget: Option<string>, baseUrl: Option<string>,
                                   cypressConfig: string, testingType: TestingType)

  /** `buildCypressOptions(configFile, cypressConfig, projectRoot, testingType, isCi)`:
      the dev server is the CI web server command in CI and the default web
      server command otherwise, both read from the preset's own options of
      the testing section (an empty object when the section is missing). */
  function BuildCypressOptions(configFile: string, config: CypressConfig, testingType: TestingType, isCi: bool)
    : (r: Result<RunOptions>)
    ensures var s := Section(config, testingType);
      r.Ok? <==> s.Some? && s.value.pluginOptions.Some? && (isCi || s.value.pluginOptions.value.webServerCommands.Some?)
    ensures r.Ok? ==> r.value.cypressConfig == configFile && r.value.testingType == testingType
    ensures r.Ok? ==> var s := Section(config, testingType).value;
      && r.value.baseUrl == s.baseUrl
      && r.value.devServerTarget == if isCi then s.pluginOptions.value.ciWebServerCommand
                                     else Get(s.pluginOptions.value.webServerCommands.value, "default")
  {
    var section := Section(config, testingType);
    var property := if isCi then "ciWebServerCommand" else "webServerCommands";
    if section.None? || section.value.pluginOptions.None? then Err(TypeError(ReadOfUndefined(property)))
    else
      var preset := section.value.pluginOptions.value;
      if isCi then Ok(RunOptions(preset.ciWebServerCommand, section.value.baseUrl, configFile, testingType))
      else if preset.webServerCommands.None? then Err(TypeError(ReadOfUndefined("default")))
      else Ok(RunOptions(Get(preset.webServerCommands.value, "default"), section.value.baseUrl, configFile, testingType))
  }

  // --- Targets

  /** An entry of `dependsOn`: a target of the same project with forwarded
      parameters, or a `project:target` string. */
  datatype Dependency = Forwarded(target: string) | Named(spec: string)

  datatype Target =
    | Run(options: RunOptions, inputs: seq<Input>, outputs: seq<string>,
          dependsOn: Option<seq<Dependency>>, configurations: Option<Record<string>>)
    | RunCi(cwd: string, webServerCommand: string, spec: string, inputs: seq<Input>, outputs: seq<string>)
    | CiNoop(inputs: seq<Input>, outputs: seq<string>, ciDependsOn: seq<Dependency>, nonAtomizedTarget: string)
    | RunComponent(cwd: string, inputs: seq<Input>, outputs: seq<string>)
    | Open(cwd: string, dependsOn: Option<seq<Dependency>>)

  /** What `buildCypressTargets` returns: the targets and, when CI targets
      exist, the `E2E (CI)` target group. */
  datatype PluginTargets = PluginTargets(targets: Record<Target>, ciGroup: Option<seq<string>>)

  /** `dependencyTarget ? [dependencyTarget] : undefined`. */
  function DependsOnEmulators(dependency: Option<string>): Option<seq<Dependency>>
  {
    if dependency.Some? then Some([Named(dependency.value)]) else None
  }

  /** `webServerCommands` after `if (webServerCommands?.default) delete
      webServerCommands.default`: a falsy default is kept. */
  function RemainingCommands(commands: Option<Record<string>>): Record<string>
  {
    if commands.None? then []
    else
      var d := Get(commands.value, "default");
      if d.Some? && d.value != "" then Delete(commands.value, "default") else commands.value
  }

  /** The configurations the loop writes, one per command, in order. */
  function PutAll(commands: Record<string>): Record<string>
    decreases |commands|
  {
    if |commands| == 0 then []
    else
      var last := commands[|commands| - 1];
      Put(PutAll(commands[..|commands| - 1]), last.0, last.1)
  }

  predicate DistinctKeys<V>(r: Record<V>)
  {
    forall i, j :: 0 <= i < j < |r| ==> r[i].0 != r[j].0
  }

  /** The configurations copy the commands: each name gets its command. */
  lemma {:induction false} PutAllDistinct(commands: Record<string>)
    requires DistinctKeys(commands)
    ensures PutAll(commands) == commands
  {
    if |commands| > 0 {
      var n := |commands|;
      var prefix, last := commands[..n - 1], commands[n - 1];
      LastKeyNew(commands);
      PutAllDistinct(prefix);
      PutNew(prefix, last.0, last.1);
      assert prefix + [last] == commands;
    }
  }

  /** Without repeated keys, the last key is not among the others, and the
      others have no repeated key. */
  lemma LastKeyNew(commands: Record<string>)
    requires DistinctKeys(commands) && |commands| > 0
    ensures var prefix := commands[..|commands| - 1];
      DistinctKeys(prefix) && !HasKey(prefix, commands[|commands| - 1].0)
  {
    var n := |commands|;
    var prefix := commands[..n - 1];
    forall j | 0 <= j < |prefix|
      ensures Keys(prefix)[j] != commands[n - 1].0
    {
      assert prefix[j] == commands[j];
    }
    forall i, j | 0 <= i < j < |prefix|
      ensures prefix[i].0 != prefix[j].0
    {
      assert prefix[i] == commands[i] && prefix[j] == commands[j];
    }
  }

  /** The loop over `Object.entries(webServerCommands)`. */
  method Configurations(commands: Record<string>) returns (configurations: Record<string>)
    ensures configurations == PutAll(commands)
  {
    configurations := [];
    for i := 0 to |commands|
      invariant configurations == PutAll(commands[..i])
    {
      assert commands[..i + 1][..i] == commands[..i];
      configurations := Put(configurations, commands[i].0, commands[i].1);
    }
    assert commands[..|commands|] == commands;
  }

  /** What every CI target shares. */
  datatype CiSpec = CiSpec(ciTargetName: string, projectRoot: string, command: string,
                           dependency: Option<string>, inputs: seq<Input>, outputs: seq<string>)

  /** `${ciTargetName}--${relativeSpecPath}`. */
  function CiTargetName(ciTargetName: string, rel: string): string
  {
    ciTargetName + "--" + rel
  }

  lemma CiTargetNameInjective(ciTargetName: string, a: string, b: string)
    requires CiTargetName(ciTargetName, a) == CiTargetName(ciTargetName, b)
    ensures a == b
  {
    var k := |ciTargetName| + 2;
    assert a == CiTargetName(ciTargetName, a)[k..];
    assert b == CiTargetName(ciTargetName, b)[k..];
  }

  /** The target that runs one spec file. */
  function CiRunTarget(c: CiSpec, rel: string): Target
  {
    RunCi(c.projectRoot, c.command, rel, c.inputs, c.outputs)
  }

  /** `normalizePath(relative(projectRoot, file))` for each spec file, with
      both paths resolved against the working directory. */
  function SpecPaths(cwd: string, projectRoot: string, files: seq<string>): (rels: seq<string>)
    ensures |rels| == |files|
    ensures forall i :: 0 <= i < |files| ==> rels[i] == Relative(cwd, projectRoot, files[i])
  {
    seq(|files|, i requires 0 <= i < |files| => Relative(cwd, projectRoot, files[i]))
  }

  /** The targets after one CI target per spec path has been assigned. */
  function PutCiTargets(base: Record<Target>, c: CiSpec, rels: seq<string>): Record<Target>
    decreases |rels|
  {
    if |rels| == 0 then base
    else
      var rel := rels[|rels| - 1];
      Put(PutCiTargets(base, c, rels[..|rels| - 1]), CiTargetName(c.ciTargetName, rel), CiRunTarget(c, rel))
  }

  /** The CI target names pushed onto the target group. */
  function CiGroup(c: CiSpec, rels: seq<string>): seq<string>
    decreases |rels|
  {
    if |rels| == 0 then []
    else CiGroup(c, rels[..|rels| - 1]) + [CiTargetName(c.ciTargetName, rels[|rels| - 1])]
  }

  /** The `dependsOn` of the aggregate target: each CI target, followed by
      the emulator target when there is one. */
  function CiDependsOn(c: CiSpec, rels: seq<string>): seq<Dependency>
    decreases |rels|
  {
    if |rels| == 0 then []
    else
      var name := CiTargetName(c.ciTargetName, rels[|rels| - 1]);
      CiDependsOn(c, rels[..|rels| - 1]) + [Forwarded(name)]
        + (if c.dependency.Some? then [Named(c.dependency.value)] else [])
  }

  /** The group names every CI target, in spec order. */
  lemma {:induction false} CiGroupNames(c: CiSpec, rels: seq<string>)
    ensures |CiGroup(c, rels)| == |rels|
    ensures forall i :: 0 <= i < |rels| ==> CiGroup(c, rels)[i] == CiTargetName(c.ciTargetName, rels[i])
  {
    if |rels| > 0 {
      CiGroupNames(c, rels[..|rels| - 1]);
    }
  }

  /** Without an emulator target the aggregate depends on the CI targets
      alone; with one, each CI target is followed by the emulator target. */
  lemma {:induction false} CiDependsOnShape(c: CiSpec, rels: seq<string>)
    ensures c.dependency.None? ==>
      && |CiDependsOn(c, rels)| == |rels|
      && forall i :: 0 <= i < |rels| ==> CiDependsOn(c, rels)[i] == Forwarded(CiTargetName(c.ciTargetName, rels[i]))
    ensures c.dependency.Some? ==>
      && |CiDependsOn(c, rels)| == 2 * |rels|
      && (forall i :: 0 <= i < |rels| ==> CiDependsOn(c, rels)[2 * i] == Forwarded(CiTargetName(c.ciTargetName, rels[i])))
      && (forall i :: 0 <= i < |rels| ==> CiDependsOn(c, rels)[2 * i + 1] == Named(c.dependency.value))
  {
    if |rels| > 0 {
      CiDependsOnShape(c, rels[..|rels| - 1]);
    }
  }

  /** A name that is no CI target name keeps what it held before. */
  lemma {:induction false} CiTargetsKeepOthers(base: Record<Target>, c: CiSpec, rels: seq<string>, k: string)
    requires forall i :: 0 <= i < |rels| ==> CiTargetName(c.ciTargetName, rels[i]) != k
    ensures Get(PutCiTargets(base, c, rels), k) == Get(base, k)
  {
    if |rels| > 0 {
      var rel := rels[|rels| - 1];
      CiTargetsKeepOthers(base, c, rels[..|rels| - 1], k);
      PutGet(PutCiTargets(base, c, rels[..|rels| - 1]), CiTargetName(c.ciTargetName, rel), CiRunTarget(c, rel), k);
    }
  }

  /** The CI target of a spec path runs that spec, unless a later spec path
      is the same. */
  lemma {:induction false} CiTargetFound(base: Record<Target>, c: CiSpec, rels: seq<string>, i: nat)
    requires i < |rels|
    requires forall j :: i < j < |rels| ==> rels[j] != rels[i]
    ensures Get(PutCiTargets(base, c, rels), CiTargetName(c.ciTargetName, rels[i])) == Some(CiRunTarget(c, rels[i]))
  {
    var n := |rels|;
    var name := CiTargetName(c.ciTargetName, rels[i]);
    var lastName := CiTargetName(c.ciTargetName, rels[n - 1]);
    PutGet(PutCiTargets(base, c, rels[..n - 1]), lastName, CiRunTarget(c, rels[n - 1]), name);
    if i < n - 1 {
      if lastName == name {
        CiTargetNameInjective(c.ciTargetName, rels[n - 1], rels[i]);
      }
      CiTargetFound(base, c, rels[..n - 1], i);
    }
  }

  /** The loop over the spec files: one CI target each, its name pushed onto
      the group, and the aggregate's dependencies extended. */
  method AddCiTargets(targets: Record<Target>, c: CiSpec, cwd: string, files: seq<string>)
    returns (targets': Record<Target>, group: seq<string>, dependsOn: seq<Dependency>)
    ensures var rels := SpecPaths(cwd, c.projectRoot, files);
      && targets' == PutCiTargets(targets, c, rels)
      && group == CiGroup(c, rels)
      && dependsOn == CiDependsOn(c, rels)
  {
    targets' := targets;
    group := [];
    dependsOn := [];
    ghost var all := SpecPaths(cwd, c.projectRoot, files);
    for i := 0 to |files|
      invariant targets' == PutCiTargets(targets, c, all[..i])
      invariant group == CiGroup(c, all[..i])
      invariant dependsOn == CiDependsOn(c, all[..i])
    {
      var rel := Relative(cwd, c.projectRoot, files[i]);
      var name := CiTargetName(c.ciTargetName, rel);
      group := group + [name];
      targets' := Put(targets', name, CiRunTarget(c, rel));
      dependsOn := dependsOn + [Forwarded(name)];
      if c.dependency.Some? {
        dependsOn := dependsOn + [Named(c.dependency.value)];
      }
      CiStep(targets, c, all, i);
    }
    assert all[..|files|] == all;
  }

  /** One more spec path: its target assigned, its name pushed, its
      dependencies appended. */
  lemma CiStep(base: Record<Target>, c: CiSpec, rels: seq<string>, i: nat)
    requires i < |rels|
    ensures var name := CiTargetName(c.ciTargetName, rels[i]);
      && PutCiTargets(base, c, rels[..i + 1]) == Put(PutCiTargets(base, c, rels[..i]), name, CiRunTarget(c, rels[i]))
      && CiGroup(c, rels[..i + 1]) == CiGroup(c, rels[..i]) + [name]
      && CiDependsOn(c, rels[..i + 1]) ==
         CiDependsOn(c, rels[..i]) + [Forwarded(name)] + (if c.dependency.Some? then [Named(c.dependency.value)] else [])
  {
    assert rels[..i + 1][..i] == rels[..i];
  }

  /** The run target of the end-to-end tests. */
  function RunTarget(opts: RunOptions, inputs: seq<Input>, outputs: seq<string>,
                     dependency: Option<string>, remaining: Record<string>): Target
  {
    Run(opts, inputs, outputs, DependsOnEmulators(dependency), if |remaining| > 0 then Some(PutAll(remaining)) else None)
  }

  /** `buildCypressTargets(configFile, projectRoot, options, context)` with
      the loaded configuration, the named inputs' production flag and the
      spec files the glob finds given. */
  function CypressTargetsOf(configFile: string, projectRoot: string, names: Names, config: CypressConfig,
                            hasProduction: bool, cwd: string, specFiles: seq<string>): Result<PluginTargets>
  {
    var command :- DefaultWebServerCommand(config);
    var dependency := DependencyTarget(GetProjectFromCommand(command), names.emulatorTargetName);
    var merged := MergedPresetOptions(config);
    var inputs := GetInputs(hasProduction);
    var opts := BuildCypressOptions(configFile, config, E2e, false).value;
    var outputs := SectionOutputs(projectRoot, config, config.e2e.value);
    var withRun := Put([], names.targetName,
                       RunTarget(opts, inputs, outputs, dependency, RemainingCommands(merged.webServerCommands)));
    var ci := merged.ciWebServerCommand;
    var withCi :=
      if ci.Some? && ci.value != "" then
        var c := CiSpec(names.ciTargetName, projectRoot, ci.value, dependency, inputs, outputs);
        var rels := SpecPaths(cwd, projectRoot, specFiles);
        Put(PutCiTargets(withRun, c, rels), names.ciTargetName,
            CiNoop(inputs, outputs, CiDependsOn(c, rels), names.targetName))
      else withRun;
    var group :=
      if ci.Some? && ci.value != "" then
        var c := CiSpec(names.ciTargetName, projectRoot, ci.value, dependency, inputs, outputs);
        Some(CiGroup(c, SpecPaths(cwd, projectRoot, specFiles)) + [names.ciTargetName])
      else None;
    var withComponent :=
      if config.component.Some? then
        PutIfAbsent(withCi, names.componentTestingTargetName,
                    RunComponent(projectRoot, inputs, SectionOutputs(projectRoot, config, config.component.value)))
      else withCi;
    Ok(PluginTargets(Put(withComponent, names.openTargetName, Open(projectRoot, DependsOnEmulators(dependency))), group))
  }

  /** `buildCypressTargets`, assigning the targets one by one. */
  method BuildCypressTargets(configFile: string, projectRoot: string, names: Names, config: CypressConfig,
                             hasProduction: bool, cwd: string, specFiles: seq<string>)
    returns (r: Result<PluginTargets>)
    ensures r == CypressTargetsOf(configFile, projectRoot, names, config, hasProduction, cwd, specFiles)
  {
    var command := DefaultWebServerCommand(config);
    if command.Err? {
      return Err(command.failure);
    }
    var dependency := DependencyTarget(GetProjectFromCommand(command.value), names.emulatorTargetName);
    var merged := MergedPresetOptions(config);
    var inputs := GetInputs(hasProduction);
    var targets: Record<Target> := [];
    var group: Option<seq<string>> := None;

    var opts := BuildCypressOptions(configFile, config, E2e, false).value;
    var outputs := GetOutputs(projectRoot, config, E2e);
    var remaining := RemainingCommands(merged.webServerCommands);
    var configurations: Option<Record<string>> := None;
    if |remaining| > 0 {
      var c := Configurations(remaining);
      configurations := Some(c);
    }
    targets := Put(targets, names.targetName,
                   Run(opts, inputs, outputs.value, DependsOnEmulators(dependency), configurations));

    var ci := merged.ciWebServerCommand;
    if ci.Some? && ci.value != "" {
      var c := CiSpec(names.ciTargetName, projectRoot, ci.value, dependency, inputs, outputs.value);
      var ciGroup, dependsOn;
      targets, ciGroup, dependsOn := AddCiTargets(targets, c, cwd, specFiles);
      targets := Put(targets, names.ciTargetName, CiNoop(inputs, outputs.value, dependsOn, names.targetName));
      group := Some(ciGroup + [names.ciTargetName]);
    }

    if config.component.Some? {
      var componentOutputs := GetOutputs(projectRoot, config, Component);
      targets := PutIfAbsent(targets, names.componentTestingTargetName,
                             RunComponent(projectRoot, inputs, componentOutputs.value));
    }

    targets := Put(targets, names.openTargetName, Open(projectRoot, DependsOnEmulators(dependency)));
    r := Ok(PluginTargets(targets, group));
  }

  // --- Properties of the inferred targets

  /** A configuration without an `e2e` section is rejected before any target
      is built, even when it has a `component` section. */
  lemma ComponentOnlyRejected(configFile: string, projectRoot: string, names: Names, config: CypressConfig,
                              hasProduction: bool, cwd: string, specFiles: seq<string>)
    requires config.e2e.None?
    ensures CypressTargetsOf(configFile, projectRoot, names, config, hasProduction, cwd, specFiles)
         == Err(TypeError(ReadOfUndefined(PluginOptionsKey)))
  {
  }

  /** The open target is always created, last, so it replaces any target of
      the same name; it depends on the emulator target exactly when the
      default web server command names a project. */
  lemma OpenTargetAlways(configFile: string, projectRoot: string, names: Names, config: CypressConfig,
                         hasProduction: bool, cwd: string, specFiles: seq<string>)
    requires CypressTargetsOf(configFile, projectRoot, names, config, hasProduction, cwd, specFiles).Ok?
    ensures var r := CypressTargetsOf(configFile, projectRoot, names, config, hasProduction, cwd, specFiles).value;
      var project := GetProjectFromCommand(DefaultWebServerCommand(config).value);
      && Get(r.targets, names.openTargetName) == Some(Open(projectRoot, DependsOnEmulators(DependencyTarget(project, names.emulatorTargetName))))
      && (Get(r.targets, names.openTargetName).value.dependsOn.Some? <==> project != "")
  {
    var r := CypressTargetsOf(configFile, projectRoot, names, config, hasProduction, cwd, specFiles).value;
    var project := GetProjectFromCommand(DefaultWebServerCommand(config).value);
    var open := Open(projectRoot, DependsOnEmulators(DependencyTarget(project, names.emulatorTargetName)));
    forall base: Record<Target>
      ensures Get(Put(base, names.openTargetName, open), names.openTargetName) == Some(open)
    {
      PutGet(base, names.openTargetName, open, names.openTargetName);
    }
  }

  /** The CI group lists the CI target of every spec file in order and ends
      with the aggregate target; without a truthy CI web server command there
      is no group. */
  lemma CiGroupOrder(configFile: string, projectRoot: string, names: Names, config: CypressConfig,
                     hasProduction: bool, cwd: string, specFiles: seq<string>)
    requires CypressTargetsOf(configFile, projectRoot, names, config, hasProduction, cwd, specFiles).Ok?
    ensures var r := CypressTargetsOf(configFile, projectRoot, names, config, hasProduction, cwd, specFiles).value;
      var ci := MergedPresetOptions(config).ciWebServerCommand;
      && (r.ciGroup.Some? <==> ci.Some? && ci.value != "")
      && (r.ciGroup.Some? ==>
            && |r.ciGroup.value| == |specFiles| + 1
            && r.ciGroup.value[|specFiles|] == names.ciTargetName
            && forall i :: 0 <= i < |specFiles| ==>
                 r.ciGroup.value[i] == CiTargetName(names.ciTargetName, Relative(cwd, projectRoot, specFiles[i])))
  {
    var ci := MergedPresetOptions(config).ciWebServerCommand;
    if ci.Some? && ci.value != "" {
      var command := DefaultWebServerCommand(config).value;
      var dependency := DependencyTarget(GetProjectFromCommand(command), names.emulatorTargetName);
      var outputs := SectionOutputs(projectRoot, config, config.e2e.value);
      var c := CiSpec(names.ciTargetName, projectRoot, ci.value, dependency, GetInputs(hasProduction), outputs);
      CiGroupNames(c, SpecPaths(cwd, projectRoot, specFiles));
    }
  }

  // --- Cached project nodes

  /** The project `createNodesInternal` reports. */
  datatype Node = Node(root: string, projectType: string, targets: Record<Target>, ciGroup: Option<seq<string>>)

  function NodeOf(projectRoot: string, t: PluginTargets): Node
  {
    Node(projectRoot, "application", t.targets, t.ciGroup)
  }

  /** The targets computed per hash of the project's inputs. */
  class TargetsCache {
    var entries: map<string, PluginTargets>

    constructor(initial: map<string, PluginTargets>)
      ensures entries == initial
    {
      entries := initial;
    }

    /** `createNodesInternal(configFile, options, context, targetsCache)`
        with the hash given: without a `package.json` or `project.json` next
        to the configuration nothing is reported; otherwise `??=` builds the
        targets only when the hash has no entry, a build that throws leaves
        the cache as it was, and the project reports the cached targets. */
    method CreateNodesInternal(configFile: string, options: Option<PluginOptions>, root: string, listing: Listing,
                               hash: string, config: CypressConfig, hasProduction: bool, cwd: string,
                               specFiles: seq<string>)
      returns (r: Result<Option<Node>>)
      modifies this
      ensures var projectRoot := DirName(configFile);
        !FirebaseTargets.HasProjectFile(listing, root, projectRoot) ==> r == Ok(None) && entries == old(entries)
      ensures var projectRoot := DirName(configFile);
        FirebaseTargets.HasProjectFile(listing, root, projectRoot) && hash in old(entries) ==>
          entries == old(entries) && r == Ok(Some(NodeOf(projectRoot, old(entries)[hash])))
      ensures var projectRoot := DirName(configFile);
        var built := CypressTargetsOf(configFile, projectRoot, NormalizeOptions(options), config, hasProduction, cwd, specFiles);
        FirebaseTargets.HasProjectFile(listing, root, projectRoot) && hash !in old(entries) ==>
          && (built.Err? ==> r == Err(built.failure) && entries == old(entries))
          && (built.Ok? ==> entries == old(entries)[hash := built.value] && r == Ok(Some(NodeOf(projectRoot, built.value))))
    {
      var names := NormalizeOptions(options);
      var projectRoot := DirName(configFile);
      if !FirebaseTargets.HasProjectFile(listing, root, projectRoot) {
        return Ok(None);
      }
      if hash !in entries {
        var built := BuildCypressTargets(configFile, projectRoot, names, config, hasProduction, cwd, specFiles);
        if built.Err? {
          return Err(built.failure);
        }
        entries := entries[hash := built.value];
      }
      r := Ok(Some(NodeOf(projectRoot, entries[hash])));
    }
  }
}
