/** The firebase plugin's inferred targets: for each `firebase.json` next to a
    project file, a `serve-firebase` target running the serve executor, and
    the hash-keyed cache of the targets it computes. Hashing, the package
    manager and reading the cache file are left to the caller. */
module FirebaseTargets {
  import opened Wrappers
  import opened Text
  import opened Records
  import opened Emulators
  import opened Workspace
  import Paths

  /** The plugin options of `nx.json`. */
  datatype PluginOptions = PluginOptions(serveTargetName: Option<string>, includeHosting: Option<bool>, saveDataDirectory: Option<string>)

  /** The options once defaults are in. */
  datatype Normalized = Normalized(serveTargetName: string, includeHosting: bool, saveDataDirectory: Option<string>)

  /** `normalizePluginOptions(options)`: `??=` fills the serve target name
      and `includeHosting`, keeping what is provided. */
  function NormalizePluginOptions(options: Option<PluginOptions>): (r: Normalized)
    ensures options.None? ==> r == Normalized("serve-firebase", false, None)
    ensures options.Some? ==>
      && (options.value.serveTargetName.Some? ==> r.serveTargetName == options.value.serveTargetName.value)
      && (options.value.serveTargetName.None? ==> r.serveTargetName == "serve-firebase")
      && (options.value.includeHosting.Some? ==> r.includeHosting == options.value.includeHosting.value)
      && (options.value.includeHosting.None? ==> !r.includeHosting)
      && r.saveDataDirectory == options.value.saveDataDirectory
  {
    var o := options.GetOr(PluginOptions(None, None, None));
    Normalized(o.serveTargetName.GetOr("serve-firebase"), o.includeHosting.GetOr(false), o.saveDataDirectory)
  }

  // ---------------------------------------------------------------------
  // The emulators to serve

  /** A key the serve target lists: a settings object with a truthy port,
      and not `hosting`. */
  predicate Serves(e: (string, EmulatorValue))
  {
    e.1.Settings? && e.1.port.Truthy() && e.0 != "hosting"
  }

  function ServeEmulators(entries: EmulatorEntries): (keys: seq<string>)
    ensures |keys| <= |entries|
    ensures forall k :: k in keys <==> exists i :: 0 <= i < |entries| && entries[i].0 == k && Serves(entries[i])
  {
    if |entries| == 0 then []
    else
      var rest := ServeEmulators(entries[1..]);
      assert forall i :: 0 <= i < |entries[1..]| ==> entries[1..][i] == entries[i + 1];
      if Serves(entries[0]) then [entries[0].0] + rest else rest
  }

  /** `getEmulatorsFromConfig(config)`: the forEach that pushes the keys to
      serve, in key order. */
  method GetEmulatorsFromConfig(entries: EmulatorEntries) returns (keys: seq<string>)
    ensures keys == ServeEmulators(entries)
  {
    keys := [];
    var i := 0;
    while i < |entries|
      invariant i <= |entries|
      invariant keys + ServeEmulators(entries[i..]) == ServeEmulators(entries)
    {
      assert entries[i..][1..] == entries[i + 1..];
      var (key, value) := entries[i];
      if value.Flag? || !value.port.Truthy() || key == "hosting" {
        i := i + 1;
        continue;
      }
      keys := keys + [key];
      i := i + 1;
    }
  }

  /** The configuration of the plugin's own tests: auth, database, hosting
      and a `ui` entry without a port give auth and database. */
  lemma ServeEmulatorsExample(a: int, d: int, h: int)
    requires a != 0 && d != 0 && h != 0
    ensures ServeEmulators([("auth", Settings(NumPort(a))), ("database", Settings(NumPort(d))),
                            ("hosting", Settings(NumPort(h))), ("ui", Settings(NoPort))]) == ["auth", "database"]
  {
    var entries := [("auth", Settings(NumPort(a))), ("database", Settings(NumPort(d))),
                    ("hosting", Settings(NumPort(h))), ("ui", Settings(NoPort))];
    var auth, database, hosting := "auth", "database", "hosting";
    assert auth != hosting && database != hosting by {
      assert |auth| != |hosting| && database[0] != hosting[0];
    }
    assert Serves(entries[0]) && Serves(entries[1]) && !Serves(entries[2]) && !Serves(entries[3]);
    assert ServeEmulators(entries[3..]) == [] by {
      assert entries[3..][1..] == [];
    }
    assert ServeEmulators(entries[2..]) == [] by {
      assert entries[2..][1..] == entries[3..];
    }
    assert ServeEmulators(entries[1..]) == [database] by {
      assert entries[1..][1..] == entries[2..];
    }
  }

  // ---------------------------------------------------------------------
  // The base serve target

  /** The parts of `nx-firebase.json` read. */
  datatype NxFirebaseJson = NxFirebaseJson(baseServeTarget: Option<string>)

  /** The first key whose lower-case form contains 'serve'. */
  function FirstServeKey(keys: seq<string>): (r: Option<string>)
    ensures r.None? <==> forall i :: 0 <= i < |keys| ==> !Contains(ToLower(keys[i]), "serve")
    ensures r.Some? ==> exists i :: (0 <= i < |keys| && keys[i] == r.value && Contains(ToLower(keys[i]), "serve") &&
      forall j :: 0 <= j < i ==> !Contains(ToLower(keys[j]), "serve"))
  {
    if |keys| == 0 then None
    else if Contains(ToLower(keys[0]), "serve") then Some(keys[0])
    else
      var r := FirstServeKey(keys[1..]);
      if r.None? then r
      else
        var i :| 0 <= i < |keys[1..]| && keys[1..][i] == r.value && Contains(ToLower(keys[1..][i]), "serve") &&
          forall j :: 0 <= j < i ==> !Contains(ToLower(keys[1..][j]), "serve");
        assert keys[i + 1] == r.value && forall j :: 0 <= j < i + 1 ==> !Contains(ToLower(keys[j]), "serve");
        r
  }

  /** A value as a template literal renders it. */
  function RenderOpt(s: Option<string>): string
  {
    if s.Some? then s.value else "undefined"
  }

  const ReadServe := "Cannot read properties of undefined (reading 'serve')"

  /** The target `getBaseServeTarget` names, given `nx-firebase.json` (when
      it exists) and `project.json` (when it can be read). */
  function BaseServeTargetOf(nxFirebase: Option<NxFirebaseJson>, projectJson: Option<ProjectConfig>, projectJsonPath: string): (r: Result<string>)
    ensures nxFirebase.Some? && nxFirebase.value.baseServeTarget.Some? && nxFirebase.value.baseServeTarget.value != "" ==>
      r == Ok(nxFirebase.value.baseServeTarget.value)
    ensures r.Err? ==> r.failure == ReadError(projectJsonPath) || r.failure == TypeError(ReadServe)
    ensures r.Ok? && !(nxFirebase.Some? && nxFirebase.value.baseServeTarget.Some? && nxFirebase.value.baseServeTarget.value != "") ==>
      projectJson.Some? && projectJson.value.targets.Some?
    ensures (r.Ok? && !(nxFirebase.Some? && nxFirebase.value.baseServeTarget.Some? && nxFirebase.value.baseServeTarget.value != "") &&
      projectJson.Some? && projectJson.value.targets.Some?) ==>
      var targets := projectJson.value.targets.value;
      r.value == RenderOpt(projectJson.value.name) + ":" +
        (if HasKey(targets, "serve") then "serve" else RenderOpt(FirstServeKey(Keys(targets))))
  {
    if nxFirebase.Some? && nxFirebase.value.baseServeTarget.Some? && nxFirebase.value.baseServeTarget.value != "" then
      Ok(nxFirebase.value.baseServeTarget.value)
    else if projectJson.None? then Err(ReadError(projectJsonPath))
    else if projectJson.value.targets.None? then Err(TypeError(ReadServe))
    else
      var targets := projectJson.value.targets.value;
      Ok(RenderOpt(projectJson.value.name) + ":" +
        (if HasKey(targets, "serve") then "serve" else RenderOpt(FirstServeKey(Keys(targets)))))
  }

  /** `getBaseServeTarget(configFile, context)`: the configured target, else
      the project's `serve`, else the first key mentioning serve, picked by a
      forEach that keeps its first match. */
  method GetBaseServeTarget(nxFirebase: Option<NxFirebaseJson>, projectJson: Option<ProjectConfig>, projectJsonPath: string)
    returns (r: Result<string>)
    ensures r == BaseServeTargetOf(nxFirebase, projectJson, projectJsonPath)
  {
    if nxFirebase.Some? && nxFirebase.value.baseServeTarget.Some? && nxFirebase.value.baseServeTarget.value != "" {
      return Ok(nxFirebase.value.baseServeTarget.value);
    }
    if projectJson.None? {
      return Err(ReadError(projectJsonPath));
    }
    if projectJson.value.targets.None? {
      return Err(TypeError(ReadServe));
    }
    var targets := projectJson.value.targets.value;
    var serveTarget: Option<string> := None;
    if HasKey(targets, "serve") {
      serveTarget := Some("serve");
    } else {
      var keys := Keys(targets);
      var i := 0;
      while i < |keys|
        invariant i <= |keys|
        invariant FirstServeKey(keys) == if serveTarget.Some? then serveTarget else FirstServeKey(keys[i..])
      {
        assert keys[i..][1..] == keys[i + 1..];
        if Contains(ToLower(keys[i]), "serve") && serveTarget.None? {
          serveTarget := Some(keys[i]);
        }
        i := i + 1;
      }
    }
    r := Ok(RenderOpt(projectJson.value.name) + ":" + RenderOpt(serveTarget));
  }

  // ---------------------------------------------------------------------
  // The targets

  /** The serve target built for a project. */
  datatype ServeTarget = ServeTarget(
    executor: string,
    cwd: string,
    baseServeTarget: string,
    only: seq<string>,
    includeHosting: bool,
    saveDataDir: Option<string>,
    parallelism: bool,
    helpCommand: string)

  /** `{ targets }`, or `{}` when there is nothing to serve. */
  type PluginTargets = Option<Record<ServeTarget>>

  const ServeExecutor := "@nxextensions/firebase:serve"

  /** `buildFirebaseTargets(...)` once the files it reads are given: nothing
      without emulators, else one serve target under the configured name. */
  function FirebaseTargetsOf(projectRoot: string, options: Normalized, config: FirebaseJson,
                             nxFirebase: Option<NxFirebaseJson>, projectJson: Option<ProjectConfig>,
                             projectJsonPath: string, pmcExec: string): (r: Result<PluginTargets>)
    ensures config.emulators.None? ==> r == Ok(None)
    ensures config.emulators.Some? ==> (r.Ok? <==> BaseServeTargetOf(nxFirebase, projectJson, projectJsonPath).Ok?)
    ensures config.emulators.Some? && r.Ok? ==>
      var base := BaseServeTargetOf(nxFirebase, projectJson, projectJsonPath).value;
      && r.value.Some? && Keys(r.value.value) == [options.serveTargetName]
      && var t := r.value.value[0].1;
      && t.executor == ServeExecutor && t.cwd == projectRoot && !t.parallelism
      && t.baseServeTarget == base
      && t.only == ServeEmulators(config.emulators.value)
      && t.includeHosting == options.includeHosting
      && (t.saveDataDir.Some? <==> options.saveDataDirectory.Some? && options.saveDataDirectory.value != "")
      && (t.saveDataDir.Some? ==> t.saveDataDir == options.saveDataDirectory)
      && t.helpCommand == pmcExec + " nx run " + Split(base, ':')[0] + ":" + options.serveTargetName + " --help"
  {
    if config.emulators.None? then Ok(None)
    else
      var base :- BaseServeTargetOf(nxFirebase, projectJson, projectJsonPath);
      var fullTargetName := Split(base, ':')[0] + ":" + options.serveTargetName;
      var saveDataDir := if options.saveDataDirectory.Some? && options.saveDataDirectory.value != ""
        then options.saveDataDirectory else None;
      Ok(Some([(options.serveTargetName, ServeTarget(ServeExecutor, projectRoot, base,
        ServeEmulators(config.emulators.value), options.includeHosting, saveDataDir, false,
        pmcExec + " nx run " + fullTargetName + " --help"))]))
  }

  /** The help command names the project of the base serve target, whatever
      configuration follows it. */
  lemma HelpNamesBaseProject(project: string, target: string, options: Normalized, pmcExec: string)
    requires ':' !in project
    ensures pmcExec + " nx run " + Split(project + ":" + target, ':')[0] + ":" + options.serveTargetName + " --help" ==
      pmcExec + " nx run " + project + ":" + options.serveTargetName + " --help"
  {
    SplitAfterPiece(project, target, ':');
  }

  /** The project written by `createNodesInternal`. */
  datatype Node = Node(root: string, projectType: string, targets: PluginTargets)

  /** The directory of the configuration file holds a `package.json` or a
      `project.json`. */
  predicate HasProjectFile(listing: Listing, root: string, projectRoot: string)
  {
    var siblings := listing(Paths.PathJoin([root, projectRoot]));
    "package.json" in siblings || "project.json" in siblings
  }

  /** The hash-keyed targets shared by the calls of one `createNodesV2`
      pass and written back to disk after it. */
  class TargetsCache {
    var entries: map<string, PluginTargets>

    constructor(initial: map<string, PluginTargets>)
      ensures entries == initial
    {
      entries := initial;
    }

    /** `createNodesInternal(configFile, options, context, targetsCache)`
        with the hash given: without a project file nothing is returned and
        the cache is untouched; otherwise the entry for the hash is always
        rebuilt and overwritten, and the project is keyed by the directory
        of the configuration file. */
    method CreateNodesInternal(configFile: string, options: Option<PluginOptions>, root: string, listing: Listing,
                               hash: string, config: FirebaseJson, nxFirebase: Option<NxFirebaseJson>,
                               projectJson: Option<ProjectConfig>, pmcExec: string)
      returns (r: Result<Option<Node>>)
      modifies this
      ensures var projectRoot := Paths.DirName(configFile);
        !HasProjectFile(listing, root, projectRoot) ==> r == Ok(None) && entries == old(entries)
      ensures var projectRoot := Paths.DirName(configFile);
        var built := FirebaseTargetsOf(projectRoot, NormalizePluginOptions(options), config, nxFirebase, projectJson,
                                       Paths.PathJoin([root, projectRoot, "project.json"]), pmcExec);
        HasProjectFile(listing, root, projectRoot) ==>
          && (built.Err? ==> r == Err(built.failure) && entries == old(entries))
          && (built.Ok? ==> entries == old(entries)[hash := built.value] && r == Ok(Some(Node(projectRoot, "application", built.value))))
    {
      var normalized := NormalizePluginOptions(options);
      var projectRoot := Paths.DirName(configFile);
      if !HasProjectFile(listing, root, projectRoot) {
        return Ok(None);
      }
      var built := FirebaseTargetsOf(projectRoot, normalized, config, nxFirebase, projectJson,
                                     Paths.PathJoin([root, projectRoot, "project.json"]), pmcExec);
      if built.Err? {
        return Err(built.failure);
      }
      entries := entries[hash := built.value];
      r := Ok(Some(Node(projectRoot, "application", entries[hash])));
    }
  }
}
