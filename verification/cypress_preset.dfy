/** The Cypress configuration presets of the Cypress plugin: `nxBaseCypressPreset`
    (output folders under the workspace's `dist`) and `nxE2EPreset` (the
    spec layout of the project and the plugin-options entry that the target
    generator reads back). Whether the configuration path is a directory
    (`lstatSync`) is a parameter, and so is the workspace root. */
module CypressPreset {
  import opened Wrappers
  import opened Text
  import opened Records
  import opened Paths
  import CypressTargets

  /** `nxBaseCypressPreset(pathToConfig, options)` together with the value it
      stores in `NX_CYPRESS_COMPONENT_TEST`. */
  datatype BasePreset = BasePreset(
    chromeWebSecurity: bool,
    screenshotsFolder: string,
    videosFolder: string,
    componentTestEnv: string)

  /** `'component' | 'e2e'`, when options are given. */
  datatype PresetTestingType = E2ePreset | ComponentPreset

  /** A folder below `offset/dist/cypress/<projectPath>`, `offset` leading from
      the project back to the workspace root. */
  function OutputFolder(cwd: string, workspaceRoot: string, projectDir: string, leaf: string): string
  {
    var projectPath := Relative(cwd, workspaceRoot, projectDir);
    var offset := Relative(cwd, projectDir, workspaceRoot);
    PathJoin([offset, "dist", "cypress", projectPath, leaf])
  }

  /** The configuration file's directory, or the path itself when it names a
      directory. */
  function ConfigDirectory(pathToConfig: string, isDirectory: bool): (d: string)
    ensures isDirectory ==> d == pathToConfig
    ensures !isDirectory ==> d == DirName(pathToConfig)
  {
    if isDirectory then pathToConfig else DirName(pathToConfig)
  }

  function NxBaseCypressPreset(cwd: string, workspaceRoot: string, pathToConfig: string, isDirectory: bool,
                               testingType: Option<PresetTestingType>): (p: BasePreset)
    ensures !p.chromeWebSecurity
    ensures p.componentTestEnv == "true" <==> testingType == Some(ComponentPreset)
    ensures p.componentTestEnv in {"true", "false"}
    ensures var dir := ConfigDirectory(pathToConfig, isDirectory);
      p.videosFolder == OutputFolder(cwd, workspaceRoot, dir, "videos") &&
      p.screenshotsFolder == OutputFolder(cwd, workspaceRoot, dir, "screenshots")
  {
    var dir := ConfigDirectory(pathToConfig, isDirectory);
    BasePreset(false, OutputFolder(cwd, workspaceRoot, dir, "screenshots"), OutputFolder(cwd, workspaceRoot, dir, "videos"),
               if testingType == Some(ComponentPreset) then "true" else "false")
  }

  // ---------------------------------------------------------------------
  // Where the output folders land

  /** Each plain segment of a list. */
  predicate AllPlain(segs: seq<string>)
  {
    forall i :: 0 <= i < |segs| ==> PlainSegment(segs[i])
  }

  /** A project directory below the workspace root sees the root `|rest|`
      levels up. */
  lemma RelativeAbove(cwd: string, root: seq<string>, rest: seq<string>)
    requires |root| > 0 && |rest| > 0 && AllPlain(root) && AllPlain(rest)
    ensures Relative(cwd, "/" + Join(root + rest, "/"), "/" + Join(root, "/")) == Join(Ups(|rest|), "/")
  {
    AbsoluteSegments(root);
    AbsoluteSegments(root + rest);
    CommonPrefixBelow(root, rest);
    assert root[|root|..] == [];
    assert Ups(|root + rest| - |root|) + [] == Ups(|rest|);
  }

  lemma {:induction false} CommonPrefixBelow(a: seq<string>, rest: seq<string>)
    ensures CommonPrefix(a + rest, a) == |a|
  {
    if |a| > 0 {
      CommonPrefixBelow(a[1..], rest);
      assert (a + rest)[1..] == a[1..] + rest;
    }
  }

  /** '..' segments survive normalisation of a relative path. */
  lemma {:induction false} NormalizeUps(k: nat)
    ensures NormalizeSegments(Ups(k), true) == Ups(k)
  {
    if k > 0 {
      NormalizeUps(k - 1);
      UpsSnoc(k);
      NormalizeSnoc(Ups(k - 1), "..", true);
    }
  }

  /** Joining five fragments, two of them joins themselves, is the join of
      the segments they spell. */
  lemma JoinFragments(ups: seq<string>, x: string, y: string, below: seq<string>, leaf: string)
    requires |ups| > 0 && |below| > 0
    ensures Join([Join(ups, "/"), x, y, Join(below, "/"), leaf], "/") == Join(ups + [x, y] + below + [leaf], "/")
  {
    var jb := Join(below, "/");
    var tail := [x, y] + (below + [leaf]);
    JoinAppend(below, [leaf], "/");
    assert Join([x, y], "/") == x + "/" + y;
    JoinAppend([x, y], below + [leaf], "/");
    assert Join(tail, "/") == x + "/" + y + "/" + (jb + "/" + leaf);
    JoinAppend(ups, tail, "/");
    assert ups + tail == ups + [x, y] + below + [leaf];
    var parts := [Join(ups, "/"), x, y, jb, leaf];
    assert Join(parts[3..], "/") == jb + "/" + leaf;
    assert Join(parts[2..], "/") == y + "/" + (jb + "/" + leaf);
    assert Join(parts[1..], "/") == x + "/" + (y + "/" + (jb + "/" + leaf));
  }

  /** With the workspace at `/root…` and the project at `/root…/rest…`, the
      output folder is `../…/dist/cypress/rest…/leaf`: one '..' per project
      level, so it resolves to `dist/cypress/<project path>/leaf` under the
      workspace root. */
  lemma OutputFolderBelowRoot(cwd: string, root: seq<string>, rest: seq<string>, leaf: string)
    requires |root| > 0 && |rest| > 0 && AllPlain(root) && AllPlain(rest) && PlainSegment(leaf)
    ensures OutputFolder(cwd, "/" + Join(root, "/"), "/" + Join(root + rest, "/"), leaf) ==
      Join(Ups(|rest|) + ["dist", "cypress"] + rest + [leaf], "/")
  {
    RelativeBelow(cwd, root, rest);
    RelativeAbove(cwd, root, rest);
    PathJoinClimb(|rest|, rest, leaf);
  }

  /** `path.join('../..', 'dist', 'cypress', 'a/b', leaf)` keeps every
      segment: the '..' segments lead a relative path. */
  lemma PathJoinClimb(k: nat, below: seq<string>, leaf: string)
    requires k > 0 && |below| > 0 && AllPlain(below) && PlainSegment(leaf)
    ensures PathJoin([Join(Ups(k), "/"), "dist", "cypress", Join(below, "/"), leaf]) ==
      Join(Ups(k) + ["dist", "cypress"] + below + [leaf], "/")
  {
    var segs := Ups(k) + ["dist", "cypress"] + below + [leaf];
    var parts := [Join(Ups(k), "/"), "dist", "cypress", Join(below, "/"), leaf];
    ClimbParts(k, below, leaf);
    PathJoinSegments(parts, segs);
  }

  /** What `PathJoinSegments` needs of the fragments in `PathJoinClimb`. */
  lemma ClimbParts(k: nat, below: seq<string>, leaf: string)
    requires k > 0 && |below| > 0 && AllPlain(below) && PlainSegment(leaf)
    ensures var segs := Ups(k) + ["dist", "cypress"] + below + [leaf];
      var parts := [Join(Ups(k), "/"), "dist", "cypress", Join(below, "/"), leaf];
      && (forall i :: 0 <= i < |parts| ==> parts[i] != "")
      && |segs| > 0 && Join(parts, "/") == Join(segs, "/")
      && (forall i :: 0 <= i < |segs| ==> '/' !in segs[i])
      && segs[0] != "" && segs[|segs| - 1] != ""
      && NormalizeSegments(segs, true) == segs && segs != []
  {
    var plain := ["dist", "cypress"] + below + [leaf];
    var segs := Ups(k) + plain;
    assert segs == Ups(k) + ["dist", "cypress"] + below + [leaf];
    var parts := [Join(Ups(k), "/"), "dist", "cypress", Join(below, "/"), leaf];
    PlainTail(below, leaf);
    JoinFragments(Ups(k), "dist", "cypress", below, leaf);
    NormalizeUpsPlain(k, plain);
    PartsNonEmpty(k, below, leaf);
    SlashFree(k, plain);
  }

  /** The fragments after the '..' segments are plain. */
  lemma PlainTail(below: seq<string>, leaf: string)
    requires AllPlain(below) && PlainSegment(leaf)
    ensures AllPlain(["dist", "cypress"] + below + [leaf])
  {
    PlainLiterals();
    var plain := ["dist", "cypress"] + below + [leaf];
    forall i | 0 <= i < |plain|
      ensures PlainSegment(plain[i])
    {
      if 2 <= i < |plain| - 1 {
        assert plain[i] == below[i - 2];
      }
    }
  }

  /** '..' segments followed by plain ones are already normal. */
  lemma NormalizeUpsPlain(k: nat, plain: seq<string>)
    requires AllPlain(plain)
    ensures NormalizeSegments(Ups(k) + plain, true) == Ups(k) + plain
  {
    NormalizeAppendPlain(Ups(k), plain, true);
    NormalizeUps(k);
  }

  /** None of the five fragments is empty. */
  lemma PartsNonEmpty(k: nat, below: seq<string>, leaf: string)
    requires k > 0 && |below| > 0 && AllPlain(below) && PlainSegment(leaf)
    ensures var parts := [Join(Ups(k), "/"), "dist", "cypress", Join(below, "/"), leaf];
      forall i :: 0 <= i < |parts| ==> parts[i] != ""
  {
    JoinEnds(Ups(k), "/");
    JoinEnds(below, "/");
    assert Ups(k)[0] == "..";
    assert PlainSegment(below[0]);
  }

  lemma SlashFree(k: nat, plain: seq<string>)
    requires |plain| > 0 && AllPlain(plain)
    ensures var segs := Ups(k) + plain;
      (forall i :: 0 <= i < |segs| ==> '/' !in segs[i]) && segs[0] != "" && segs[|segs| - 1] != ""
  {
    var segs := Ups(k) + plain;
    forall i | 0 <= i < |segs|
      ensures '/' !in segs[i]
    {
      if i >= k {
        assert segs[i] == plain[i - k];
      } else {
        assert segs[i] == "..";
      }
    }
    assert segs[0] != "" by {
      if k == 0 {
        assert segs[0] == plain[0];
      }
    }
  }

  lemma PlainLiterals()
    ensures PlainSegment("dist") && PlainSegment("cypress")
    ensures PlainSegment("videos") && PlainSegment("screenshots")
  {
  }

  /** A configuration file inside the project directory puts the videos
      under `dist/cypress/<project path>/videos` of the workspace. */
  lemma VideosOfConfigFile(cwd: string, root: seq<string>, rest: seq<string>, file: string,
                           testingType: Option<PresetTestingType>)
    requires |root| > 0 && |rest| > 0 && AllPlain(root) && AllPlain(rest) && PlainSegment(file)
    ensures var pathToConfig := "/" + Join(root + rest, "/") + "/" + file;
      NxBaseCypressPreset(cwd, "/" + Join(root, "/"), pathToConfig, false, testingType).videosFolder ==
      Join(Ups(|rest|) + ["dist", "cypress"] + rest + ["videos"], "/")
  {
    var dir := "/" + Join(root + rest, "/");
    assert AllPlain(root + rest);
    JoinLastChar(root + rest);
    DirNameBaseName(dir, file);
    PlainLiterals();
    OutputFolderBelowRoot(cwd, root, rest, "videos");
  }

  // ---------------------------------------------------------------------
  // The end-to-end preset

  /** `WebServerConfig`. */
  datatype WebServerConfig = WebServerConfig(timeout: Option<int>, reuseExistingServer: Option<bool>)

  /** `NxCypressE2EPresetOptions` without the Vite overrides; the web-server
      settings are read by the older preset's `setupNodeEvents` only. */
  datatype E2EPresetOptions = E2EPresetOptions(
    bundler: Option<string>,
    cypressDir: Option<string>,
    webServerCommands: Option<Record<string>>,
    ciWebServerCommand: Option<string>,
    webServerConfig: Option<WebServerConfig>)

  /** The entry stored under the plugin-options key. */
  datatype PluginOptionsEntry = PluginOptionsEntry(
    webServerCommand: Option<string>,
    webServerCommands: Option<Record<string>>,
    ciWebServerCommand: Option<string>)

  /** The configuration `nxE2EPreset` returns, apart from `setupNodeEvents`. */
  datatype E2EPreset = E2EPreset(
    base: BasePreset,
    fileServerFolder: string,
    supportFile: string,
    specPattern: string,
    fixturesFolder: string,
    pluginOptions: PluginOptionsEntry)

  /** `options?.cypressDir || 'src'`. */
  function BasePath(options: Option<E2EPresetOptions>): (b: string)
    ensures b != ""
    ensures options.Some? && options.value.cypressDir.Some? && options.value.cypressDir.value != "" ==>
      b == options.value.cypressDir.value
    ensures options.None? || options.value.cypressDir.None? || options.value.cypressDir.value == "" ==> b == "src"
  {
    if options.Some? && options.value.cypressDir.Some? && options.value.cypressDir.value != "" then
      options.value.cypressDir.value
    else "src"
  }

  /** The entry under the plugin-options key: the `default` web-server
      command next to the commands and the CI command. */
  function PluginOptionsOf(options: Option<E2EPresetOptions>): (e: PluginOptionsEntry)
    ensures options.None? ==> e == PluginOptionsEntry(None, None, None)
    ensures options.Some? ==>
      e.webServerCommands == options.value.webServerCommands && e.ciWebServerCommand == options.value.ciWebServerCommand
    ensures e.webServerCommand.Some? <==> e.webServerCommands.Some? && HasKey(e.webServerCommands.value, "default")
    ensures e.webServerCommand.Some? ==> ("default", e.webServerCommand.value) in e.webServerCommands.value
  {
    match options
    case None => PluginOptionsEntry(None, None, None)
    case Some(o) =>
      var default := if o.webServerCommands.Some? then Get(o.webServerCommands.value, "default") else None;
      PluginOptionsEntry(default, o.webServerCommands, o.ciWebServerCommand)
  }

  /** `nxE2EPreset(pathToConfig, options)`: the spec layout sits under the
      base path. */
  function NxE2EPreset(cwd: string, workspaceRoot: string, pathToConfig: string, isDirectory: bool,
                       options: Option<E2EPresetOptions>): (p: E2EPreset)
    ensures p.base == NxBaseCypressPreset(cwd, workspaceRoot, pathToConfig, isDirectory, None)
    ensures p.base.componentTestEnv == "false"
    ensures p.fileServerFolder == "."
    ensures var b := BasePath(options);
      p.supportFile == b + "/support/e2e.{js,ts}" &&
      p.specPattern == b + "/**/*.cy.{js,jsx,ts,tsx}" &&
      p.fixturesFolder == b + "/fixtures"
    ensures p.pluginOptions == PluginOptionsOf(options)
  {
    var b := BasePath(options);
    E2EPreset(NxBaseCypressPreset(cwd, workspaceRoot, pathToConfig, isDirectory, None), ".",
              b + "/support/e2e.{js,ts}", b + "/**/*.cy.{js,jsx,ts,tsx}", b + "/fixtures",
              PluginOptionsOf(options))
  }

  /** The `e2e` section a configuration built on the preset exports, as the
      target generator reads it. */
  function AsTestingConfig(p: E2EPreset): CypressTargets.TestingConfig
  {
    CypressTargets.TestingConfig(
      Some(CypressTargets.PresetOptions(p.pluginOptions.webServerCommands, p.pluginOptions.ciWebServerCommand)),
      None, None, Some(p.base.videosFolder), Some(p.base.screenshotsFolder))
  }

  /** The command the preset records as `webServerCommand` is the one the
      target generator reads back as the dev-server command. */
  lemma PresetFeedsTargetGenerator(cwd: string, workspaceRoot: string, pathToConfig: string, isDirectory: bool,
                                   options: E2EPresetOptions)
    requires options.webServerCommands.Some? && HasKey(options.webServerCommands.value, "default")
    ensures var p := NxE2EPreset(cwd, workspaceRoot, pathToConfig, isDirectory, Some(options));
      CypressTargets.DefaultWebServerCommand(CypressTargets.CypressConfig(Some(AsTestingConfig(p)), None, None, None, None))
        == Ok(p.pluginOptions.webServerCommand.value)
  {
  }
}
