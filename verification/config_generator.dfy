/** `configGenerator` of the Cypress plugin: for each selected project that
    has a `firebase.json`, it adds a `<name>-e2e` project to the workspace,
    writes its initial Cypress configuration and, when the project can be
    served, the Cypress files and the web-server commands of the preset.
    The project graph, the workspace's apps directory, the `type` field of
    the `package.json` files and what `require` answers for Cypress's
    `package.json` are parameters. */
module ConfigGenerator {
  import opened Wrappers
  import opened Text
  import opened Records
  import opened Paths
  import opened Workspace
  import opened NxTree
  import opened CypressVersion
  import CypressPreset
  import CypressTargets

  /** `projects: string | string[]`. */
  datatype ProjectsOption = ProjectNames(names: seq<string>) | ProjectsText(text: string)

  datatype Bundler = Vite | Webpack

  /** `ConfigGeneratorSchema`. */
  datatype ConfigGeneratorSchema = ConfigGeneratorSchema(
    projects: Option<ProjectsOption>,
    useJavascript: Option<bool>,
    directory: Option<string>,
    bundler: Option<Bundler>,
    baseUrl: Option<string>)

  const ProjectsMustBeProvided := "Projects must be provided"

  // ---------------------------------------------------------------------
  // Selecting the projects

  function CommaToSpace(s: string): (t: string)
    ensures |t| == |s|
    ensures forall i :: 0 <= i < |s| ==> t[i] == (if s[i] == ',' then ' ' else s[i])
  {
    if |s| == 0 then "" else [if s[0] == ',' then ' ' else s[0]] + CommaToSpace(s[1..])
  }

  /** `text.split(/[ ,]/)`: the pieces between spaces and commas. */
  function SplitProjects(text: string): (names: seq<string>)
    ensures |names| >= 1
    ensures forall i :: 0 <= i < |names| ==> ' ' !in names[i] && ',' !in names[i]
  {
    var names := Split(CommaToSpace(text), ' ');
    NoCommaPieces(text);
    assert forall i :: 0 <= i < |names| ==> ' ' !in names[i];
    assert forall i :: 0 <= i < |names| ==> ',' !in names[i];
    names
  }

  lemma NoCommaPieces(text: string)
    ensures forall i :: 0 <= i < |Split(CommaToSpace(text), ' ')| ==> ',' !in Split(CommaToSpace(text), ' ')[i]
  {
    var t := CommaToSpace(text);
    var names := Split(t, ' ');
    forall i | 0 <= i < |names|
      ensures ',' !in names[i]
    {
      if ',' in names[i] {
        SplitPieceChars(t, ' ', i, ',');
      }
    }
  }

  /** Splitting loses no character: the pieces joined by spaces give back
      the text with its commas read as spaces. */
  lemma SplitProjectsJoin(text: string)
    ensures Join(SplitProjects(text), " ") == CommaToSpace(text)
  {
    JoinSplit(CommaToSpace(text), ' ');
  }

  /** Names listed with commas come back as they were listed. */
  lemma SplitProjectsCommaList(names: seq<string>)
    requires |names| >= 1
    requires forall i :: 0 <= i < |names| ==> ' ' !in names[i] && ',' !in names[i]
    ensures SplitProjects(Join(names, ",")) == names
  {
    CommaListToSpaces(names);
    SplitJoin(names, ' ');
  }

  lemma {:induction false} CommaListToSpaces(names: seq<string>)
    requires |names| >= 1
    requires forall i :: 0 <= i < |names| ==> ',' !in names[i]
    ensures CommaToSpace(Join(names, ",")) == Join(names, " ")
  {
    if |names| == 1 {
      NoCommaUnchanged(names[0]);
    } else {
      CommaListToSpaces(names[1..]);
      NoCommaUnchanged(names[0]);
      CommaToSpaceAppend(names[0] + ",", Join(names[1..], ","));
      CommaToSpaceAppend(names[0], ",");
    }
  }

  lemma NoCommaUnchanged(s: string)
    requires ',' !in s
    ensures CommaToSpace(s) == s
  {
  }

  lemma CommaToSpaceAppend(a: string, b: string)
    ensures CommaToSpace(a + b) == CommaToSpace(a) + CommaToSpace(b)
  {
  }

  /** `Array.isArray(projects) ? projects : projects.split(/[ ,]/)`, after
      the check that `projects` is given and non-empty. */
  function TargetProjects(options: ConfigGeneratorSchema): (r: Result<seq<string>>)
    ensures r.Err? <==> options.projects.None? || options.projects == Some(ProjectsText(""))
    ensures r.Err? ==> r.failure == Error(ProjectsMustBeProvided)
    ensures options.projects.Some? && options.projects.value.ProjectNames? ==> r == Ok(options.projects.value.names)
    ensures options.projects.Some? && options.projects.value.ProjectsText? && r.Ok? ==>
      Join(r.value, " ") == CommaToSpace(options.projects.value.text)
  {
    match options.projects
    case None => Err(Error(ProjectsMustBeProvided))
    case Some(ProjectNames(names)) => Ok(names)
    case Some(ProjectsText(text)) =>
      if text == "" then Err(Error(ProjectsMustBeProvided))
      else
        SplitProjectsJoin(text);
        Ok(SplitProjects(text))
  }

  function UnableToFind(name: string): string
  {
    "Unable to find project configuration for project: " + name
  }

  /** `targetProjects.map(...)`: every name's configuration, or the error for
      the first name the graph does not know. */
  function ResolveProjects(names: seq<string>, graph: Projects): (r: Result<seq<ProjectConfig>>)
    ensures r.Ok? <==> forall i :: 0 <= i < |names| ==> HasKey(graph, names[i])
    ensures r.Ok? ==> |r.value| == |names| && forall i :: 0 <= i < |names| ==> Get(graph, names[i]) == Some(r.value[i])
    ensures r.Err? ==> exists k :: (0 <= k < |names| && !HasKey(graph, names[k]) && r.failure == Error(UnableToFind(names[k])) &&
                                    forall j :: 0 <= j < k ==> HasKey(graph, names[j]))
  {
    if |names| == 0 then Ok([])
    else match Get(graph, names[0])
      case None => Err(Error(UnableToFind(names[0])))
      case Some(c) =>
        match ResolveProjects(names[1..], graph)
        case Err(f) =>
          FirstUnknownShift(names, graph, f);
          Err(f)
        case Ok(rest) =>
          assert forall i :: 1 <= i < |names| ==> names[i] == names[1..][i - 1];
          Ok([c] + rest)
  }

  /** The first unknown name among `names[1..]`, behind a known `names[0]`,
      is the first unknown name among `names`. */
  lemma FirstUnknownShift(names: seq<string>, graph: Projects, f: Failure)
    requires |names| > 0 && HasKey(graph, names[0])
    requires exists k :: (0 <= k < |names[1..]| && !HasKey(graph, names[1..][k]) && f == Error(UnableToFind(names[1..][k])) &&
                          forall j :: 0 <= j < k ==> HasKey(graph, names[1..][j]))
    ensures exists k :: (0 <= k < |names| && !HasKey(graph, names[k]) && f == Error(UnableToFind(names[k])) &&
                         forall j :: 0 <= j < k ==> HasKey(graph, names[j]))
  {
    var k :| 0 <= k < |names[1..]| && !HasKey(graph, names[1..][k]) && f == Error(UnableToFind(names[1..][k])) &&
      forall j :: 0 <= j < k ==> HasKey(graph, names[1..][j]);
    assert names[k + 1] == names[1..][k];
    forall j | 0 <= j < k + 1
      ensures HasKey(graph, names[j])
    {
      if j > 0 {
        assert names[j] == names[1..][j - 1];
      }
    }
  }

  // ---------------------------------------------------------------------
  // Normalised options

  /** The number of '/' and '\' characters (`match(/[\\/]/g)`). */
  function SeparatorCount(s: string): (n: nat)
    ensures n <= |s|
  {
    if |s| == 0 then 0 else (if s[0] == '/' || s[0] == '\\' then 1 else 0) + SeparatorCount(s[1..])
  }

  /** One '..' per segment of the directory, joined by '/'. */
  function ClimbOut(directory: string): string
  {
    Join(Ups(SeparatorCount(directory) + 1), "/")
  }

  lemma SeparatorCountAppend(a: string, b: string)
    ensures SeparatorCount(a + b) == SeparatorCount(a) + SeparatorCount(b)
  {
    if |a| > 0 {
      SeparatorCountAppend(a[1..], b);
      assert (a + b)[1..] == a[1..] + b;
    } else {
      assert a + b == b;
    }
  }

  lemma SeparatorFree(s: string)
    requires '/' !in s && '\\' !in s
    ensures SeparatorCount(s) == 0
  {
    if |s| > 0 {
      SeparatorFree(s[1..]);
    }
  }

  /** A directory of `n` plain segments holds `n - 1` separators. */
  lemma {:induction false} SeparatorCountJoin(segs: seq<string>)
    requires |segs| > 0
    requires forall i :: 0 <= i < |segs| ==> PlainSegment(segs[i]) && '\\' !in segs[i]
    ensures SeparatorCount(Join(segs, "/")) == |segs| - 1
  {
    SeparatorFree(segs[0]);
    if |segs| > 1 {
      SeparatorCountJoin(segs[1..]);
      SeparatorCountAppend(segs[0] + "/", Join(segs[1..], "/"));
      SeparatorCountAppend(segs[0], "/");
    }
  }

  /** The offset leads from the directory back to the project root: one
      '..' per directory segment, and appending it to the directory's
      segments normalises to nothing. */
  lemma ClimbOutOfDirectory(segs: seq<string>)
    requires |segs| > 0
    requires forall i :: 0 <= i < |segs| ==> PlainSegment(segs[i]) && '\\' !in segs[i]
    ensures ClimbOut(Join(segs, "/")) == Join(Ups(|segs|), "/")
    ensures NormalizeSegments(segs + Ups(|segs|), true) == []
  {
    SeparatorCountJoin(segs);
    NormalizePlainSegments(segs, true);
    assert [] + segs == segs;
    ClimbPlainTail(segs, [], segs, |segs|, true);
    assert segs[..0] == [];
  }

  datatype NormalizedOptions = NormalizedOptions(
    js: bool,
    jsx: bool,
    hasTsConfig: bool,
    offsetFromProjectRoot: string,
    directory: string,
    bundler: Bundler,
    baseUrl: string)

  const DefaultBaseUrl := "http://localhost:4200"

  /** `normalizeOptions(options, tree, project)`. */
  function NormalizeOptions(options: ConfigGeneratorSchema, files: set<string>, projectRoot: string): (o: NormalizedOptions)
    ensures o.directory == options.directory.GetOr("src")
    ensures o.js == options.useJavascript.GetOr(false) && o.jsx == o.js
    ensures o.bundler == options.bundler.GetOr(Webpack) && o.baseUrl == options.baseUrl.GetOr(DefaultBaseUrl)
    ensures o.offsetFromProjectRoot == ClimbOut(o.directory) + "/"
    ensures o.hasTsConfig <==> TreeExists(files, PathJoin([projectRoot, "tsconfig.json"]))
  {
    var directory := options.directory.GetOr("src");
    var js := options.useJavascript.GetOr(false);
    NormalizedOptions(js, js, TreeExists(files, PathJoin([projectRoot, "tsconfig.json"])), ClimbOut(directory) + "/",
                      directory, options.bundler.GetOr(Webpack), options.baseUrl.GetOr(DefaultBaseUrl))
  }

  // ---------------------------------------------------------------------
  // The new project and its files

  function AlreadyExists(dir: string): string
  {
    "An error occurred while creating the project: " + dir + " already exists."
  }

  /** The configuration of the `<name>-e2e` project. */
  function NewProject(name: string, appsDir: string): (p: ProjectConfig)
    ensures p.name == Some(name + "-e2e") && p.projectType == Some("application")
    ensures p.root == PathJoin([appsDir, name + "-e2e"])
    ensures p.sourceRoot == Some(PathJoin([p.root, "src"])) && p.implicitDependencies == Some([name])
    ensures p.targets.None?
  {
    var root := PathJoin([appsDir, name + "-e2e"]);
    ProjectConfig(Some(name + "-e2e"), root, Some("application"), Some(PathJoin([root, "src"])), Some([name]), None)
  }

  /** With a plain apps directory the new project sits right below it. */
  lemma NewProjectRoot(appsDir: string, name: string)
    requires PlainSegment(appsDir) && PlainSegment(name + "-e2e")
    ensures NewProject(name, appsDir).root == appsDir + "/" + name + "-e2e"
  {
    PathJoinPlain([appsDir, name + "-e2e"]);
  }

  const CommonTemplate := "files/common"

  function ConfigTemplate(js: bool, esm: bool): (t: string)
    ensures !js ==> t == "files/config-ts"
    ensures js && esm ==> t == "files/config-js-esm"
    ensures js && !esm ==> t == "files/config-js-cjs"
  {
    if !js then "files/config-ts" else if esm then "files/config-js-esm" else "files/config-js-cjs"
  }

  /** `isEsmProject`: the project's own `package.json`, else the
      workspace's, has `type` `module`; reading a workspace `package.json`
      that is not there throws. */
  function IsEsmProject(files: set<string>, root: string, packageType: string -> Option<string>): (r: Result<bool>)
    ensures TreeExists(files, PathJoin([root, "package.json"])) ==>
      r == Ok(packageType(PathJoin([root, "package.json"])) == Some("module"))
    ensures !TreeExists(files, PathJoin([root, "package.json"])) && TreeExists(files, "package.json") ==>
      r == Ok(packageType("package.json") == Some("module"))
    ensures r.Err? <==> !TreeExists(files, PathJoin([root, "package.json"])) && !TreeExists(files, "package.json")
  {
    var local := PathJoin([root, "package.json"]);
    if TreeExists(files, local) then Ok(packageType(local) == Some("module"))
    else if TreeExists(files, "package.json") then Ok(packageType("package.json") == Some("module"))
    else Err(ReadError("package.json"))
  }

  function BundlerName(b: Bundler): string
  {
    match b
    case Vite => "vite"
    case Webpack => "webpack"
  }

  /** The string variables of the initial configuration templates. */
  function InitialVars(o: NormalizedOptions): Record<string>
  {
    [("directory", o.directory), ("bundler", BundlerName(o.bundler)), ("baseUrl", o.baseUrl),
     ("offsetFromProjectRoot", if o.hasTsConfig then o.offsetFromProjectRoot else ""), ("ext", "")]
  }

  /** The string variables of the Cypress version templates. */
  function InjectVars(name: string, projectRoot: string, o: NormalizedOptions): Record<string>
  {
    [("directory", o.directory), ("bundler", BundlerName(o.bundler)), ("baseUrl", o.baseUrl),
     ("offsetFromProjectRoot", ClimbOut(o.directory)), ("project", name), ("dir", o.directory),
     ("ext", if o.js then "js" else "ts"), ("projectRoot", projectRoot), ("tmpl", "")]
  }

  datatype CypressFiles = V9 | V10

  /** `cypressVersion && cypressVersion < 10 ? 'v9' : 'v10'`. */
  function FilesToUse(v: Version): (f: CypressFiles)
    ensures f == V9 <==> v.NumberVersion? && 0 < v.n < 10
  {
    if v.NumberVersion? && 0 < v.n < 10 then V9 else V10
  }

  function FilesTemplate(f: CypressFiles): string
  {
    match f
    case V9 => "files/v9"
    case V10 => "files/v10"
  }

  /** The `webServerCommands` record: `default` serves the project, and
      `production` its production configuration when it has one. */
  function WebServerCommands(name: string, serve: TargetConfig): (c: Record<string>)
    ensures Get(c, "default") == Some("nx run " + name + ":serve")
    ensures HasKey(c, "production") <==> serve.configurations.Some? && "production" in serve.configurations.value
    ensures HasKey(c, "production") ==> Get(c, "production") == Some("nx run " + name + ":serve:production")
    ensures forall i :: 0 <= i < |c| ==> c[i].0 in {"default", "production"}
  {
    var d := [("default", "nx run " + name + ":serve")];
    assert Keys(d) == ["default"];
    if serve.configurations.Some? && "production" in serve.configurations.value then
      var c := d + [("production", "nx run " + name + ":serve:production")];
      assert Keys(c) == ["default", "production"];
      c
    else d
  }

  /** `nx run <name>:serve-static` when the project has that target. */
  function CiWebServerCommand(name: string, project: ProjectConfig): (c: Option<string>)
    ensures c.Some? <==> HasTarget(project, "serve-static")
    ensures c.Some? ==> c.value == "nx run " + name + ":serve-static"
  {
    if HasTarget(project, "serve-static") then Some("nx run " + name + ":serve-static") else None
  }

  /** The options handed to `addDefaultE2eConfig`. */
  function E2eOptions(name: string, serve: TargetConfig, project: ProjectConfig, o: NormalizedOptions)
    : CypressPreset.E2EPresetOptions
  {
    CypressPreset.E2EPresetOptions(if o.bundler == Vite then Some("vite") else None, Some(o.directory),
                                   Some(WebServerCommands(name, serve)), CiWebServerCommand(name, project), None)
  }

  function ConfigFile(root: string, js: bool): string
  {
    PathJoin([root, if js then "cypress.config.js" else "cypress.config.ts"])
  }

  // ---------------------------------------------------------------------
  // One project, as a function of the tree and of the version cache

  /** `createInitialCypressConfig`: the common files, then the configuration
      template for the language. */
  function CreateInitialConfig(s: TreeState, root: string, o: NormalizedOptions, templates: Templates,
                               packageType: string -> Option<string>): (Option<Failure>, TreeState)
  {
    var s1 := Generate(s, Generation(CommonTemplate, root, InitialVars(o)), templates);
    if !o.js then (None, Generate(s1, Generation(ConfigTemplate(false, false), root, InitialVars(o)), templates))
    else match IsEsmProject(s1.files, root, packageType)
      case Err(f) => (Some(f), s1)
      case Ok(esm) => (None, Generate(s1, Generation(ConfigTemplate(true, esm), root, InitialVars(o)), templates))
  }

  /** `injectConfiguration`, with the version cache's state before and
      after. */
  function Inject(s: TreeState, loaded: bool, pkg: Option<PackageJson>, project: ProjectConfig, name: string,
                  e2eRoot: string, o: NormalizedOptions, templates: Templates, required: Option<PackageJson>)
    : (Option<Failure>, TreeState, bool, Option<PackageJson>)
  {
    if !HasTarget(project, "serve") then (None, s, loaded, pkg)
    else
      var step := Step(loaded, pkg, required);
      if step.0.Err? then (Some(step.0.failure), s, step.1, step.2)
      else
        var f := FilesToUse(step.0.value);
        var s1 := Generate(s, Generation(FilesTemplate(f), e2eRoot, InjectVars(name, project.root, o)), templates);
        if f == V9 then (None, s1, step.1, step.2)
        else
          var serve := Get(project.targets.value, "serve").value;
          var w := E2eConfigWrite(ConfigFile(e2eRoot, o.js), E2eOptions(name, serve, project, o), o.baseUrl);
          (None, WriteConfig(s1, w), step.1, step.2)
  }

  /** `generateFilesForSelectedProjects`: the outcome is the new project,
      nothing when the project is skipped, or the error it throws. */
  function GenerateProject(s: TreeState, loaded: bool, pkg: Option<PackageJson>, project: ProjectConfig,
                           options: ConfigGeneratorSchema, appsDir: string, templates: Templates,
                           packageType: string -> Option<string>, required: Option<PackageJson>)
    : (Result<Option<ProjectConfig>>, TreeState, bool, Option<PackageJson>)
  {
    if !TreeExists(s.files, PathJoin([project.root, "firebase.json"])) then (Ok(None), s, loaded, pkg)
    else if project.name.None? || project.name.value == "" then (Ok(None), s, loaded, pkg)
    else
      var name := project.name.value;
      var e2e := NewProject(name, appsDir);
      if TreeExists(s.files, e2e.root) then (Err(Error(AlreadyExists(e2e.root))), s, loaded, pkg)
      else
        var s1 := AddProject(s, name + "-e2e", e2e);
        var o := NormalizeOptions(options, s1.files, e2e.root);
        var created := CreateInitialConfig(s1, e2e.root, o, templates, packageType);
        if created.0.Some? then (Err(created.0.value), created.1, loaded, pkg)
        else
          var injected := Inject(created.1, loaded, pkg, project, name, e2e.root, o, templates, required);
          (if injected.0.Some? then Err(injected.0.value) else Ok(Some(e2e)), injected.1, injected.2, injected.3)
  }

  /** Every selected project in turn (`Promise.all` over the map): each one
      runs whatever an earlier one threw, and the first error is the one
      reported. */
  function GenerateAll(s: TreeState, loaded: bool, pkg: Option<PackageJson>, configs: seq<ProjectConfig>,
                       options: ConfigGeneratorSchema, appsDir: string, templates: Templates,
                       packageType: string -> Option<string>, required: Option<PackageJson>)
    : (Option<Failure>, TreeState, bool, Option<PackageJson>)
    decreases |configs|
  {
    if |configs| == 0 then (None, s, loaded, pkg)
    else
      var first := GenerateProject(s, loaded, pkg, configs[0], options, appsDir, templates, packageType, required);
      var rest := GenerateAll(first.1, first.2, first.3, configs[1..], options, appsDir, templates, packageType, required);
      (if first.0.Err? then Some(first.0.failure) else rest.0, rest.1, rest.2, rest.3)
  }

  /** `configGenerator(tree, options)`. */
  function RunGenerator(s: TreeState, loaded: bool, pkg: Option<PackageJson>, options: ConfigGeneratorSchema,
                        graph: Projects, appsDir: string, templates: Templates,
                        packageType: string -> Option<string>, required: Option<PackageJson>)
    : (Option<Failure>, TreeState, bool, Option<PackageJson>)
  {
    match TargetProjects(options)
    case Err(f) => (Some(f), s, loaded, pkg)
    case Ok(names) =>
      match ResolveProjects(names, graph)
      case Err(f) => (Some(f), s, loaded, pkg)
      case Ok(configs) => GenerateAll(s, loaded, pkg, configs, options, appsDir, templates, packageType, required)
  }

  // ---------------------------------------------------------------------
  // The generator, on the tree and the version cache in place

  method CreateInitialCypressConfig(tree: Tree, root: string, o: NormalizedOptions, templates: Templates,
                                    packageType: string -> Option<string>)
    returns (error: Option<Failure>)
    modifies tree
    ensures (error, tree.State()) == CreateInitialConfig(old(tree.State()), root, o, templates, packageType)
  {
    tree.GenerateFiles(CommonTemplate, root, InitialVars(o), templates);
    error := None;
    if o.js {
      var esm := IsEsmProject(tree.files, root, packageType);
      if esm.Err? {
        return Some(esm.failure);
      }
      tree.GenerateFiles(ConfigTemplate(true, esm.value), root, InitialVars(o), templates);
    } else {
      tree.GenerateFiles(ConfigTemplate(false, false), root, InitialVars(o), templates);
    }
  }

  method InjectConfiguration(tree: Tree, cache: CypressVersionCache, project: ProjectConfig, name: string,
                             e2eRoot: string, o: NormalizedOptions, templates: Templates, required: Option<PackageJson>)
    returns (error: Option<Failure>)
    requires cache.Valid()
    modifies tree, cache
    ensures cache.Valid()
    ensures (error, tree.State(), cache.loaded, cache.packageJson) ==
      Inject(old(tree.State()), old(cache.loaded), old(cache.packageJson), project, name, e2eRoot, o, templates, required)
  {
    error := None;
    if !HasTarget(project, "serve") {
      return;
    }
    var version := cache.InstalledCypressVersion(required);
    if version.Err? {
      return Some(version.failure);
    }
    var f := FilesToUse(version.value);
    tree.GenerateFiles(FilesTemplate(f), e2eRoot, InjectVars(name, project.root, o), templates);
    if f == V10 {
      var serve := Get(project.targets.value, "serve").value;
      tree.WriteE2eConfig(E2eConfigWrite(ConfigFile(e2eRoot, o.js), E2eOptions(name, serve, project, o), o.baseUrl));
    }
  }

  method GenerateFilesForSelectedProject(tree: Tree, cache: CypressVersionCache, project: ProjectConfig,
                                         options: ConfigGeneratorSchema, appsDir: string, templates: Templates,
                                         packageType: string -> Option<string>, required: Option<PackageJson>)
    returns (r: Result<Option<ProjectConfig>>)
    requires cache.Valid()
    modifies tree, cache
    ensures cache.Valid()
    ensures (r, tree.State(), cache.loaded, cache.packageJson) ==
      GenerateProject(old(tree.State()), old(cache.loaded), old(cache.packageJson), project, options, appsDir,
                      templates, packageType, required)
  {
    if !tree.Exists(PathJoin([project.root, "firebase.json"])) {
      return Ok(None);
    }
    if project.name.None? || project.name.value == "" {
      return Ok(None);
    }
    var name := project.name.value;
    var e2e := NewProject(name, appsDir);
    if tree.Exists(e2e.root) {
      return Err(Error(AlreadyExists(e2e.root)));
    }
    tree.AddProjectConfiguration(name + "-e2e", e2e);
    var o := NormalizeOptions(options, tree.files, e2e.root);
    var error := CreateInitialCypressConfig(tree, e2e.root, o, templates, packageType);
    if error.Some? {
      return Err(error.value);
    }
    error := InjectConfiguration(tree, cache, project, name, e2e.root, o, templates, required);
    r := if error.Some? then Err(error.value) else Ok(Some(e2e));
  }

  /** `configGenerator(tree, options)` up to `formatFiles`. */
  method Run(tree: Tree, cache: CypressVersionCache, options: ConfigGeneratorSchema, graph: Projects, appsDir: string,
             templates: Templates, packageType: string -> Option<string>, required: Option<PackageJson>)
    returns (error: Option<Failure>)
    requires cache.Valid()
    modifies tree, cache
    ensures cache.Valid()
    ensures (error, tree.State(), cache.loaded, cache.packageJson) ==
      RunGenerator(old(tree.State()), old(cache.loaded), old(cache.packageJson), options, graph, appsDir,
                   templates, packageType, required)
  {
    var names := TargetProjects(options);
    if names.Err? {
      return Some(names.failure);
    }
    var configs := ResolveProjects(names.value, graph);
    if configs.Err? {
      return Some(configs.failure);
    }
    error := GenerateFilesForSelectedProjects(tree, cache, configs.value, options, appsDir, templates, packageType,
                                              required);
  }

  /** The `Promise.all` over the selected projects, one after the other. */
  method GenerateFilesForSelectedProjects(tree: Tree, cache: CypressVersionCache, configs: seq<ProjectConfig>,
                                          options: ConfigGeneratorSchema, appsDir: string, templates: Templates,
                                          packageType: string -> Option<string>, required: Option<PackageJson>)
    returns (error: Option<Failure>)
    requires cache.Valid()
    modifies tree, cache
    ensures cache.Valid()
    ensures (error, tree.State(), cache.loaded, cache.packageJson) ==
      GenerateAll(old(tree.State()), old(cache.loaded), old(cache.packageJson), configs, options, appsDir,
                  templates, packageType, required)
    decreases |configs|
  {
    if |configs| == 0 {
      return None;
    }
    var r := GenerateFilesForSelectedProject(tree, cache, configs[0], options, appsDir, templates, packageType,
                                             required);
    error := GenerateFilesForSelectedProjects(tree, cache, configs[1..], options, appsDir, templates, packageType,
                                              required);
    if r.Err? {
      error := Some(r.failure);
    }
  }

  // ---------------------------------------------------------------------
  // Properties

  /** An unknown name stops the generator before it touches anything. */
  lemma UnknownProjectChangesNothing(s: TreeState, loaded: bool, pkg: Option<PackageJson>, options: ConfigGeneratorSchema,
                                     graph: Projects, appsDir: string, templates: Templates,
                                     packageType: string -> Option<string>, required: Option<PackageJson>, k: nat)
    requires TargetProjects(options).Ok? && k < |TargetProjects(options).value|
    requires !HasKey(graph, TargetProjects(options).value[k])
    ensures var r := RunGenerator(s, loaded, pkg, options, graph, appsDir, templates, packageType, required);
      r.0.Some? && r.0.value.Error? && r.1 == s && r.2 == loaded && r.3 == pkg
  {
  }

  /** A project without `firebase.json`, or without a name, is skipped. */
  lemma SkippedProjects(s: TreeState, loaded: bool, pkg: Option<PackageJson>, project: ProjectConfig,
                        options: ConfigGeneratorSchema, appsDir: string, templates: Templates,
                        packageType: string -> Option<string>, required: Option<PackageJson>)
    requires !TreeExists(s.files, PathJoin([project.root, "firebase.json"])) || project.name.None? || project.name == Some("")
    ensures GenerateProject(s, loaded, pkg, project, options, appsDir, templates, packageType, required) == (Ok(None), s, loaded, pkg)
  {
  }

  /** The existing directory of the e2e project is reported, with nothing
      changed; `apps` and `test` give `apps/test-e2e`. */
  lemma ExistingDirectoryFails(s: TreeState, loaded: bool, pkg: Option<PackageJson>, project: ProjectConfig,
                               options: ConfigGeneratorSchema, templates: Templates,
                               packageType: string -> Option<string>, required: Option<PackageJson>)
    requires TreeExists(s.files, PathJoin([project.root, "firebase.json"])) && project.name == Some("test")
    requires TreeExists(s.files, "apps/test-e2e")
    ensures GenerateProject(s, loaded, pkg, project, options, "apps", templates, packageType, required) ==
      (Err(Error(AlreadyExists("apps/test-e2e"))), s, loaded, pkg)
  {
    TestProjectRoot();
    ExistingRootFails(s, loaded, pkg, project, options, "apps", templates, packageType, required);
  }

  /** Whatever the names, an existing e2e directory is reported. */
  lemma ExistingRootFails(s: TreeState, loaded: bool, pkg: Option<PackageJson>, project: ProjectConfig,
                          options: ConfigGeneratorSchema, appsDir: string, templates: Templates,
                          packageType: string -> Option<string>, required: Option<PackageJson>)
    requires TreeExists(s.files, PathJoin([project.root, "firebase.json"]))
    requires project.name.Some? && project.name.value != ""
    requires TreeExists(s.files, NewProject(project.name.value, appsDir).root)
    ensures GenerateProject(s, loaded, pkg, project, options, appsDir, templates, packageType, required) ==
      (Err(Error(AlreadyExists(NewProject(project.name.value, appsDir).root))), s, loaded, pkg)
  {
  }

  lemma TestProjectRoot()
    ensures NewProject("test", "apps").root == "apps/test-e2e"
  {
    PlainApps();
    NewProjectRoot("apps", "test");
    assert "apps" + "/" + "test" + "-e2e" == "apps/test-e2e";
  }

  lemma PlainApps()
    ensures PlainSegment("apps") && PlainSegment("test-e2e")
  {
  }

  /** A fresh directory holds no file other than the one just added to
      it: a plain name `f` other than `g` is not there. */
  lemma FreshDirectoryHasNoFile(files: set<string>, dir: string, f: string, g: string)
    requires !TreeExists(files, dir) && f != g && PlainSegment(f) && PlainSegment(g)
    ensures !TreeExists(files + {dir + "/" + g}, dir + "/" + f)
  {
    var p := dir + "/" + f;
    var q := dir + "/" + g;
    forall h | h in files + {q}
      ensures h != p && !StartsWith(h, p + "/")
    {
      BelowChild(h, dir, f);
      SiblingNotBelow(dir, f, g);
    }
  }

  /** A path at or below `dir/f` lies below `dir/`. */
  lemma BelowChild(h: string, dir: string, f: string)
    ensures (h == dir + "/" + f || StartsWith(h, dir + "/" + f + "/")) ==> StartsWith(h, dir + "/")
  {
    var p := dir + "/" + f;
    if StartsWith(h, p + "/") {
      assert h[..|dir| + 1] == (p + "/")[..|dir| + 1] == dir + "/";
    }
  }

  /** The sibling `dir/g` of `dir/f` is neither `dir/f` nor below it. */
  lemma SiblingNotBelow(dir: string, f: string, g: string)
    requires f != g && PlainSegment(g)
    ensures dir + "/" + g != dir + "/" + f
    ensures !StartsWith(dir + "/" + g, dir + "/" + f + "/")
  {
    var p := dir + "/" + f;
    var q := dir + "/" + g;
    assert q[|dir| + 1..] == g && p[|dir| + 1..] == f;
    if |p| + 1 <= |q| {
      assert q[|p|] == g[|f|];
      assert (p + "/")[|p|] == '/';
    }
  }

  /** The new project never has a `tsconfig.json` when its options are
      normalised: its directory did not exist and only `project.json` was
      added to it. So the initial templates always receive an empty
      `offsetFromProjectRoot`. */
  lemma NewProjectHasNoTsConfig(s: TreeState, name: string, appsDir: string, options: ConfigGeneratorSchema)
    requires PlainSegment(appsDir) && PlainSegment(name + "-e2e")
    requires !TreeExists(s.files, NewProject(name, appsDir).root)
    ensures var e2e := NewProject(name, appsDir);
      var o := NormalizeOptions(options, AddProject(s, name + "-e2e", e2e).files, e2e.root);
      !o.hasTsConfig && Get(InitialVars(o), "offsetFromProjectRoot") == Some("")
  {
    var e2e := NewProject(name, appsDir);
    var s1 := AddProject(s, name + "-e2e", e2e);
    NoTsConfigAfterAdd(s, name, appsDir);
    var o := NormalizeOptions(options, s1.files, e2e.root);
    OffsetVar(o);
  }

  /** The initial templates get the offset only when the project has a
      `tsconfig.json`. */
  lemma OffsetVar(o: NormalizedOptions)
    ensures Get(InitialVars(o), "offsetFromProjectRoot") == Some(if o.hasTsConfig then o.offsetFromProjectRoot else "")
  {
    assert InitialVars(o)[3].0 == "offsetFromProjectRoot";
  }

  lemma NoTsConfigAfterAdd(s: TreeState, name: string, appsDir: string)
    requires PlainSegment(appsDir) && PlainSegment(name + "-e2e")
    requires !TreeExists(s.files, NewProject(name, appsDir).root)
    ensures var e2e := NewProject(name, appsDir);
      !TreeExists(AddProject(s, name + "-e2e", e2e).files, PathJoin([e2e.root, "tsconfig.json"]))
  {
    var root := NewProject(name, appsDir).root;
    JsonNamesPlain();
    PathJoinRooted(appsDir, name + "-e2e", "tsconfig.json");
    PathJoinRooted(appsDir, name + "-e2e", "project.json");
    FreshDirectoryHasNoFile(s.files, root, "tsconfig.json", "project.json");
  }

  lemma JsonNamesPlain()
    ensures PlainSegment("tsconfig.json") && PlainSegment("project.json") && "tsconfig.json" != "project.json"
  {
  }

  lemma PathJoinRooted(a: string, b: string, c: string)
    requires PlainSegment(a) && PlainSegment(b) && PlainSegment(c)
    ensures PathJoin([PathJoin([a, b]), c]) == PathJoin([a, b]) + "/" + c
  {
    PathJoinPlain([a, b]);
    var segs := [a, b, c];
    NormalizePlainSegments(segs, true);
    assert Join([a + "/" + b, c], "/") == Join(segs, "/");
    PathJoinSegments([a + "/" + b, c], segs);
  }

  /** Without a `serve` target neither the Cypress version files nor the
      Cypress configuration are written, and the version is not looked up. */
  lemma NoServeTargetNoCypressFiles(s: TreeState, loaded: bool, pkg: Option<PackageJson>, project: ProjectConfig,
                                    name: string, e2eRoot: string, o: NormalizedOptions, templates: Templates,
                                    required: Option<PackageJson>)
    requires !HasTarget(project, "serve")
    ensures Inject(s, loaded, pkg, project, name, e2eRoot, o, templates, required) == (None, s, loaded, pkg)
  {
  }

  /** The default command the generator writes into the preset options is
      the one the preset records as `webServerCommand`, and the Cypress
      target generator reads back the source project from it. */
  lemma DefaultCommandNamesProject(name: string, serve: TargetConfig, project: ProjectConfig, o: NormalizedOptions)
    requires ' ' !in name && ':' !in name
    ensures var preset := CypressPreset.PluginOptionsOf(Some(E2eOptions(name, serve, project, o)));
      preset.webServerCommand == Some("nx run " + name + ":serve") &&
      CypressTargets.GetProjectFromCommand(preset.webServerCommand.value) == name
  {
    CypressTargets.ProjectOfRunCommand("nx run", name, "serve");
    assert "nx run" + " " + name + ":" + "serve" == "nx run " + name + ":serve";
  }

  /** With Cypress 9 installed, the first project of a run gets the `v9`
      files, but the version cache answers `undefined` to the second call
      and the second project gets the `v10` files. */
  lemma SecondProjectGetsV10()
    ensures var pkg := Some(PackageJson(Some("9.7.0")));
      var first := Step(false, None, pkg);
      var second := Step(first.1, first.2, pkg);
      first.0 == Ok(NumberVersion(9)) && FilesToUse(first.0.value) == V9 &&
      second.0 == Ok(UndefinedVersion) && FilesToUse(second.0.value) == V10
  {
    assert Split("9.7.0", '.')[0] == "9" by {
      SplitFirstPiece("9.7.0", '.');
      assert "9.7.0"[..1] == "9";
    }
    assert AllDigits("9") && DigitsValue("9") == 9;
  }

  /** With the corrected cache, every project of the run gets the `v9`
      files. */
  lemma IntendedCacheKeepsV9()
    ensures var pkg := Some(PackageJson(Some("9.7.0")));
      var first := StepIntended(false, None, pkg);
      var second := StepIntended(first.1, first.2, pkg);
      FilesToUse(first.0.value) == V9 && first.0 == second.0
  {
    assert Split("9.7.0", '.')[0] == "9" by {
      SplitFirstPiece("9.7.0", '.');
      assert "9.7.0"[..1] == "9";
    }
    assert AllDigits("9") && DigitsValue("9") == 9;
  }
}
