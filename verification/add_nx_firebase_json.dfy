/** The `add-nx-firebase-json` migration of the firebase package: every
    application that has a `firebase.json` but no `nx-firebase.json` gets the
    migration's `files` template generated into its root, with the project's
    name and its serve target. The projects come from the project graph and
    are a parameter; so is what the template writes. */
module AddNxFirebaseJson {
  import opened Wrappers
  import opened Text
  import opened Records
  import opened Paths
  import opened Workspace
  import opened NxTree
  import FirebaseTargets

  const FilesTemplate := "files"

  /** `Object.keys(undefined)` throws this. */
  const ConvertUndefined := "Cannot convert undefined or null to object"

  function FirebaseJsonPath(c: ProjectConfig): string
  {
    PathJoin([c.root, "firebase.json"])
  }

  function NxFirebaseJsonPath(c: ProjectConfig): string
  {
    PathJoin([c.root, "nx-firebase.json"])
  }

  predicate IsApplication(c: ProjectConfig)
  {
    c.projectType == Some("application")
  }

  /** The project needs nothing: it is no application, has no
      `firebase.json`, or already has its `nx-firebase.json`. */
  predicate ProjectMigrated(files: set<string>, c: ProjectConfig)
  {
    !IsApplication(c) || !TreeExists(files, FirebaseJsonPath(c)) || TreeExists(files, NxFirebaseJsonPath(c))
  }

  predicate AllMigrated(files: set<string>, projects: Projects)
  {
    forall i :: 0 <= i < |projects| ==> ProjectMigrated(files, projects[i].1)
  }

  /** `allProjectsMigrated(projects, tree)`: the entries in order, returning
      `false` at the first application with `firebase.json` and without
      `nx-firebase.json`. */
  method AllProjectsMigrated(projects: Projects, tree: Tree) returns (b: bool)
    ensures b <==> AllMigrated(tree.files, projects)
    ensures !b ==> exists i :: 0 <= i < |projects| && !ProjectMigrated(tree.files, projects[i].1)
  {
    for i := 0 to |projects|
      invariant forall j :: 0 <= j < i ==> ProjectMigrated(tree.files, projects[j].1)
    {
      var configuration := projects[i].1;
      if configuration.projectType != Some("application") {
        continue;
      }
      var hasFirebaseJson := tree.Exists(PathJoin([configuration.root, "firebase.json"]));
      if hasFirebaseJson {
        var hasNxFirebaseJson := tree.Exists(PathJoin([configuration.root, "nx-firebase.json"]));
        if !hasNxFirebaseJson {
          return false;
        }
      }
    }
    return true;
  }

  /** The serve target handed to the template: `serve` when the project has
      it, else the first target whose lower-case name contains `serve`, and
      a `TypeError` when the project has no targets at all. */
  function ServeTargetOf(c: ProjectConfig): (r: Result<Option<string>>)
    ensures r == Ok(Some("serve")) <==> HasTarget(c, "serve")
    ensures r.Err? <==> c.targets.None?
    ensures r.Err? ==> r.failure == TypeError(ConvertUndefined)
    ensures r == Ok(None) <==>
      (c.targets.Some? && !HasKey(c.targets.value, "serve") &&
       forall i :: 0 <= i < |c.targets.value| ==> !Contains(ToLower(c.targets.value[i].0), "serve"))
    ensures r.Ok? && r.value.Some? && r.value.value != "serve" ==>
      HasKey(c.targets.value, r.value.value) && Contains(ToLower(r.value.value), "serve")
  {
    if HasTarget(c, "serve") then Ok(Some("serve"))
    else if c.targets.None? then Err(TypeError(ConvertUndefined))
    else
      var key := FirebaseTargets.FirstServeKey(Keys(c.targets.value));
      assert key != Some("serve");
      Ok(key)
  }

  /** The template variables of one project. */
  function MigrationVars(name: string, target: string): Record<string>
  {
    [("project", name), ("target", target)]
  }

  /** One entry of the `forEach`. */
  function ConfigureOne(s: TreeState, name: string, c: ProjectConfig, templates: Templates): (r: (Option<Failure>, TreeState))
    ensures ProjectMigrated(s.files, c) ==> r == (None, s)
    ensures r.0.Some? ==> r.1 == s
  {
    if !IsApplication(c) then (None, s)
    else if !TreeExists(s.files, FirebaseJsonPath(c)) || TreeExists(s.files, NxFirebaseJsonPath(c)) then (None, s)
    else
      match ServeTargetOf(c)
      case Err(f) => (Some(f), s)
      case Ok(None) => (None, s)
      case Ok(Some(target)) => (None, Generate(s, Generation(FilesTemplate, c.root, MigrationVars(name, target)), templates))
  }

  /** `configureProjects(projects, host)`: the applications in order; a
      throw stops the `forEach`, keeping what earlier entries wrote. */
  function Configure(s: TreeState, projects: Projects, templates: Templates): (Option<Failure>, TreeState)
    decreases |projects|
  {
    if |projects| == 0 then (None, s)
    else
      var first := ConfigureOne(s, projects[0].0, projects[0].1, templates);
      if first.0.Some? then first
      else Configure(first.1, projects[1..], templates)
  }

  /** `update(host)`. */
  function UpdateOf(s: TreeState, projects: Projects, templates: Templates): (Option<Failure>, TreeState)
  {
    if AllMigrated(s.files, projects) then (None, s) else Configure(s, projects, templates)
  }

  /** `configureProjects`, in place on the tree. */
  method ConfigureProjects(projects: Projects, host: Tree, templates: Templates) returns (err: Option<Failure>)
    modifies host
    ensures (err, host.State()) == Configure(old(host.State()), projects, templates)
  {
    var i := 0;
    while i < |projects|
      invariant 0 <= i <= |projects|
      invariant Configure(old(host.State()), projects, templates) == Configure(host.State(), projects[i..], templates)
    {
      assert projects[i..][1..] == projects[i + 1..];
      var name := projects[i].0;
      var configuration := projects[i].1;
      if configuration.projectType != Some("application") {
        i := i + 1;
        continue;
      }
      var firebasePath := PathJoin([configuration.root, "firebase.json"]);
      var nxFirebasePath := PathJoin([configuration.root, "nx-firebase.json"]);
      var hasFirebase := host.Exists(firebasePath);
      var hasNxFirebase := host.Exists(nxFirebasePath);
      if !hasFirebase || hasNxFirebase {
        i := i + 1;
        continue;
      }
      var target: Option<string> := if HasTarget(configuration, "serve") then Some("serve") else None;
      if target.None? {
        if configuration.targets.None? {
          return Some(TypeError(ConvertUndefined));
        }
        target := FirebaseTargets.FirstServeKey(Keys(configuration.targets.value));
      }
      if target.Some? {
        host.GenerateFiles(FilesTemplate, configuration.root, MigrationVars(name, target.value), templates);
      }
      i := i + 1;
    }
    assert projects[i..] == [];
    return None;
  }

  /** `update(host)`, in place; the project graph is given. */
  method Update(host: Tree, projects: Projects, templates: Templates) returns (err: Option<Failure>)
    modifies host
    ensures (err, host.State()) == UpdateOf(old(host.State()), projects, templates)
  {
    var migrated := AllProjectsMigrated(projects, host);
    if migrated {
      return None;
    }
    err := ConfigureProjects(projects, host, templates);
  }

  /** The early return of `update` is only a shortcut: when every project is
      migrated, `configureProjects` would change nothing either. */
  lemma {:induction false} MigratedConfigureNothing(s: TreeState, projects: Projects, templates: Templates)
    requires AllMigrated(s.files, projects)
    ensures Configure(s, projects, templates) == (None, s)
    decreases |projects|
  {
    if |projects| > 0 {
      assert ProjectMigrated(s.files, projects[0].1);
      MigratedConfigureNothing(s, projects[1..], templates);
    }
  }

  lemma UpdateIsConfigure(s: TreeState, projects: Projects, templates: Templates)
    ensures UpdateOf(s, projects, templates) == Configure(s, projects, templates)
  {
    if AllMigrated(s.files, projects) {
      MigratedConfigureNothing(s, projects, templates);
    }
  }

  /** A path that exists stays when files are only added. */
  lemma ExistsGrows(files: set<string>, files': set<string>, path: string)
    requires files <= files' && TreeExists(files, path)
    ensures TreeExists(files', path)
  {
    if path !in files {
      var f :| f in files && StartsWith(f, path + "/");
      assert f in files';
    }
  }

  /** The migration only adds files and template calls: the project
      configurations and the Cypress configurations are untouched, and the
      earlier template calls stay in place. */
  lemma {:induction false} ConfigureOnlyAdds(s: TreeState, projects: Projects, templates: Templates)
    ensures var r := Configure(s, projects, templates).1;
      s.files <= r.files && r.projects == s.projects && r.configWrites == s.configWrites &&
      |s.generated| <= |r.generated| && r.generated[..|s.generated|] == s.generated
    decreases |projects|
  {
    if |projects| > 0 {
      var first := ConfigureOne(s, projects[0].0, projects[0].1, templates);
      if first.0.None? {
        ConfigureOnlyAdds(first.1, projects[1..], templates);
        var r := Configure(first.1, projects[1..], templates).1;
        assert r.generated[..|s.generated|] == r.generated[..|first.1.generated|][..|s.generated|];
      }
    }
  }

  /** A template call of the migration: the `files` template into an
      application's root, with that project's name and a target whose name
      mentions `serve`. */
  ghost predicate MigrationCall(projects: Projects, g: Generation)
  {
    g.template == FilesTemplate &&
    exists i, t :: 0 <= i < |projects| && IsApplication(projects[i].1) &&
      g.destination == projects[i].1.root && g.vars == MigrationVars(projects[i].0, t) &&
      Contains(ToLower(t), "serve")
  }

  /** Every template call the migration makes is one of `MigrationCall`. */
  lemma {:induction false} GenerationsTargetServe(s: TreeState, projects: Projects, templates: Templates)
    ensures var r := Configure(s, projects, templates).1;
      forall k :: |s.generated| <= k < |r.generated| ==> MigrationCall(projects, r.generated[k])
    decreases |projects|
  {
    if |projects| > 0 {
      var first := ConfigureOne(s, projects[0].0, projects[0].1, templates);
      if first.0.None? {
        GenerationsTargetServe(first.1, projects[1..], templates);
        ConfigureOnlyAdds(first.1, projects[1..], templates);
        var r := Configure(first.1, projects[1..], templates).1;
        forall k | |s.generated| <= k < |r.generated|
          ensures MigrationCall(projects, r.generated[k])
        {
          if k < |first.1.generated| {
            FirstGeneration(s, projects[0].0, projects[0].1, templates);
            var t :| first.1.generated == s.generated + [Generation(FilesTemplate, projects[0].1.root, MigrationVars(projects[0].0, t))]
              && Contains(ToLower(t), "serve");
            assert r.generated[k] == first.1.generated[k];
            assert k == |s.generated|;
            assert r.generated[k] == Generation(FilesTemplate, projects[0].1.root, MigrationVars(projects[0].0, t));
            assert IsApplication(projects[0].1);
          } else {
            assert MigrationCall(projects[1..], r.generated[k]);
            var i, t :| 0 <= i < |projects[1..]| && IsApplication(projects[1..][i].1) &&
              r.generated[k].destination == projects[1..][i].1.root &&
              r.generated[k].vars == MigrationVars(projects[1..][i].0, t) && Contains(ToLower(t), "serve");
            assert projects[1..][i] == projects[i + 1];
          }
        }
      }
    }
  }

  /** One entry adds at most the one template call of its application. */
  lemma FirstGeneration(s: TreeState, name: string, c: ProjectConfig, templates: Templates)
    ensures var r := ConfigureOne(s, name, c, templates).1;
      (r.generated == s.generated) ||
      (IsApplication(c) &&
       exists t :: r.generated == s.generated + [Generation(FilesTemplate, c.root, MigrationVars(name, t))] &&
         Contains(ToLower(t), "serve"))
  {
    var r := ConfigureOne(s, name, c, templates).1;
    if r.generated != s.generated {
      var t := ServeTargetOf(c).value.value;
      if t == "serve" {
        ServeMentionsServe();
      }
      assert r.generated == s.generated + [Generation(FilesTemplate, c.root, MigrationVars(name, t))];
    }
  }

  lemma ServeMentionsServe()
    ensures Contains(ToLower("serve"), "serve")
  {
    assert ToLower("serve") == "serve";
  }

  /** When the template writes `nx-firebase.json` into its destination, a
      migration that does not throw leaves every application that had a
      `firebase.json` with an `nx-firebase.json`, unless none of its targets
      mentions `serve`. */
  lemma {:induction false} ConfigureWritesNxFirebase(s: TreeState, projects: Projects, templates: Templates)
    requires forall d :: PathJoin([d, "nx-firebase.json"]) in templates(FilesTemplate, d)
    ensures var r := Configure(s, projects, templates);
      r.0.None? ==>
        forall i ::
          (0 <= i < |projects| && IsApplication(projects[i].1) &&
           TreeExists(s.files, FirebaseJsonPath(projects[i].1)) && ServeTargetOf(projects[i].1) != Ok(None)) ==>
          TreeExists(r.1.files, NxFirebaseJsonPath(projects[i].1))
    decreases |projects|
  {
    var r := Configure(s, projects, templates);
    if |projects| > 0 && r.0.None? {
      var c := projects[0].1;
      var first := ConfigureOne(s, projects[0].0, c, templates);
      ConfigureWritesNxFirebase(first.1, projects[1..], templates);
      ConfigureOnlyAdds(first.1, projects[1..], templates);
      assert s.files <= first.1.files;
      forall i | 0 <= i < |projects| && IsApplication(projects[i].1) &&
          TreeExists(s.files, FirebaseJsonPath(projects[i].1)) && ServeTargetOf(projects[i].1) != Ok(None)
        ensures TreeExists(r.1.files, NxFirebaseJsonPath(projects[i].1))
      {
        if i == 0 {
          if TreeExists(s.files, NxFirebaseJsonPath(c)) {
            ExistsGrows(s.files, first.1.files, NxFirebaseJsonPath(c));
          } else {
            assert NxFirebaseJsonPath(c) in first.1.files;
          }
          ExistsGrows(first.1.files, r.1.files, NxFirebaseJsonPath(c));
        } else {
          assert projects[1..][i - 1] == projects[i];
          ExistsGrows(s.files, first.1.files, FirebaseJsonPath(projects[i].1));
        }
      }
    }
  }
}
