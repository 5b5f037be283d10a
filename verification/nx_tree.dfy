/** The Nx generator `Tree` the workspace generator and the migration change
    in place: the paths it holds, the project configurations added to it,
    the `generateFiles` calls made on it and the Cypress configurations
    rewritten in it. What a template directory writes is a parameter: the
    templates themselves are not part of this model. */
module NxTree {
  import opened Wrappers
  import opened Records
  import opened Paths
  import opened Workspace
  import CypressPreset

  /** One `generateFiles(tree, template, destination, vars)` call, with the
      string-valued template variables. */
  datatype Generation = Generation(template: string, destination: string, vars: Record<string>)

  /** `tree.write(path, await addDefaultE2eConfig(content, options, baseUrl))`:
      the configuration file rewritten with these preset options and base
      URL. */
  datatype E2eConfigWrite = E2eConfigWrite(path: string, options: CypressPreset.E2EPresetOptions, baseUrl: string)

  /** The paths `generateFiles` writes for a template directory and a
      destination. */
  type Templates = (string, string) -> set<string>

  /** A snapshot of the tree. */
  datatype TreeState = TreeState(
    files: set<string>,
    projects: Record<ProjectConfig>,
    generated: seq<Generation>,
    configWrites: seq<E2eConfigWrite>)

  /** The tree after `generateFiles`. */
  function Generate(s: TreeState, g: Generation, templates: Templates): (s': TreeState)
    ensures s'.files == s.files + templates(g.template, g.destination)
    ensures s'.generated == s.generated + [g]
    ensures s'.projects == s.projects && s'.configWrites == s.configWrites
  {
    s.(files := s.files + templates(g.template, g.destination), generated := s.generated + [g])
  }

  /** The tree after `addProjectConfiguration(tree, name, config)`, which
      writes the configuration to `<root>/project.json`. */
  function AddProject(s: TreeState, name: string, config: ProjectConfig): (s': TreeState)
    ensures s'.files == s.files + {PathJoin([config.root, "project.json"])}
    ensures Get(s'.projects, name) == Some(config)
    ensures forall k :: k != name ==> Get(s'.projects, k) == Get(s.projects, k)
    ensures s'.generated == s.generated && s'.configWrites == s.configWrites
  {
    PutAll(s.projects, name, config);
    s.(files := s.files + {PathJoin([config.root, "project.json"])}, projects := Put(s.projects, name, config))
  }

  lemma PutAll(r: Record<ProjectConfig>, name: string, config: ProjectConfig)
    ensures Get(Put(r, name, config), name) == Some(config)
    ensures forall k :: k != name ==> Get(Put(r, name, config), k) == Get(r, k)
  {
    PutGet(r, name, config, name);
    forall k | k != name
      ensures Get(Put(r, name, config), k) == Get(r, k)
    {
      PutGet(r, name, config, k);
    }
  }

  /** The tree after a Cypress configuration is rewritten. */
  function WriteConfig(s: TreeState, w: E2eConfigWrite): (s': TreeState)
    ensures s'.files == s.files + {w.path}
    ensures s'.configWrites == s.configWrites + [w]
    ensures s'.projects == s.projects && s'.generated == s.generated
  {
    s.(files := s.files + {w.path}, configWrites := s.configWrites + [w])
  }

  class Tree {
    var files: set<string>
    var projects: Record<ProjectConfig>
    var generated: seq<Generation>
    var configWrites: seq<E2eConfigWrite>

    function State(): TreeState
      reads this
    {
      TreeState(files, projects, generated, configWrites)
    }

    constructor(files: set<string>, projects: Record<ProjectConfig>)
      ensures State() == TreeState(files, projects, [], [])
    {
      this.files := files;
      this.projects := projects;
      generated := [];
      configWrites := [];
    }

    /** `tree.exists(path)`. */
    predicate Exists(path: string)
      reads this
    {
      TreeExists(files, path)
    }

    method GenerateFiles(template: string, destination: string, vars: Record<string>, templates: Templates)
      modifies this
      ensures State() == Generate(old(State()), Generation(template, destination, vars), templates)
    {
      files := files + templates(template, destination);
      generated := generated + [Generation(template, destination, vars)];
    }

    method AddProjectConfiguration(name: string, config: ProjectConfig)
      modifies this
      ensures State() == AddProject(old(State()), name, config)
    {
      files := files + {PathJoin([config.root, "project.json"])};
      projects := Put(projects, name, config);
    }

    method WriteE2eConfig(w: E2eConfigWrite)
      modifies this
      ensures State() == WriteConfig(old(State()), w)
    {
      files := files + {w.path};
      configWrites := configWrites + [w];
    }
  }
}
