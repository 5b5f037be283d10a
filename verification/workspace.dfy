/** The Nx workspace as the plugins see it: project configurations keyed by
    project name (the project graph's `projects` record), and a generator
    `Tree` reduced to the set of file paths it holds. */
module Workspace {
  import opened Wrappers
  import opened Text
  import opened Records
  import opened Paths

  /** A target of a project configuration; only the names of its
      configurations are consulted. */
  datatype TargetConfig = TargetConfig(configurations: Option<seq<string>>)

  /** The fields of an Nx `ProjectConfiguration` the plugins read. */
  datatype ProjectConfig = ProjectConfig(
    name: Option<string>,
    root: string,
    projectType: Option<string>,
    sourceRoot: Option<string>,
    implicitDependencies: Option<seq<string>>,
    targets: Option<Record<TargetConfig>>)

  type Projects = Record<ProjectConfig>

  /** `project.targets?.[name]` is truthy: the target exists (a target
      configuration is an object, hence truthy). */
  predicate HasTarget(p: ProjectConfig, name: string)
  {
    p.targets.Some? && HasKey(p.targets.value, name)
  }

  /** A directory or file exists in a tree of files when it is one of them or
      when a file lies below it. */
  predicate TreeExists(files: set<string>, path: string)
  {
    path in files || exists f :: f in files && StartsWith(f, path + "/")
  }

  /** `readdirSync(dir)`: the names a directory lists, read from the disk. */
  type Listing = string -> seq<string>

  /** `readdirSync(join(root, projectRoot)).includes('firebase.json')`. */
  predicate FirebaseJsonListed(listing: Listing, root: string, projectRoot: string)
  {
    "firebase.json" in listing(PathJoin([root, projectRoot]))
  }
}
