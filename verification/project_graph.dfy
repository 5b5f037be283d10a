/** The e2e project's lookups of the project graph: the application an e2e
    project depends on, and whether that application holds a
    `firebase.json`. */
module ProjectGraph {
  import opened Wrappers
  import opened Records
  import opened Workspace
  import opened Paths

  /** `projects[projectName]?.implicitDependencies?.[0]`. */
  function FirstDependency(projects: Projects, projectName: string): Option<string>
  {
    match Get(projects, projectName)
    case None => None
    case Some(p) =>
      if p.implicitDependencies.Some? && |p.implicitDependencies.value| > 0
      then Some(p.implicitDependencies.value[0]) else None
  }

  /** `getE2EProjectDependency(context)`: the configuration of the project
      named by the first implicit dependency; nothing when the project, its
      dependencies or that name is missing or empty. */
  function GetE2EProjectDependency(projects: Projects, projectName: string): (r: Option<ProjectConfig>)
    ensures FirstDependency(projects, projectName).None? || FirstDependency(projects, projectName) == Some("") ==> r.None?
    ensures r.Some? ==> (FirstDependency(projects, projectName).value, r.value) in projects
    ensures FirstDependency(projects, projectName).Some? && FirstDependency(projects, projectName).value != "" ==>
      (r.None? <==> !HasKey(projects, FirstDependency(projects, projectName).value))
  {
    var name := FirstDependency(projects, projectName);
    if name.None? || name.value == "" then None
    else Get(projects, name.value)
  }

  /** Only the first implicit dependency matters: two e2e projects whose
      first dependencies agree get the same project, whatever follows. */
  lemma DependencyIgnoresLaterNames(projects: Projects, a: string, b: string)
    requires HasKey(projects, a) && HasKey(projects, b)
    requires Get(projects, a).value.implicitDependencies.Some? && Get(projects, b).value.implicitDependencies.Some?
    requires |Get(projects, a).value.implicitDependencies.value| > 0
    requires |Get(projects, b).value.implicitDependencies.value| > 0
    requires Get(projects, a).value.implicitDependencies.value[0] == Get(projects, b).value.implicitDependencies.value[0]
    ensures GetE2EProjectDependency(projects, a) == GetE2EProjectDependency(projects, b)
  {
  }

  /** `validateFirebaseProject(project, context)`: the project's directory
      lists `firebase.json`. */
  function ValidateFirebaseProject(project: ProjectConfig, root: string, listing: Listing): (r: bool)
    ensures r <==> "firebase.json" in listing(PathJoin([root, project.root]))
  {
    FirebaseJsonListed(listing, root, project.root)
  }
}
