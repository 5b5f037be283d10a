/** The nx-firebase plugin's inferred targets: for each `firebase.json` with
    emulators next to a project file, one target running the emulators
    executor, memoised per hash. */
module NxFirebaseTargets {
  import opened Wrappers
  import opened Records
  import opened Emulators
  import opened Workspace
  import Paths
  import FirebaseTargets

  /** `normalizeOptions(options)`: `firebaseEmulatorsTargetName ??=
      'firebase-emulators'`. */
  function NormalizeOptions(firebaseEmulatorsTargetName: Option<string>): (name: string)
    ensures firebaseEmulatorsTargetName.Some? ==> name == firebaseEmulatorsTargetName.value
    ensures firebaseEmulatorsTargetName.None? ==> name == "firebase-emulators"
  {
    firebaseEmulatorsTargetName.GetOr("firebase-emulators")
  }

  /** The emulators target. */
  datatype EmulatorsTarget = EmulatorsTarget(executor: string, parallelism: bool, cwd: string, helpCommand: string)

  type PluginTargets = Option<Record<EmulatorsTarget>>

  const EmulatorsExecutor := "@nxextensions/nx-firebase:emulators"

  /** `buildFirebaseTargets(...)`: nothing without emulators (the `?? true`
      after a negation never applies), else exactly one target. */
  function BuildFirebaseTargets(projectRoot: string, targetName: string, config: FirebaseJson, pmcExec: string): (r: PluginTargets)
    ensures config.emulators.None? <==> r.None?
    ensures r.Some? ==> Keys(r.value) == [targetName]
    ensures r.Some? ==> var t := r.value[0].1;
      t.executor == EmulatorsExecutor && t.parallelism && t.cwd == projectRoot &&
      t.helpCommand == pmcExec + " firebase emulators:start --help"
  {
    if config.emulators.None? then None
    else Some([(targetName, EmulatorsTarget(EmulatorsExecutor, true, projectRoot, pmcExec + " firebase emulators:start --help"))])
  }

  /** The hash-keyed targets of one `createNodesV2` pass. */
  class TargetsCache {
    var entries: map<string, PluginTargets>

    constructor(initial: map<string, PluginTargets>)
      ensures entries == initial
    {
      entries := initial;
    }

    /** `createNodesInternal(...)` with the hash given: without a project file
        nothing is returned; otherwise `??=` builds the targets only when the
        hash has no entry, and the project gets the cached targets. */
    method CreateNodesInternal(configFile: string, targetName: Option<string>, root: string, listing: Listing,
                               hash: string, config: FirebaseJson, pmcExec: string)
      returns (r: Option<Node>)
      modifies this
      ensures var projectRoot := Paths.DirName(configFile);
        !FirebaseTargets.HasProjectFile(listing, root, projectRoot) ==> r.None? && entries == old(entries)
      ensures var projectRoot := Paths.DirName(configFile);
        FirebaseTargets.HasProjectFile(listing, root, projectRoot) ==>
          && (hash in old(entries) ==> entries == old(entries))
          && (hash !in old(entries) ==> entries == old(entries)[hash := BuildFirebaseTargets(projectRoot, NormalizeOptions(targetName), config, pmcExec)])
          && r == Some(Node(projectRoot, "application", entries[hash]))
    {
      var name := NormalizeOptions(targetName);
      var projectRoot := Paths.DirName(configFile);
      if !FirebaseTargets.HasProjectFile(listing, root, projectRoot) {
        return None;
      }
      if hash !in entries {
        entries := entries[hash := BuildFirebaseTargets(projectRoot, name, config, pmcExec)];
      }
      r := Some(Node(projectRoot, "application", entries[hash]));
    }
  }

  /** The project written by `createNodesInternal`. */
  datatype Node = Node(root: string, projectType: string, targets: PluginTargets)
}
