/** The `deploy` executor of the firebase package: the `firebase deploy`
    command line and how the exit code decides success. */
module DeployExecutor {
  import opened Wrappers
  import opened Text

  datatype DeployExecutorSchema = DeployExecutorSchema(cwd: string, only: Option<seq<string>>)

  const DeployBase := "npx firebase deploy"

  /** `createCommand(options)`: a present `only` list, even an empty one,
      appends `' --only '` and the names joined by ','. */
  function CreateCommand(options: DeployExecutorSchema): (r: string)
    ensures options.only.None? ==> r == DeployBase
    ensures options.only.Some? ==> r == DeployBase + " --only " + Join(options.only.value, ",")
  {
    var command := DeployBase;
    if options.only.Some? then command + " --only " + Join(options.only.value, ",") else command
  }

  /** The deployed targets read back from the command when none of them holds
      a comma; an empty list leaves a bare trailing space. */
  lemma DeployOnlyRoundTrip(options: DeployExecutorSchema)
    requires options.only.Some?
    requires forall i :: 0 <= i < |options.only.value| ==> ',' !in options.only.value[i]
    ensures var r := CreateCommand(options);
      r[..|DeployBase| + 8] == DeployBase + " --only " &&
      (|options.only.value| > 0 ==> Split(r[|DeployBase| + 8..], ',') == options.only.value) &&
      (|options.only.value| == 0 ==> r == DeployBase + " --only ")
  {
    var r := CreateCommand(options);
    assert r == (DeployBase + " --only ") + Join(options.only.value, ",");
    if |options.only.value| > 0 {
      SplitJoin(options.only.value, ',');
    }
  }

  /** `runExecutor`: the command is spawned in `cwd` and the executor waits
      for its exit; success is whether the exit code is 0. */
  method RunExecutor(options: DeployExecutorSchema, exitCode: int) returns (success: bool, command: string, cwd: string)
    ensures success <==> exitCode == 0
    ensures command == CreateCommand(options) && cwd == options.cwd
  {
    command := CreateCommand(options);
    cwd := options.cwd;
    success := exitCode == 0;
  }
}
