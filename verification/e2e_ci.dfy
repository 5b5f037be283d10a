/** The `e2e-ci` executor of the Cypress plugin: it runs the emulator-backed
    loop when the application under test has emulators, the dev-server loop
    otherwise, and returns the last value either loop yields. A loop that
    throws makes it reject, and one that waits for ever makes it wait too. */
module E2eCi {
  import opened Wrappers
  import opened Records
  import opened Emulators
  import opened Workspace
  import opened TargetString
  import CypressFirebase
  import DevServer
  import opened RunCypress

  /** The options of the executor this model reads. */
  datatype E2eCiOptions = E2eCiOptions(
    watch: bool,
    emulatorCommand: Option<string>,
    webServerCommand: Option<string>,
    devServerTarget: Option<string>)

  /** `targetStringToTarget(undefined)` fails on its first `includes`. */
  const ReadIncludes := "Cannot read properties of undefined (reading 'includes')"

  /** Parsing a command that may be `undefined`. */
  function ParseCommand(command: Option<string>): (r: Result<Target>)
    ensures command.None? ==> r == Err(TypeError(ReadIncludes))
    ensures command.Some? ==> r == Parse(command.value)
  {
    match command
    case None => Err(TypeError(ReadIncludes))
    case Some(s) => Parse(s)
  }

  /** The value a loop that overwrites `result` on every yield ends with:
      `undefined` when nothing was yielded. */
  function Last(results: seq<bool>): (r: Option<bool>)
    ensures r.None? <==> |results| == 0
    ensures r.Some? ==> r.value == results[|results| - 1]
  {
    if |results| == 0 then None else Some(results[|results| - 1])
  }

  /** `for await (const res of …) { result = res; }`. */
  method LastYield(results: seq<bool>) returns (result: Option<bool>)
    ensures result == Last(results)
  {
    result := None;
    var i := 0;
    while i < |results|
      invariant i <= |results|
      invariant result == Last(results[..i])
    {
      result := Some(results[i]);
      i := i + 1;
    }
    assert results[..i] == results;
  }

  /** The command the dev-server branch runs: `webServerCommand ??
      devServerTarget`. */
  function DevServerCommand(options: E2eCiOptions): (c: Option<string>)
    ensures options.webServerCommand.Some? ==> c == options.webServerCommand
    ensures options.webServerCommand.None? ==> c == options.devServerTarget
  {
    if options.webServerCommand.Some? then options.webServerCommand else options.devServerTarget
  }

  /** How the executor's promise ends once the chosen loop has run: the last
      value yielded (`undefined` when none) if it returns, its rejection if
      it throws, and never if it waits for ever. */
  function Finish(g: GeneratorRun): (r: Settlement<Result<Option<bool>>>)
    ensures g.end.Returned? <==> r.Settled? && r.value.Ok?
    ensures g.end.Returned? ==> r == Settled(Ok(Last(g.values)))
    ensures g.end.Threw? ==> r == Settled(Err(g.end.failure))
    ensures g.end.Pending? <==> r.NeverSettles?
  {
    match g.end
    case Returned => Settled(Ok(Last(g.values)))
    case Threw(f) => Settled(Err(f))
    case Pending => NeverSettles
  }

  /** What the executor's promise ends with once Firebase detection has
      answered `isPresent`: the emulator loop, run with `emulatorCommand`, or
      the dev-server loop. */
  function E2eCiResult(options: E2eCiOptions, isPresent: bool, servers: seq<bool>,
                       runs: seq<Settlement<Result<bool>>>): Settlement<Result<Option<bool>>>
    requires |runs| == |servers|
  {
    if isPresent then
      match ParseCommand(options.emulatorCommand)
      case Err(f) => Settled(Err(f))
      case Ok(_) => Finish(CypressFirebase.EmulatorRun(options.watch, servers, runs))
    else
      match ParseCommand(DevServerCommand(options))
      case Err(f) => Settled(Err(f))
      case Ok(_) => Finish(DevServer.DevServerRun(options.watch, servers, runs))
  }

  /** The executor: `detectFirebase` (which may throw), then the chosen loop,
      whose every yield overwrites the result. */
  method RunE2eCi(options: E2eCiOptions, projects: Projects, projectName: string, root: string, listing: Listing,
                  config: FirebaseJson, servers: seq<bool>, runs: seq<Settlement<Result<bool>>>)
    returns (r: Settlement<Result<Option<bool>>>)
    requires |runs| == |servers|
    ensures CypressFirebase.DependencyRoot(projects, projectName).Err? ==>
      r == Settled(Err(CypressFirebase.DependencyRoot(projects, projectName).failure))
    ensures CypressFirebase.DependencyRoot(projects, projectName).Ok? ==>
      var isPresent := FirebaseJsonListed(listing, root, CypressFirebase.DependencyRoot(projects, projectName).value)
        && CypressFirebase.HasEmulators(config);
      r == E2eCiResult(options, isPresent, servers, runs)
  {
    var detected := CypressFirebase.DetectFirebase(projects, projectName, root, listing, config);
    if detected.Err? {
      return Settled(Err(detected.failure));
    }
    var run: GeneratorRun;
    if detected.value {
      if options.emulatorCommand.None? {
        return Settled(Err(TypeError(ReadIncludes)));
      }
      var started := CypressFirebase.StartFirebaseEmulators(options.watch, options.emulatorCommand.value, servers, runs);
      if started.Err? {
        return Settled(Err(started.failure));
      }
      run := started.value;
    } else {
      var command := DevServerCommand(options);
      if command.None? {
        return Settled(Err(TypeError(ReadIncludes)));
      }
      var started, _ := DevServer.StartDevServer(command.value, options.watch, servers, runs);
      if started.Err? {
        return Settled(Err(started.failure));
      }
      run := started.value;
    }
    match run.end
    case Threw(f) =>
      r := Settled(Err(f));
    case Pending =>
      r := NeverSettles;
    case Returned =>
      var result := LastYield(run.values);
      r := Settled(Ok(result));
  }

  /** A failed server result as the very first one ends the emulator branch
      with `{success: false}`, and the dev-server branch with `undefined`,
      whatever the Cypress runs would have done. */
  lemma FirstServerFails(options: E2eCiOptions, servers: seq<bool>, runs: seq<Settlement<Result<bool>>>)
    requires |runs| == |servers| > 0 && !servers[0] && !options.watch
    requires options.emulatorCommand.Some? && Parse(options.emulatorCommand.value).Ok?
    requires DevServerCommand(options).Some? && Parse(DevServerCommand(options).value).Ok?
    ensures E2eCiResult(options, true, servers, runs) == Settled(Ok(Some(false)))
    ensures E2eCiResult(options, false, servers, runs) == Settled(Ok(None))
  {
  }

  /** With watch and the dev server, when every Cypress run resolves, the
      result is the Cypress outcome of the last successful server result, and
      `undefined` when none succeeded. */
  lemma WatchedDevServerResult(options: E2eCiOptions, servers: seq<bool>, runs: seq<Settlement<Result<bool>>>)
    requires |runs| == |servers| && options.watch && AllResolve(runs)
    requires DevServerCommand(options).Some? && Parse(DevServerCommand(options).value).Ok?
    ensures E2eCiResult(options, false, servers, runs) == Settled(Ok(Last(DevServer.Successful(servers, Outcomes(runs)))))
  {
    DevServer.DevServerRunResolved(true, servers, runs);
    DevServer.DevServerWatch(servers, Outcomes(runs));
  }

  /** Under the emulators, a Cypress run that rejects after the first
      successful server result makes the executor reject with that error,
      and one that never settles makes it wait for ever. */
  lemma CypressRunDecides(options: E2eCiOptions, servers: seq<bool>, runs: seq<Settlement<Result<bool>>>)
    requires |runs| == |servers| > 0 && servers[0]
    requires options.emulatorCommand.Some? && Parse(options.emulatorCommand.value).Ok?
    ensures runs[0].NeverSettles? ==> E2eCiResult(options, true, servers, runs).NeverSettles?
    ensures runs[0].Settled? && runs[0].value.Err? ==>
      E2eCiResult(options, true, servers, runs) == Settled(Err(runs[0].value.failure))
  {
  }

  /** Neither command set: the dev-server branch fails when parsing. */
  lemma NoDevServerCommand(options: E2eCiOptions, servers: seq<bool>, runs: seq<Settlement<Result<bool>>>)
    requires |runs| == |servers|
    requires options.webServerCommand.None? && options.devServerTarget.None?
    ensures E2eCiResult(options, false, servers, runs) == Settled(Err(TypeError(ReadIncludes)))
  {
  }
}
