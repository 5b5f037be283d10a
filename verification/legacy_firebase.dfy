/** The first release's Firebase helpers of the Cypress runner: detection with
    the port and the application root, the start-then-wait decision, and the
    killer of the spawned emulators. Probes, spawning and signals are
    oracles. */
module LegacyFirebase {
  import opened Wrappers
  import opened Text
  import opened Records
  import opened Emulators
  import opened Workspace
  import opened CypressFirebase
  import FirebaseUtils
  import Urls

  /** What `detectFirebase` returns. */
  datatype Detection = Detection(isPresent: bool, portNumber: Option<PortValue>, projectRoot: Option<string>)

  const NotPresent := Detection(false, None, None)

  /** `detectFirebase(context)`: present with the first truthy port and the
      application's root when its directory lists `firebase.json` and some
      emulator has a truthy port. */
  method DetectFirebase(projects: Projects, projectName: string, root: string, listing: Listing, config: FirebaseJson)
    returns (r: Result<Detection>)
    ensures DependencyRoot(projects, projectName).Err? ==> r == Err(DependencyRoot(projects, projectName).failure)
    ensures DependencyRoot(projects, projectName).Ok? ==>
      var appRoot := DependencyRoot(projects, projectName).value;
      && (!FirebaseJsonListed(listing, root, appRoot) ==> r == Ok(NotPresent))
      && (FirebaseJsonListed(listing, root, appRoot) && !HasEmulators(config) ==> r == Ok(NotPresent))
      && (FirebaseJsonListed(listing, root, appRoot) && HasEmulators(config) ==>
            r == Ok(Detection(true, Some(FirebaseUtils.FirstPort(config.emulators.value, None)), Some(appRoot))))
  {
    var dependencyRoot := DependencyRoot(projects, projectName);
    if dependencyRoot.Err? {
      return Err(dependencyRoot.failure);
    }
    if !FirebaseJsonListed(listing, root, dependencyRoot.value) {
      return Ok(NotPresent);
    }
    var port := GetPortForFirebaseEmulator(config);
    if port.None? {
      return Ok(NotPresent);
    }
    r := Ok(Detection(true, port, Some(dependencyRoot.value)));
  }

  /** The address `isServerUp` probes: a space follows the colon. */
  function ProbeUrl(port: PortValue): string
  {
    "http://127.0.0.1:" + ProbePortText(port)
  }

  /** What the probe's address holds after the host's ':'. */
  function ProbePortText(port: PortValue): string
  {
    " " + port.Render()
  }

  /** The address `waitForServer` polls. */
  function WaitUrl(port: PortValue): string
  {
    "http://127.0.0.1:" + port.Render()
  }

  /** The probe and the wait never address the same URL. */
  lemma ProbeIsNotWait(port: PortValue)
    ensures ProbeUrl(port) != WaitUrl(port)
  {
    assert |ProbeUrl(port)| == |WaitUrl(port)| + 1;
  }

  /** `new URL` rejects the probe's address for every port: the space after
      the colon is not part of a port. */
  lemma ProbeNeverParses(port: PortValue)
    ensures !Urls.PortTextParses(ProbePortText(port))
  {
    Urls.SpacedPortRejected(port.Render());
  }

  const EmulatorsTimedOut := Error("Emulators failed to start in 60000ms. Cancelling the operation.")

  /** How `startFirebaseEmulators` ends: with a result, or never. */
  datatype StartOutcome = Settled(result: Result<bool>) | NeverSettles

  /** `startFirebaseEmulators(cwd, port)` as written: `isServerUp` hands the
      probe address to `request`, whose promise rejects because `new URL`
      rejects the address (`ProbeNeverParses`); the rejection is not
      handled and `isServerUp`'s own promise is never resolved. So the call
      never settles, nothing is spawned and nothing is polled, whatever the
      emulators would do. */
  method StartFirebaseEmulators(cwd: string, port: PortValue, probeAnswers: bool, answersInTime: bool)
    returns (r: StartOutcome, spawned: Option<string>, probed: seq<string>)
    ensures probed == [ProbeUrl(port)]
    ensures !Urls.PortTextParses(ProbePortText(port))
    ensures spawned == None
    ensures r == NeverSettles
  {
    probed := [ProbeUrl(port)];
    spawned := None;
    ProbeNeverParses(port);
    r := NeverSettles;
  }

  /** `startFirebaseEmulators` with the probe polling the wait's address:
      a port `new URL` rejects still never settles; otherwise the emulators
      are spawned in `cwd` only when the probe fails, the wait always
      happens and its time-out rejects, and a killer is returned only for
      spawned emulators. */
  method StartFirebaseEmulatorsIntended(cwd: string, port: PortValue, probeAnswers: bool, answersInTime: bool)
    returns (r: StartOutcome, spawned: Option<string>, probed: seq<string>)
    ensures !Urls.PortTextParses(port.Render()) ==> r == NeverSettles && spawned == None && probed == [WaitUrl(port)]
    ensures Urls.PortTextParses(port.Render()) ==>
      && probed == [WaitUrl(port), WaitUrl(port)]
      && (spawned.Some? <==> !probeAnswers)
      && (spawned.Some? ==> spawned.value == cwd)
      && r == Settled(if answersInTime then Ok(!probeAnswers) else Err(EmulatorsTimedOut))
  {
    probed := [WaitUrl(port)];
    spawned := None;
    if !Urls.PortTextParses(port.Render()) {
      return NeverSettles, spawned, probed;
    }
    if !probeAnswers {
      spawned := Some(cwd);
    }
    probed := probed + [WaitUrl(port)];
    if !answersInTime {
      return Settled(Err(EmulatorsTimedOut)), spawned, probed;
    }
    r := Settled(Ok(spawned.Some?));
  }

  /** The corrected start settles for every port number in range, where
      the written one settles for none. */
  lemma IntendedSettlesForNumbers(port: PortValue)
    requires port.NumPort?
    ensures Urls.PortTextParses(port.Render()) <==> 0 <= port.n <= Urls.MaxPort
    ensures !Urls.PortTextParses(ProbePortText(port))
  {
    ProbeNeverParses(port);
    Urls.NumberPortParses(port.n);
  }

  /** The kill a killer performs: `taskkill` with arguments on Windows, a
      signal to the negated pid (the process group) elsewhere. */
  datatype KillAction = Taskkill(args: seq<string>) | SignalGroup(pid: int, signal: string)

  /** The killer returned by `startEmulators` for the process `pid`. */
  function EmulatorKiller(windows: bool, pid: nat): (k: KillAction)
    ensures windows <==> k.Taskkill?
    ensures k.Taskkill? ==> |k.args| == 4 && k.args[0] == "/pid" && "/t" in k.args
    ensures k.Taskkill? ==> AllDigits(k.args[1]) && DigitsValue(k.args[1]) == pid
    ensures k.SignalGroup? ==> k.pid == -(pid as int) && k.signal == "SIGINT"
  {
    NatToStringValue(pid);
    if windows then Taskkill(["/pid", NatToString(pid), "/f", "/t"]) else SignalGroup(-(pid as int), "SIGINT")
  }
}
