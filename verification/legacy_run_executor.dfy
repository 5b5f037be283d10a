/** The first release's Cypress `run` executor: it looks for the
    application's `firebase.json`, scans a fixed list of emulator names for a
    port, starts the emulators unless they answer already, runs Cypress and
    kills what it started. Probes, spawning and Cypress are oracles. */
module LegacyRunExecutor {
  import opened Wrappers
  import opened Text
  import opened Records
  import opened Emulators
  import opened Workspace
  import opened CypressFirebase

  /** The names the port scan visits, in order. */
  const EmulatorTypes: seq<string> :=
    ["auth", "functions", "firestore", "database", "hosting", "pubsub", "storage", "eventarc", "dataconnect"]

  /** The key looked up at step `portCheck`: past the list, the index reads
      `undefined`, which as a key is the string 'undefined'. */
  function EmulatorAt(portCheck: nat): string
  {
    if portCheck < |EmulatorTypes| then EmulatorTypes[portCheck] else "undefined"
  }

  /** `emulators[name]?.port`. */
  function LookupPort(entries: EmulatorEntries, name: string): PortValue
  {
    match Get(entries, name)
    case None => NoPort
    case Some(v) => PortOf(v)
  }

  /** The first truthy port among the names, in the order of the names. */
  function FirstFixed(entries: EmulatorEntries, names: seq<string>): (r: Option<PortValue>)
    ensures r.None? <==> forall i :: 0 <= i < |names| ==> !LookupPort(entries, names[i]).Truthy()
    ensures r.Some? ==> r.value.Truthy() && exists i :: 0 <= i < |names| && LookupPort(entries, names[i]) == r.value
  {
    if |names| == 0 then None
    else if LookupPort(entries, names[0]).Truthy() then Some(LookupPort(entries, names[0]))
    else
      var r := FirstFixed(entries, names[1..]);
      if r.None? then r
      else
        var i :| 0 <= i < |names[1..]| && LookupPort(entries, names[1..][i]) == r.value;
        assert LookupPort(entries, names[i + 1]) == r.value;
        r
  }

  /** Every key the scan can ever look up: the nine names, then 'undefined'
      for good. */
  const ScanNames: seq<string> := EmulatorTypes + ["undefined"]

  /** The do-while ends exactly when one of those keys has a truthy port;
      otherwise it never ends. */
  predicate ScanEnds(entries: EmulatorEntries)
  {
    FirstFixed(entries, ScanNames).Some?
  }

  /** The do-while of `runCypressWithEmulators`: the first truthy port in
      the fixed order, whatever the declaration order of the keys. */
  method ScanPort(entries: EmulatorEntries) returns (port: PortValue)
    requires ScanEnds(entries)
    ensures Some(port) == FirstFixed(entries, ScanNames)
  {
    var found: Option<PortValue> := None;
    var portCheck := 0;
    while found.None?
      invariant portCheck <= |ScanNames|
      invariant found.None? ==> FirstFixed(entries, ScanNames) == FirstFixed(entries, ScanNames[portCheck..])
      invariant found.Some? ==> found == FirstFixed(entries, ScanNames)
      decreases |ScanNames| - portCheck
    {
      ScanStep(entries, portCheck);
      var emulator := LookupPort(entries, EmulatorAt(portCheck));
      portCheck := portCheck + 1;
      if emulator.Truthy() {
        found := Some(emulator);
      }
    }
    port := found.value;
  }

  /** One step of the scan: the key looked up at step `k` is the `k`-th of
      the scan names, and the first truthy port from there is its port or
      the first truthy port after it. */
  lemma ScanStep(entries: EmulatorEntries, k: nat)
    requires k <= |ScanNames| && FirstFixed(entries, ScanNames[k..]).Some?
    ensures k < |ScanNames|
    ensures EmulatorAt(k) == ScanNames[k]
    ensures var p := LookupPort(entries, ScanNames[k]);
      FirstFixed(entries, ScanNames[k..]) == if p.Truthy() then Some(p) else FirstFixed(entries, ScanNames[k + 1..])
  {
    assert ScanNames[k..][1..] == ScanNames[k + 1..];
  }

  /** Without a truthy port under the nine names or 'undefined', no step of
      the do-while finds one, however many steps it takes: the scan never
      ends. */
  lemma ScanNeverEnds(entries: EmulatorEntries, n: nat)
    requires !ScanEnds(entries)
    ensures !LookupPort(entries, EmulatorAt(n)).Truthy()
  {
    var k := if n < |EmulatorTypes| then n else |EmulatorTypes|;
    assert EmulatorAt(n) == ScanNames[k];
  }

  /** An emulators object with no entries at all makes the scan spin. */
  lemma EmptyEmulatorsSpin(n: nat)
    ensures !ScanEnds([])
    ensures !LookupPort([], EmulatorAt(n)).Truthy()
  {
    ScanNeverEnds([], n);
  }

  /** The scan as evidently intended: it stops after the nine names and
      reports that none of them has a port instead of spinning. */
  method ScanPortBounded(entries: EmulatorEntries) returns (port: Option<PortValue>)
    ensures port == FirstFixed(entries, EmulatorTypes)
    ensures port.None? <==> forall i :: 0 <= i < |EmulatorTypes| ==> !LookupPort(entries, EmulatorTypes[i]).Truthy()
  {
    port := None;
    var portCheck := 0;
    while portCheck < |EmulatorTypes| && port.None?
      invariant portCheck <= |EmulatorTypes|
      invariant port.None? ==> FirstFixed(entries, EmulatorTypes) == FirstFixed(entries, EmulatorTypes[portCheck..])
      invariant port.Some? ==> port == FirstFixed(entries, EmulatorTypes)
    {
      assert EmulatorTypes[portCheck..][1..] == EmulatorTypes[portCheck + 1..];
      var emulator := LookupPort(entries, EmulatorTypes[portCheck]);
      portCheck := portCheck + 1;
      if emulator.Truthy() {
        port := Some(emulator);
      }
    }
    if port.None? {
      assert EmulatorTypes[portCheck..] == [];
    }
  }

  /** A first truthy port among some names stays the first one when more
      names follow. */
  lemma {:induction false} FirstFixedAppend(entries: EmulatorEntries, names: seq<string>, more: seq<string>)
    requires FirstFixed(entries, names).Some?
    ensures FirstFixed(entries, names + more) == FirstFixed(entries, names)
  {
    assert (names + more)[0] == names[0];
    if !LookupPort(entries, names[0]).Truthy() {
      assert (names + more)[1..] == names[1..] + more;
      FirstFixedAppend(entries, names[1..], more);
    }
  }

  /** Wherever the bounded scan finds a port, the scan as written ends and
      picks the same port; they part only where the scan as written spins
      or falls back on a port under the key 'undefined'. */
  lemma BoundedScanAgrees(entries: EmulatorEntries)
    ensures FirstFixed(entries, EmulatorTypes).Some? ==>
      ScanEnds(entries) && FirstFixed(entries, ScanNames) == FirstFixed(entries, EmulatorTypes)
  {
    if FirstFixed(entries, EmulatorTypes).Some? {
      FirstFixedAppend(entries, EmulatorTypes, ["undefined"]);
    }
  }

  /** When a key appears among the nine names, the scan ends. */
  lemma ScanEndsWithNamedPort(entries: EmulatorEntries, i: nat)
    requires i < |EmulatorTypes| && LookupPort(entries, EmulatorTypes[i]).Truthy()
    ensures ScanEnds(entries)
  {
    assert ScanNames[i] == EmulatorTypes[i];
  }

  /** Declaration order does not matter: `hosting` declared first loses to a
      later `auth`. */
  lemma FixedOrderBeatsDeclaration(h: int, a: int)
    requires h != 0 && a != 0
    ensures FirstFixed([("hosting", Settings(NumPort(h))), ("auth", Settings(NumPort(a)))], ScanNames) == Some(NumPort(a))
  {
    var entries := [("hosting", Settings(NumPort(h))), ("auth", Settings(NumPort(a)))];
    var auth := "auth";
    var hosting := "hosting";
    assert auth != hosting by {
      assert |auth| != |hosting|;
    }
    assert Get(entries, auth) == Some(Settings(NumPort(a))) by {
      assert entries[1..] == [(auth, Settings(NumPort(a)))];
    }
    assert ScanNames[0] == auth;
  }

  /** What the executor does, in order. */
  datatype Step =
    | Probe(url: string)
    | StartEmulators(cwd: string)
    | Wait(url: string)
    | RunCypress(watch: bool)
    | KillEmulators

  function Url(port: PortValue): string
  {
    "http://127.0.0.1:" + port.Render()
  }

  /** `new URL(url).protocol`: the scheme, lower-cased, with its ':'. */
  function Protocol(url: string): string
  {
    var k := IndexOfChar(url, ':');
    ToLower(url[..k]) + ":"
  }

  /** A port builds an http address, so the http client polls it. */
  lemma PortUsesHttp(port: PortValue)
    ensures Protocol(Url(port)) == "http:"
  {
    var u := Url(port);
    assert u[..4] == "http";
    assert u[4] == ':';
    assert ':' !in u[..4];
    assert IndexOfChar(u, ':') == 4;
  }

  const EmulatorsTimedOut := Error("Emulators failed to start in 120000ms. Cancelling the operation.")

  /** The steps of `runCypressWithEmulators` for the scanned port. */
  function EmulatorSteps(port: PortValue, appRoot: string, watch: bool, probeAnswers: bool, answersInTime: bool): seq<Step>
  {
    [Probe(Url(port))]
    + (if probeAnswers then [] else [StartEmulators(appRoot)])
    + [Wait(Url(port))]
    + (if answersInTime then [RunCypress(watch)] + (if probeAnswers then [] else [KillEmulators]) else [])
  }

  /** The probe comes first; the emulators are started only when the probe
      fails, killed only when started and Cypress ran, and Cypress runs only
      when the port answered in time; no path kills emulators started
      externally. */
  lemma EmulatorStepsOrder(port: PortValue, appRoot: string, watch: bool, probeAnswers: bool, answersInTime: bool)
    ensures var steps := EmulatorSteps(port, appRoot, watch, probeAnswers, answersInTime);
      && steps[0] == Probe(Url(port))
      && (StartEmulators(appRoot) in steps <==> !probeAnswers)
      && (KillEmulators in steps <==> !probeAnswers && answersInTime)
      && (RunCypress(watch) in steps <==> answersInTime)
      && (KillEmulators in steps ==> steps[|steps| - 1] == KillEmulators && steps[|steps| - 2] == RunCypress(watch))
  {
  }

  /** `runCypressWithEmulators` once the emulators object is known to be
      there. */
  method RunCypressWithEmulators(entries: EmulatorEntries, appRoot: string, runWatch: bool,
                                 probeAnswers: bool, answersInTime: bool, cypress: bool)
    returns (r: Result<bool>, steps: seq<Step>)
    requires ScanEnds(entries)
    ensures steps == EmulatorSteps(FirstFixed(entries, ScanNames).value, appRoot, runWatch, probeAnswers, answersInTime)
    ensures r == (if answersInTime then Ok(cypress) else Err(EmulatorsTimedOut))
  {
    var port := ScanPort(entries);
    steps := [Probe(Url(port))];
    var started := false;
    if !probeAnswers {
      steps := steps + [StartEmulators(appRoot)];
      started := true;
    }
    steps := steps + [Wait(Url(port))];
    ghost var prefix := steps;
    assert prefix == [Probe(Url(port))] + (if probeAnswers then [] else [StartEmulators(appRoot)]) + [Wait(Url(port))];
    if !answersInTime {
      assert steps == prefix + [];
      return Err(EmulatorsTimedOut), steps;
    }
    steps := steps + [RunCypress(runWatch)];
    if started {
      steps := steps + [KillEmulators];
    }
    assert steps == prefix + ([RunCypress(runWatch)] + (if probeAnswers then [] else [KillEmulators]));
    r := Ok(cypress);
  }

  /** `runExecutor(options, context)`: `probeAnswers` is whether the port
      answers before anything is started, `answersInTime` whether it answers
      within 120 seconds of polling, `cypress` what Cypress reports. */
  method RunExecutor(watch: Option<bool>, projects: Projects, projectName: string, root: string, listing: Listing,
                     config: FirebaseJson, probeAnswers: bool, answersInTime: bool, cypress: bool)
    returns (r: Result<bool>, steps: seq<Step>)
    requires (DependencyRoot(projects, projectName).Ok? &&
      FirebaseJsonListed(listing, root, DependencyRoot(projects, projectName).value) &&
      config.emulators.Some?) ==> ScanEnds(config.emulators.value)
    ensures DependencyRoot(projects, projectName).Err? ==> r == Err(DependencyRoot(projects, projectName).failure)
    ensures DependencyRoot(projects, projectName).Ok? ==>
      var appRoot := DependencyRoot(projects, projectName).value;
      if !FirebaseJsonListed(listing, root, appRoot) || config.emulators.None? then
        r == Ok(cypress) && steps == [RunCypress(watch.GetOr(false))]
      else
        && steps == EmulatorSteps(FirstFixed(config.emulators.value, ScanNames).value, appRoot, watch.GetOr(false), probeAnswers, answersInTime)
        && r == (if answersInTime then Ok(cypress) else Err(EmulatorsTimedOut))
  {
    var dependencyRoot := DependencyRoot(projects, projectName);
    if dependencyRoot.Err? {
      return Err(dependencyRoot.failure), [];
    }
    var appRoot := dependencyRoot.value;
    var runWatch := watch.GetOr(false);
    if !FirebaseJsonListed(listing, root, appRoot) || config.emulators.None? {
      return Ok(cypress), [RunCypress(runWatch)];
    }
    r, steps := RunCypressWithEmulators(config.emulators.value, appRoot, runWatch, probeAnswers, answersInTime, cypress);
  }
}
