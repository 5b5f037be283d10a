/** The Firebase helpers of the Cypress runner: detecting an application with
    emulators, the emulator-backed run loop, and freeing the emulator ports
    afterwards. Running Cypress, the Nx executor and `killPort` are oracles. */
module CypressFirebase {
  import opened Wrappers
  import opened Records
  import opened Emulators
  import opened Workspace
  import opened TargetString
  import FirebaseUtils
  import opened RunCypress

  const ReadImplicitDependencies := "Cannot read properties of undefined (reading 'implicitDependencies')"
  const ReadFirstDependency := "Cannot read properties of undefined (reading '0')"
  const ReadRoot := "Cannot read properties of undefined (reading 'root')"

  /** `projects[projectName].implicitDependencies[0]` looked up without
      optional chaining: a missing project or dependency list throws, an empty
      list looks up the key `undefined`. */
  function StrictDependency(projects: Projects, projectName: string): (r: Result<Option<ProjectConfig>>)
    ensures !HasKey(projects, projectName) ==> r == Err(TypeError(ReadImplicitDependencies))
    ensures HasKey(projects, projectName) && Get(projects, projectName).value.implicitDependencies.None? ==>
      r == Err(TypeError(ReadFirstDependency))
    ensures r.Ok? ==> var deps := Get(projects, projectName).value.implicitDependencies.value;
      r.value == Get(projects, if |deps| > 0 then deps[0] else "undefined")
  {
    match Get(projects, projectName)
    case None => Err(TypeError(ReadImplicitDependencies))
    case Some(p) =>
      match p.implicitDependencies
      case None => Err(TypeError(ReadFirstDependency))
      case Some(deps) => Ok(Get(projects, if |deps| > 0 then deps[0] else "undefined"))
  }

  /** `dependency.root` on the looked-up project. */
  function DependencyRoot(projects: Projects, projectName: string): (r: Result<string>)
    ensures r.Ok? <==> StrictDependency(projects, projectName).Ok? && StrictDependency(projects, projectName).value.Some?
    ensures r.Ok? ==> r.value == StrictDependency(projects, projectName).value.value.root
  {
    var dep :- StrictDependency(projects, projectName);
    if dep.None? then Err(TypeError(ReadRoot)) else Ok(dep.value.root)
  }

  /** Some emulator entry has a truthy port. */
  predicate HasEmulators(config: FirebaseJson)
  {
    config.emulators.Some? && exists i :: 0 <= i < |config.emulators.value| && PortOf(config.emulators.value[i].1).Truthy()
  }

  /** `getPortForFirebaseEmulator(path)`: the forEach keeps assigning
      `value?.port` until it holds a truthy one; the port is reported only
      when truthy. */
  method GetPortForFirebaseEmulator(config: FirebaseJson) returns (port: Option<PortValue>)
    ensures port.Some? <==> HasEmulators(config)
    ensures port.Some? ==> port.value == FirebaseUtils.FirstPort(config.emulators.value, None)
  {
    if config.emulators.None? {
      return None;
    }
    var entries := config.emulators.value;
    var p := NoPort;
    var i := 0;
    while i < |entries|
      invariant i <= |entries|
      invariant FirebaseUtils.FirstPort(entries, None) == if p.Truthy() then p else FirebaseUtils.FirstPort(entries[i..], None)
    {
      assert entries[i..][1..] == entries[i + 1..];
      if !p.Truthy() {
        p := PortOf(entries[i].1);
      }
      i := i + 1;
    }
    if !p.Truthy() {
      forall k | 0 <= k < |entries| ensures !PortOf(entries[k].1).Truthy() {
        assert !FirebaseUtils.Selected(entries[k], None);
      }
      return None;
    }
    var k :| 0 <= k < |entries| && FirebaseUtils.Selected(entries[k], None) && PortOf(entries[k].1) == p;
    port := Some(p);
  }

  /** `detectFirebase(context)`: present exactly when the dependency lists a
      `firebase.json` whose emulators carry a truthy port. */
  method DetectFirebase(projects: Projects, projectName: string, root: string, listing: Listing, config: FirebaseJson)
    returns (r: Result<bool>)
    ensures DependencyRoot(projects, projectName).Err? ==> r == Err(DependencyRoot(projects, projectName).failure)
    ensures DependencyRoot(projects, projectName).Ok? ==>
      r == Ok(FirebaseJsonListed(listing, root, DependencyRoot(projects, projectName).value) && HasEmulators(config))
  {
    var dependencyRoot := DependencyRoot(projects, projectName);
    if dependencyRoot.Err? {
      return Err(dependencyRoot.failure);
    }
    if !FirebaseJsonListed(listing, root, dependencyRoot.value) {
      return Ok(false);
    }
    var port := GetPortForFirebaseEmulator(config);
    r := Ok(port.Some?);
  }

  // ---------------------------------------------------------------------
  // The emulator-backed run loop

  /** What `startFirebaseEmulators` yields for the emulator executor's
      results `servers` when every Cypress run resolves: `cypress[i]` is the
      success flag of the run started after the i-th result. */
  function EmulatorYields(watch: bool, servers: seq<bool>, cypress: seq<bool>): seq<bool>
    requires |cypress| == |servers|
  {
    if |servers| == 0 then []
    else if !servers[0] then [false]
    else if !watch then [cypress[0]]
    else [cypress[0]] + EmulatorYields(watch, servers[1..], cypress[1..])
  }

  /** The index of the first unsuccessful server result, or the length. */
  function FirstFailure(servers: seq<bool>): (k: nat)
    ensures k <= |servers|
    ensures forall i :: 0 <= i < k ==> servers[i]
    ensures k < |servers| ==> !servers[k]
  {
    if |servers| == 0 || !servers[0] then 0 else 1 + FirstFailure(servers[1..])
  }

  /** The emulator loop with the Cypress runs as they settle: `runs[i]` is
      how the `runCypressInternal` call after the i-th server result ends.
      A rejected run ends the generator with its rejection, and a run that
      never settles leaves the generator waiting. */
  function EmulatorRun(watch: bool, servers: seq<bool>, runs: seq<Settlement<Result<bool>>>): GeneratorRun
    requires |runs| == |servers|
  {
    if |servers| == 0 then GeneratorRun([], Returned)
    else if !servers[0] then GeneratorRun([false], Returned)
    else
      match runs[0]
      case NeverSettles => GeneratorRun([], Pending)
      case Settled(Err(f)) => GeneratorRun([], Threw(f))
      case Settled(Ok(b)) =>
        if !watch then GeneratorRun([b], Returned)
        else Prepend([b], EmulatorRun(watch, servers[1..], runs[1..]))
  }

  /** When every run resolves, the generator returns after yielding exactly
      `EmulatorYields` of the runs' success flags. */
  lemma {:induction false} EmulatorRunResolved(watch: bool, servers: seq<bool>, runs: seq<Settlement<Result<bool>>>)
    requires |runs| == |servers| && AllResolve(runs)
    ensures EmulatorRun(watch, servers, runs) == GeneratorRun(EmulatorYields(watch, servers, Outcomes(runs)), Returned)
  {
    if |servers| > 0 && servers[0] && watch {
      ResolveTail(runs);
      EmulatorRunResolved(watch, servers[1..], runs[1..]);
      assert Outcomes(runs)[1..] == Outcomes(runs[1..]);
    }
  }

  /** A suffix of runs that all resolve resolves too. */
  lemma ResolveTail(runs: seq<Settlement<Result<bool>>>)
    requires |runs| > 0 && AllResolve(runs)
    ensures AllResolve(runs[1..])
  {
    forall i | 0 <= i < |runs[1..]|
      ensures runs[1..][i].Settled? && runs[1..][i].value.Ok?
    {
      assert runs[1..][i] == runs[i + 1];
    }
  }

  /** The first started run that does not resolve ends the generator: the
      flags of the runs before it are yielded, then its rejection is thrown
      or the generator waits for ever. */
  lemma {:induction false} EmulatorRunStops(watch: bool, servers: seq<bool>, runs: seq<Settlement<Result<bool>>>, k: nat)
    requires |runs| == |servers| && k < FirstFailure(servers) && (watch || k == 0)
    requires AllResolve(runs[..k]) && !(runs[k].Settled? && runs[k].value.Ok?)
    ensures EmulatorRun(watch, servers, runs) ==
      GeneratorRun(Outcomes(runs[..k]), if runs[k].NeverSettles? then Pending else Threw(runs[k].value.failure))
  {
    if k > 0 {
      ResolveTail(runs[..k]);
      assert runs[..k][1..] == runs[1..][..k - 1];
      assert runs[1..][k - 1] == runs[k];
      assert runs[..k][0] == runs[0];
      EmulatorRunStops(watch, servers[1..], runs[1..], k - 1);
      assert Outcomes(runs[..k]) == [runs[0].value.value] + Outcomes(runs[1..][..k - 1]);
    }
  }

  /** `startFirebaseEmulators(watch, command, options, context)`: the target
      is parsed first, then each server result is consumed in turn and each
      Cypress run awaited. */
  method StartFirebaseEmulators(watch: bool, command: string, servers: seq<bool>, runs: seq<Settlement<Result<bool>>>)
    returns (r: Result<GeneratorRun>)
    requires |runs| == |servers|
    ensures Parse(command).Err? ==> r == Err(Parse(command).failure)
    ensures Parse(command).Ok? ==> r == Ok(EmulatorRun(watch, servers, runs))
  {
    var target := Parse(command);
    if target.Err? {
      return Err(target.failure);
    }
    var yielded: seq<bool> := [];
    var end := Returned;
    var stop := false;
    var i := 0;
    while i < |servers| && !stop
      invariant i <= |servers|
      decreases |servers| - i, if stop then 0 else 1
      invariant !stop ==> (end == Returned &&
        Prepend(yielded, EmulatorRun(watch, servers[i..], runs[i..])) == EmulatorRun(watch, servers, runs))
      invariant stop ==> GeneratorRun(yielded, end) == EmulatorRun(watch, servers, runs)
    {
      assert servers[i..][1..] == servers[i + 1..] && runs[i..][1..] == runs[i + 1..];
      if !servers[i] {
        yielded, stop := yielded + [false], true;
      } else if runs[i].NeverSettles? {
        end, stop := Pending, true;
      } else if runs[i].value.Err? {
        end, stop := Threw(runs[i].value.failure), true;
      } else {
        yielded := yielded + [runs[i].value.value];
        if !watch {
          stop := true;
        } else {
          i := i + 1;
        }
      }
    }
    if !stop {
      assert servers[i..] == [] && runs[i..] == [];
      assert EmulatorRun(watch, servers[i..], runs[i..]) == GeneratorRun([], Returned);
      assert yielded + [] == yielded;
    }
    r := Ok(GeneratorRun(yielded, end));
  }

  /** Without watch, one server result is consumed and one value yielded. */
  lemma EmulatorYieldsOnce(servers: seq<bool>, cypress: seq<bool>)
    requires |cypress| == |servers| && |servers| > 0
    ensures EmulatorYields(false, servers, cypress) == [if servers[0] then cypress[0] else false]
  {
  }

  /** With watch, the Cypress results of the leading successful server
      results are yielded in order, then `false` for the first failure, which
      ends the run. */
  lemma {:induction false} EmulatorYieldsWatch(servers: seq<bool>, cypress: seq<bool>)
    requires |cypress| == |servers|
    ensures var k := FirstFailure(servers);
      EmulatorYields(true, servers, cypress) == cypress[..k] + (if k < |servers| then [false] else [])
  {
    if |servers| > 0 && servers[0] {
      EmulatorYieldsWatch(servers[1..], cypress[1..]);
      assert cypress[..FirstFailure(servers)] == [cypress[0]] + cypress[1..][..FirstFailure(servers[1..])];
    }
  }

  // ---------------------------------------------------------------------
  // The emulator ports

  /** The ports with repeats removed, each kept at its first occurrence. */
  function Dedup(ports: seq<PortValue>): (r: seq<PortValue>)
    ensures forall p :: p in r <==> p in ports
    ensures forall i, j :: 0 <= i < j < |r| ==> r[i] != r[j]
    decreases |ports|
  {
    if |ports| == 0 then []
    else
      var prev := Dedup(ports[..|ports| - 1]);
      var p := ports[|ports| - 1];
      assert ports == ports[..|ports| - 1] + [p];
      if p in prev then prev else prev + [p]
  }

  /** Removing repeats never lengthens the list, and shortens it as soon as
      one port occurs twice: this helper frees such a port once, while the
      second version frees it at every occurrence. */
  lemma {:induction false} DedupDropsRepeats(ports: seq<PortValue>, i: nat, j: nat)
    requires i < j < |ports| && ports[i] == ports[j]
    ensures |Dedup(ports)| < |ports|
    decreases |ports|
  {
    var init := ports[..|ports| - 1];
    if j == |ports| - 1 {
      assert ports[j] in init by {
        assert init[i] == ports[i];
      }
      DedupNoLonger(init);
    } else {
      assert init[i] == ports[i] && init[j] == ports[j];
      DedupDropsRepeats(init, i, j);
    }
  }

  lemma {:induction false} DedupNoLonger(ports: seq<PortValue>)
    ensures |Dedup(ports)| <= |ports|
    decreases |ports|
  {
    if |ports| > 0 {
      DedupNoLonger(ports[..|ports| - 1]);
    }
  }

  lemma {:induction false} TruthyPortsSnoc(entries: EmulatorEntries, e: (string, EmulatorValue))
    ensures TruthyPorts(entries + [e]) == TruthyPorts(entries) + (if PortOf(e.1).Truthy() then [PortOf(e.1)] else [])
  {
    if |entries| > 0 {
      TruthyPortsSnoc(entries[1..], e);
      assert (entries + [e])[1..] == entries[1..] + [e];
    } else {
      assert ([] + [e])[1..] == [];
    }
  }

  /** One step of the scan: the next entry's port is appended unless it is
      falsy or already kept. */
  lemma PortsStep(entries: EmulatorEntries, i: nat)
    requires i < |entries|
    ensures var prev := Dedup(TruthyPorts(entries[..i]));
      var p := PortOf(entries[i].1);
      Dedup(TruthyPorts(entries[..i + 1])) == if p.Truthy() && p !in prev then prev + [p] else prev
  {
    TruthyPortsSnoc(entries[..i], entries[i]);
    assert entries[..i + 1] == entries[..i] + [entries[i]];
    var ps := TruthyPorts(entries[..i]);
    var p := PortOf(entries[i].1);
    if p.Truthy() {
      assert (ps + [p])[..|ps + [p]| - 1] == ps;
    } else {
      assert ps + [] == ps;
    }
  }

  /** One push of the scan: the port is appended unless it is falsy or
      already kept; the result is the scan of one more entry. */
  method PushPort(entries: EmulatorEntries, i: nat, res: seq<PortValue>) returns (res': seq<PortValue>)
    requires i < |entries|
    requires res == Dedup(TruthyPorts(entries[..i]))
    ensures res' == Dedup(TruthyPorts(entries[..i + 1]))
  {
    var port := PortOf(entries[i].1);
    PortsStep(entries, i);
    if port.Truthy() && port !in res {
      res' := res + [port];
    } else {
      res' := res;
    }
  }

  /** `getPortsForEmulators(path)`: the truthy ports in key order, each
      pushed unless already present; none without emulators. */
  method GetPortsForEmulators(config: FirebaseJson) returns (res: seq<PortValue>)
    ensures config.emulators.None? ==> res == []
    ensures config.emulators.Some? ==> res == Dedup(TruthyPorts(config.emulators.value))
  {
    if config.emulators.None? {
      return [];
    }
    var entries := config.emulators.value;
    res := [];
    var i := 0;
    while i < |entries|
      invariant i <= |entries|
      invariant res == Dedup(TruthyPorts(entries[..i]))
    {
      res := PushPort(entries, i, res);
      i := i + 1;
    }
    AllScanned(entries);
  }

  lemma AllScanned(entries: EmulatorEntries)
    ensures Dedup(TruthyPorts(entries[..|entries|])) == Dedup(TruthyPorts(entries))
  {
    assert entries[..|entries|] == entries;
  }

  /** The ports to free are exactly the truthy ports, each once. */
  lemma PortsToFree(entries: EmulatorEntries, p: PortValue)
    ensures p in Dedup(TruthyPorts(entries)) <==> p.Truthy() && exists i :: 0 <= i < |entries| && PortOf(entries[i].1) == p
    ensures forall i, j :: 0 <= i < j < |Dedup(TruthyPorts(entries))| ==> Dedup(TruthyPorts(entries))[i] != Dedup(TruthyPorts(entries))[j]
  {
  }

  /** The ports `killPort` is called on: in order, stopping after the first
      that fails (the failure is logged, not thrown). */
  function KillAttempts(ports: seq<PortValue>, kills: PortValue -> bool): seq<PortValue>
  {
    if |ports| == 0 then []
    else if !kills(ports[0]) then [ports[0]]
    else [ports[0]] + KillAttempts(ports[1..], kills)
  }

  /** The attempts are a prefix of the ports, every attempt but the last
      succeeded, and all ports are attempted when none fails. */
  lemma {:induction false} KillAttemptsPrefix(ports: seq<PortValue>, kills: PortValue -> bool)
    ensures KillAttempts(ports, kills) <= ports
    ensures forall i :: 0 <= i < |KillAttempts(ports, kills)| - 1 ==> kills(KillAttempts(ports, kills)[i])
    ensures (forall i :: 0 <= i < |ports| ==> kills(ports[i])) ==> KillAttempts(ports, kills) == ports
    ensures |KillAttempts(ports, kills)| < |ports| ==> !kills(KillAttempts(ports, kills)[|KillAttempts(ports, kills)| - 1])
  {
    if |ports| > 0 && kills(ports[0]) {
      KillAttemptsPrefix(ports[1..], kills);
      assert ports == [ports[0]] + ports[1..];
    }
  }

  /** `terminateEmulatorsIfStarted(context)`: the dependency is looked up,
      then its emulator ports are freed in order. */
  method TerminateEmulatorsIfStarted(projects: Projects, projectName: string, config: FirebaseJson, kills: PortValue -> bool)
    returns (r: Result<seq<PortValue>>)
    ensures DependencyRoot(projects, projectName).Err? ==> r == Err(DependencyRoot(projects, projectName).failure)
    ensures DependencyRoot(projects, projectName).Ok? ==>
      r == Ok(KillAttempts(if config.emulators.None? then [] else Dedup(TruthyPorts(config.emulators.value)), kills))
  {
    var dependencyRoot := DependencyRoot(projects, projectName);
    if dependencyRoot.Err? {
      return Err(dependencyRoot.failure);
    }
    var ports := GetPortsForEmulators(config);
    var attempted: seq<PortValue> := [];
    var i := 0;
    while i < |ports|
      invariant i <= |ports|
      invariant attempted + KillAttempts(ports[i..], kills) == KillAttempts(ports, kills)
    {
      assert ports[i..][1..] == ports[i + 1..];
      assert KillAttempts(ports[i..], kills) ==
        [ports[i]] + (if kills(ports[i]) then KillAttempts(ports[i + 1..], kills) else []);
      attempted := attempted + [ports[i]];
      if !kills(ports[i]) {
        break;
      }
      i := i + 1;
    }
    assert attempted == KillAttempts(ports, kills);
    r := Ok(attempted);
  }
}
