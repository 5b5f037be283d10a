/** The second version of the Cypress runner's Firebase helpers: the first
    numeric emulator port, the start decision, and freeing every emulator port
    (repeats included). Probes, `exec` and `killPort` are oracles. */
module CypressFirebaseV2 {
  import opened Wrappers
  import opened Text
  import opened Records
  import opened Emulators
  import opened Workspace
  import opened ProjectGraph
  import Paths
  import Urls

  /** The ports the `getPortsForEmulators` generator yields. */
  function YieldedPorts(config: FirebaseJson): seq<PortValue>
  {
    if config.emulators.None? then [] else TruthyPorts(config.emulators.value)
  }

  /** The first truthy port that converts to a number. */
  function FirstNumeric(ports: seq<PortValue>): (r: Option<PortValue>)
    ensures r.None? <==> forall i :: 0 <= i < |ports| ==> !ports[i].Truthy() || ports[i].IsNaN()
    ensures r.Some? ==> r.value.Truthy() && !r.value.IsNaN()
  {
    if |ports| == 0 then None
    else if ports[0].Truthy() && !ports[0].IsNaN() then Some(ports[0])
    else FirstNumeric(ports[1..])
  }

  /** The port found is the one at the first numeric position: every port
      before it is falsy or NaN. */
  lemma {:induction false} FirstNumericIsFirst(ports: seq<PortValue>) returns (k: nat)
    requires FirstNumeric(ports).Some?
    ensures k < |ports| && ports[k] == FirstNumeric(ports).value
    ensures forall i :: 0 <= i < k ==> !ports[i].Truthy() || ports[i].IsNaN()
  {
    if ports[0].Truthy() && !ports[0].IsNaN() {
      k := 0;
    } else {
      var j := FirstNumericIsFirst(ports[1..]);
      k := j + 1;
      PrefixAfterFirst(ports, j, (p: PortValue) => !p.Truthy() || p.IsNaN());
    }
  }

  /** A property of the first element and of the `j` after it holds of the
      first `j + 1`. */
  lemma PrefixAfterFirst<T>(xs: seq<T>, j: nat, bad: T -> bool)
    requires j < |xs| && bad(xs[0]) && forall i :: 0 <= i < j ==> bad(xs[1..][i])
    ensures forall i :: 0 <= i < j + 1 ==> bad(xs[i])
  {
    forall i | 0 <= i < j + 1
      ensures bad(xs[i])
    {
      if i > 0 {
        assert xs[i] == xs[1..][i - 1];
      }
    }
  }

  /** `getFirstEmulatorPort(context)`: nothing without a dependency or
      without its `firebase.json`; otherwise the first yielded port that is
      truthy and numeric, found by a loop that breaks on it. */
  method GetFirstEmulatorPort(projects: Projects, projectName: string, root: string, listing: Listing, config: FirebaseJson)
    returns (port: Option<PortValue>)
    ensures GetE2EProjectDependency(projects, projectName).None? ==> port.None?
    ensures (GetE2EProjectDependency(projects, projectName).Some? &&
      !ValidateFirebaseProject(GetE2EProjectDependency(projects, projectName).value, root, listing)) ==> port.None?
    ensures (GetE2EProjectDependency(projects, projectName).Some? &&
      ValidateFirebaseProject(GetE2EProjectDependency(projects, projectName).value, root, listing)) ==>
      port == FirstNumeric(YieldedPorts(config))
  {
    var applicationProject := GetE2EProjectDependency(projects, projectName);
    if applicationProject.None? {
      return None;
    }
    if !ValidateFirebaseProject(applicationProject.value, root, listing) {
      return None;
    }
    var ports := YieldedPorts(config);
    port := None;
    var i := 0;
    while i < |ports|
      invariant i <= |ports|
      invariant FirstNumeric(ports) == FirstNumeric(ports[i..])
    {
      assert ports[i..][1..] == ports[i + 1..];
      var p := ports[i];
      if p.Truthy() && !p.IsNaN() {
        port := Some(p);
        break;
      }
      i := i + 1;
    }
  }

  /** The address `isServerUp` and `waitForServer` build for a port that
      converts to a number. */
  function LocalAddress(port: PortValue): string
  {
    "http://localhost:" + port.Render()
  }

  /** The probe and the wait reach the network for the port. */
  predicate Addressable(port: PortValue)
  {
    Urls.Requestable(LocalAddress(port))
  }

  /** A number port is addressable exactly when it lies in 0..65535. */
  lemma NumberAddressable(n: int)
    ensures Addressable(NumPort(n)) <==> 0 <= n <= Urls.MaxPort
  {
    Urls.LocalhostAddress(NumPort(n).Render());
    Urls.NumberPortParses(n);
  }

  /** Ports that pass the `!isNaN(+p)` test and still make the probe hang:
      a number above 65535 and a negative number. */
  lemma NumbersOutOfRange()
    ensures NumPort(70000).Truthy() && !NumPort(70000).IsNaN() && !Addressable(NumPort(70000))
    ensures NumPort(-1).Truthy() && !NumPort(-1).IsNaN() && !Addressable(NumPort(-1))
  {
    NumberAddressable(70000);
    NumberAddressable(-1);
  }

  /** Digits after a space pass the `!isNaN(+p)` test, since `+` trims, and
      the probe's address `http://localhost: 4000` hangs. */
  lemma SpacedDigitsUnaddressable()
    ensures StrPort(" 4000").Truthy() && !StrPort(" 4000").IsNaN() && !Addressable(StrPort(" 4000"))
  {
    var digits := "4000";
    assert AllDigits(digits) by {
      assert forall i :: 0 <= i < |digits| ==> IsDigit(digits[i]);
    }
    SpacedDigitsNumeric(digits);
    assert " " + digits == " 4000";
    Urls.LocalhostAddress(" 4000");
    Urls.SpacedPortRejected("4000");
  }

  /** A space before digits leaves them a number. */
  lemma SpacedDigitsNumeric(digits: string)
    requires AllDigits(digits) && |digits| > 0
    ensures !StrPort(" " + digits).IsNaN()
  {
    var spaced := " " + digits;
    assert IsSpace(spaced[0]) && spaced[1..] == digits;
    assert TrimStart(spaced) == TrimStart(digits);
    TrimDigits(digits);
    DigitsAreNumeric(digits);
  }

  /** How `startFirebaseServer` ends when its promise settles, or that it
      never does. */
  datatype ServerStart =
    | NoNumericPort                        // no numeric port: nothing is done
    | ProbeHangs(port: PortValue)          // `new URL` rejects the probe's address: `isServerUp` never resolves
    | Reused(port: PortValue)              // the port already answers
    | Started(cwd: string, port: PortValue) // `npx firebase emulators:start` ran in cwd and the port answered

  /** The rejection of `waitForServer` once its 120-second timer fires. */
  const ServerTimeout := "Server failed to start within 120s. Aborting operation"

  /** `startFirebaseServer(context)`: `probeAnswers` is whether the probe of
      the port answers, and `answersInTime` whether the started emulators
      answer the polling before the timer fires. `spawnedIn` is the
      directory the emulators are started in, if they are. */
  method StartFirebaseServer(projects: Projects, projectName: string, root: string, listing: Listing, config: FirebaseJson,
                             probeAnswers: bool, answersInTime: bool)
    returns (r: Result<ServerStart>, spawnedIn: Option<string>)
    ensures r == Ok(NoNumericPort) <==> (GetE2EProjectDependency(projects, projectName).None? ||
      !ValidateFirebaseProject(GetE2EProjectDependency(projects, projectName).value, root, listing) ||
      FirstNumeric(YieldedPorts(config)).None?)
    ensures r == Ok(NoNumericPort) ==> spawnedIn.None?
    ensures r != Ok(NoNumericPort) ==>
      var port := FirstNumeric(YieldedPorts(config)).value;
      var cwd := Paths.PathJoin([root, GetE2EProjectDependency(projects, projectName).value.root]);
      && (!Addressable(port) ==> r == Ok(ProbeHangs(port)) && spawnedIn.None?)
      && (Addressable(port) && probeAnswers ==> r == Ok(Reused(port)) && spawnedIn.None?)
      && (Addressable(port) && !probeAnswers ==> spawnedIn == Some(cwd))
      && (Addressable(port) && !probeAnswers ==>
            r == if answersInTime then Ok(Started(cwd, port)) else Err(Error(ServerTimeout)))
  {
    spawnedIn := None;
    var port := GetFirstEmulatorPort(projects, projectName, root, listing, config);
    if port.Some? && !Addressable(port.value) {
      return Ok(ProbeHangs(port.value)), spawnedIn;
    }
    if port.Some? && probeAnswers {
      return Ok(Reused(port.value)), spawnedIn;
    } else if port.None? {
      return Ok(NoNumericPort), spawnedIn;
    }
    var dependency := GetE2EProjectDependency(projects, projectName);
    var cwd := Paths.PathJoin([root, dependency.value.root]);
    spawnedIn := Some(cwd);
    if answersInTime {
      r := Ok(Started(cwd, port.value));
    } else {
      r := Err(Error(ServerTimeout));
    }
  }

  /** How `terminateFirebaseServer` ends once the dependency is found. */
  datatype KillReport =
    | AllFreed(ports: seq<PortValue>)                    // every yielded port was freed
    | KillRejected(freed: seq<PortValue>, port: PortValue) // the rejection for `port` propagates

  /** `terminateFirebaseServer(context)`: every yielded port is freed in
      order, repeats included; the first rejection propagates. */
  method TerminateFirebaseServer(projects: Projects, projectName: string, config: FirebaseJson, kills: PortValue -> bool)
    returns (r: Result<KillReport>)
    ensures GetE2EProjectDependency(projects, projectName).None? ==> r.Err?
    ensures GetE2EProjectDependency(projects, projectName).Some? ==> r.Ok?
    ensures r.Ok? && r.value.AllFreed? ==> r.value.ports == YieldedPorts(config)
    ensures r.Ok? && r.value.AllFreed? ==> forall i :: 0 <= i < |YieldedPorts(config)| ==> kills(YieldedPorts(config)[i])
    ensures r.Ok? && r.value.KillRejected? ==> !kills(r.value.port)
    ensures r.Ok? && r.value.KillRejected? ==> r.value.freed + [r.value.port] <= YieldedPorts(config)
    ensures r.Ok? && r.value.KillRejected? ==> forall i :: 0 <= i < |r.value.freed| ==> kills(r.value.freed[i])
  {
    var dependency := GetE2EProjectDependency(projects, projectName);
    if dependency.None? {
      return Err(TypeError("Cannot read properties of undefined (reading 'root')"));
    }
    var report := KillInOrder(YieldedPorts(config), kills);
    r := Ok(report);
  }

  /** The `for await` over the ports: each is freed in turn, and the first
      rejection ends the loop. */
  method KillInOrder(ports: seq<PortValue>, kills: PortValue -> bool) returns (r: KillReport)
    ensures r.AllFreed? ==> r.ports == ports && forall i :: 0 <= i < |ports| ==> kills(ports[i])
    ensures r.KillRejected? ==> !kills(r.port) && r.freed + [r.port] <= ports
    ensures r.KillRejected? ==> forall i :: 0 <= i < |r.freed| ==> kills(r.freed[i])
  {
    var freed: seq<PortValue> := [];
    var i := 0;
    while i < |ports|
      invariant i <= |ports|
      invariant freed == ports[..i]
      invariant forall j :: 0 <= j < i ==> kills(ports[j])
    {
      if !kills(ports[i]) {
        assert ports[..i] + [ports[i]] == ports[..i + 1];
        return KillRejected(freed, ports[i]);
      }
      freed := freed + [ports[i]];
      i := i + 1;
    }
    assert freed == ports;
    r := AllFreed(freed);
  }
}
