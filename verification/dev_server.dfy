/** The dev-server runner of the Cypress executors: the web-server command is
    parsed into an Nx target, the target is run, and Cypress runs once for
    each successful result the server reports. The server's results and the
    outcome of each Cypress run are oracles: `servers[i]` is the `success` of
    the i-th result of the run target, `runs[i]` how the `runCypressInternal`
    call started after it ends (a success flag, a rejection, or never). */
module DevServer {
  import opened Wrappers
  import opened TargetString
  import opened RunCypress

  /** What the generator yields for the server results `servers` when every
      Cypress run resolves: a Cypress result per successful server result,
      nothing for a failed one, and without watch nothing after the first
      server result. */
  function DevServerYields(watch: bool, servers: seq<bool>, cypress: seq<bool>): seq<bool>
    requires |cypress| == |servers|
  {
    if |servers| == 0 then []
    else
      var first := if servers[0] then [cypress[0]] else [];
      if watch then first + DevServerYields(watch, servers[1..], cypress[1..]) else first
  }

  /** How many server results the generator consumes before it returns. */
  function Consumed(watch: bool, servers: seq<bool>): (n: nat)
    ensures n <= |servers|
  {
    if watch || |servers| == 0 then |servers| else 1
  }

  /** The Cypress results of the successful server results, in order: the
      reference the watching generator is held to. */
  function Successful(servers: seq<bool>, cypress: seq<bool>): seq<bool>
    requires |cypress| == |servers|
  {
    if |servers| == 0 then []
    else
      var n := |servers| - 1;
      Successful(servers[..n], cypress[..n]) + (if servers[n] then [cypress[n]] else [])
  }

  /** The generator with the Cypress runs as they settle: a rejected run
      ends it with its rejection, and a run that never settles leaves it
      waiting. */
  function DevServerRun(watch: bool, servers: seq<bool>, runs: seq<Settlement<Result<bool>>>): GeneratorRun
    requires |runs| == |servers|
  {
    if |servers| == 0 then GeneratorRun([], Returned)
    else
      var rest := if watch then DevServerRun(watch, servers[1..], runs[1..]) else GeneratorRun([], Returned);
      if !servers[0] then rest
      else
        match runs[0]
        case NeverSettles => GeneratorRun([], Pending)
        case Settled(Err(f)) => GeneratorRun([], Threw(f))
        case Settled(Ok(b)) => Prepend([b], rest)
  }

  /** When every run resolves, the generator returns after yielding exactly
      `DevServerYields` of the runs' success flags. */
  lemma {:induction false} DevServerRunResolved(watch: bool, servers: seq<bool>, runs: seq<Settlement<Result<bool>>>)
    requires |runs| == |servers| && AllResolve(runs)
    ensures DevServerRun(watch, servers, runs) == GeneratorRun(DevServerYields(watch, servers, Outcomes(runs)), Returned)
  {
    if |servers| > 0 && watch {
      assert AllResolve(runs[1..]) by {
        forall i | 0 <= i < |runs| - 1
          ensures runs[1..][i].Settled? && runs[1..][i].value.Ok?
        {
          assert runs[1..][i] == runs[i + 1];
        }
      }
      DevServerRunResolved(watch, servers[1..], runs[1..]);
      assert Outcomes(runs)[1..] == Outcomes(runs[1..]);
    }
  }

  /** A successful server result whose Cypress run rejects ends the
      generator with that rejection, after the values yielded before it. */
  lemma DevServerRunThrows(watch: bool, servers: seq<bool>, runs: seq<Settlement<Result<bool>>>, f: Failure)
    requires |runs| == |servers| > 0 && servers[0] && runs[0] == Settled(Err(f))
    ensures DevServerRun(watch, servers, runs) == GeneratorRun([], Threw(f))
  {
  }

  /** The default export of `dev-server.ts`: the command is parsed before the
      server runs, then the server results are consumed one at a time and
      each Cypress run awaited. */
  method StartDevServer(command: string, watch: bool, servers: seq<bool>, runs: seq<Settlement<Result<bool>>>)
    returns (r: Result<GeneratorRun>, consumed: nat)
    requires |runs| == |servers|
    ensures Parse(command).Err? ==> r == Err(Parse(command).failure) && consumed == 0
    ensures Parse(command).Ok? ==> r == Ok(DevServerRun(watch, servers, runs)) && consumed <= |servers|
    ensures Parse(command).Ok? && AllResolve(runs) ==> consumed == Consumed(watch, servers)
  {
    var target := Parse(command);
    if target.Err? {
      return Err(target.failure), 0;
    }
    var yielded: seq<bool> := [];
    var end := Returned;
    var stop := false;
    var i := 0;
    while i < |servers| && !stop
      invariant i <= |servers|
      decreases |servers| - i, if stop then 0 else 1
      invariant !stop ==> (end == Returned && (watch || i == 0) &&
        Prepend(yielded, DevServerRun(watch, servers[i..], runs[i..])) == DevServerRun(watch, servers, runs))
      invariant stop ==> GeneratorRun(yielded, end) == DevServerRun(watch, servers, runs)
      invariant stop && AllResolve(runs) ==> !watch && i == 1
    {
      assert servers[i..][1..] == servers[i + 1..] && runs[i..][1..] == runs[i + 1..];
      if servers[i] && runs[i].NeverSettles? {
        end, stop := Pending, true;
      } else if servers[i] && runs[i].value.Err? {
        end, stop := Threw(runs[i].value.failure), true;
      } else {
        if servers[i] {
          yielded := yielded + [runs[i].value.value];
        }
        i := i + 1;
        if !watch {
          stop := true;
        }
      }
    }
    if !stop {
      assert servers[i..] == [] && runs[i..] == [];
      assert DevServerRun(watch, servers[i..], runs[i..]) == GeneratorRun([], Returned);
      assert yielded + [] == yielded;
    }
    r, consumed := Ok(GeneratorRun(yielded, end)), i;
  }

  /** Without watch, the first server result alone decides the output: one
      Cypress result when it succeeded, none otherwise. */
  lemma DevServerOnce(servers: seq<bool>, cypress: seq<bool>)
    requires |cypress| == |servers|
    ensures DevServerYields(false, servers, cypress) ==
      if |servers| > 0 && servers[0] then [cypress[0]] else []
    ensures |DevServerYields(false, servers, cypress)| <= 1 && Consumed(false, servers) <= 1
  {
  }

  /** Prepending one server result to the reference. */
  lemma {:induction false} SuccessfulCons(servers: seq<bool>, cypress: seq<bool>)
    requires |cypress| == |servers| > 0
    ensures Successful(servers, cypress) ==
      (if servers[0] then [cypress[0]] else []) + Successful(servers[1..], cypress[1..])
    decreases |servers|
  {
    var n := |servers| - 1;
    if n > 0 {
      SuccessfulCons(servers[..n], cypress[..n]);
      assert servers[..n][1..] == servers[1..][..n - 1];
      assert cypress[..n][1..] == cypress[1..][..n - 1];
    } else {
      assert servers[1..] == [];
    }
  }

  /** With watch, the outputs are the Cypress results of the successful
      server results, one each and in order. */
  lemma {:induction false} DevServerWatch(servers: seq<bool>, cypress: seq<bool>)
    requires |cypress| == |servers|
    ensures DevServerYields(true, servers, cypress) == Successful(servers, cypress)
  {
    if |servers| > 0 {
      DevServerWatch(servers[1..], cypress[1..]);
      SuccessfulCons(servers, cypress);
    }
  }

  /** Failed server results contribute nothing: the number of outputs is the
      number of successful server results among those consumed. */
  lemma {:induction false} SuccessfulCount(servers: seq<bool>, cypress: seq<bool>)
    requires |cypress| == |servers|
    ensures |Successful(servers, cypress)| == |set i | 0 <= i < |servers| && servers[i]|
  {
    if |servers| > 0 {
      var n := |servers| - 1;
      SuccessfulCount(servers[..n], cypress[..n]);
      var before := set i | 0 <= i < n && servers[..n][i];
      var all := set i | 0 <= i < |servers| && servers[i];
      assert before == set i | 0 <= i < n && servers[i];
      assert all == before + (if servers[n] then {n} else {});
    }
  }
}
