/** The `firebase` executor of nx-firebase: option defaults, the
    readyWhen/parallel check, the `--only=` suffix, and the resolve-once rules
    by which the spawned process's events decide the outcome. The process is
    an oracle: its events are an input. */
module FirebaseExecutor {
  import opened Wrappers
  import opened Text

  /** The executor's options as given; every field may be missing. */
  datatype FirebaseExecutorSchema = FirebaseExecutorSchema(
    cwd: Option<string>,
    command: Option<string>,
    readyWhen: Option<string>,
    parallel: Option<bool>,
    only: Option<seq<string>>,
    disableOnly: Option<bool>)

  /** The options once every default is applied; `readyWhenData` is the
      marker to wait for, present when `readyWhen` is truthy. */
  datatype NormalizedOptions = NormalizedOptions(
    cwd: string,
    command: string,
    readyWhen: string,
    parallel: bool,
    only: seq<string>,
    disableOnly: bool,
    readyWhenData: Option<string>)

  const DefaultCommand := "npx firebase emulators:start"
  const DefaultReadyWhen := "It is now safe to connect"
  const ReadyWhenNeedsParallel := Error("The \"--parallel\" flag must be set to true in order to use \"--readyWhen\"")

  /** `normalizeOptions(options)`: `??` keeps every value that is provided,
      even an empty string or `false`. */
  function NormalizeOptions(options: Option<FirebaseExecutorSchema>): (r: NormalizedOptions)
    ensures options.None? ==>
      r == NormalizedOptions(".", DefaultCommand, DefaultReadyWhen, true, [], false, Some(DefaultReadyWhen))
    ensures options.Some? ==>
      && r.cwd == options.value.cwd.GetOr(".")
      && r.command == options.value.command.GetOr(DefaultCommand)
      && r.readyWhen == options.value.readyWhen.GetOr(DefaultReadyWhen)
      && r.parallel == options.value.parallel.GetOr(true)
      && r.only == options.value.only.GetOr([])
      && r.disableOnly == options.value.disableOnly.GetOr(false)
    ensures r.readyWhenData == (if r.readyWhen != "" then Some(r.readyWhen) else None)
  {
    var o := options.GetOr(FirebaseExecutorSchema(None, None, None, None, None, None));
    var readyWhen := o.readyWhen.GetOr(DefaultReadyWhen);
    NormalizedOptions(
      o.cwd.GetOr("."),
      o.command.GetOr(DefaultCommand),
      readyWhen,
      o.parallel.GetOr(true),
      o.only.GetOr([]),
      o.disableOnly.GetOr(false),
      if readyWhen != "" then Some(readyWhen) else None)
  }

  /** The check of `runExecutor`: a truthy `readyWhen` needs `parallel`. */
  function CheckOptions(opts: NormalizedOptions): (r: Option<Failure>)
    ensures r.Some? <==> opts.readyWhen != "" && !opts.parallel
    ensures r.Some? ==> r.value == ReadyWhenNeedsParallel
  {
    if opts.readyWhen != "" && !opts.parallel then Some(ReadyWhenNeedsParallel) else None
  }

  /** Turning `parallel` off without also clearing `readyWhen` always throws,
      because `readyWhen` has a non-empty default. */
  lemma SerialNeedsEmptyReadyWhen(o: FirebaseExecutorSchema)
    requires o.parallel == Some(false)
    ensures CheckOptions(NormalizeOptions(Some(o))).None? <==> o.readyWhen == Some("")
  {
  }

  /** `stringifyCommandAndOpts(command, options)`. */
  function StringifyCommandAndOpts(command: string, opts: NormalizedOptions): (r: string)
    ensures opts.disableOnly || |opts.only| == 0 ==> r == command
    ensures !opts.disableOnly && |opts.only| > 0 ==> r == command + " --only=" + Join(opts.only, ",")
  {
    if opts.disableOnly then command
    else if |opts.only| > 0 then command + " --only=" + Join(opts.only, ",")
    else command
  }

  /** The emulator names can be read back from the `--only=` suffix when
      none of them holds a comma. */
  lemma OnlyRoundTrip(command: string, opts: NormalizedOptions)
    requires !opts.disableOnly && |opts.only| > 0
    requires forall i :: 0 <= i < |opts.only| ==> ',' !in opts.only[i]
    ensures var r := StringifyCommandAndOpts(command, opts);
      var suffix := r[|command| + 8..];
      r[..|command| + 8] == command + " --only=" && Split(suffix, ',') == opts.only
  {
    var r := StringifyCommandAndOpts(command, opts);
    assert r == (command + " --only=") + Join(opts.only, ",");
    assert r[|command| + 8..] == Join(opts.only, ",");
    SplitJoin(opts.only, ',');
  }

  /** The `readyWhenData` object, whose flag `isReady` sets. */
  class ReadyWhenData {
    const stringToMatch: string
    var found: bool

    constructor (stringToMatch: string)
      ensures this.stringToMatch == stringToMatch && !found
    {
      this.stringToMatch := stringToMatch;
      found := false;
    }

    /** `isReady(readyWhen, data)`: a non-empty chunk holding the marker sets
        the flag; nothing ever clears it. */
    method IsReady(data: Option<string>) returns (ready: bool)
      modifies this
      ensures found == (old(found) || Shows(data, stringToMatch))
      ensures ready == found
    {
      if data.Some? && |data.value| > 0 {
        if Contains(data.value, stringToMatch) {
          found := true;
        }
      }
      ready := found;
    }
  }

  /** A chunk that is present, non-empty and holds the marker. */
  predicate Shows(data: Option<string>, marker: string)
  {
    data.Some? && |data.value| > 0 && Contains(data.value, marker)
  }

  /** What the spawned process reports, in order. */
  datatype Event = Stdout(chunk: string) | Stderr(chunk: string) | Failed | Exited(code: int)

  /** The outcome of `startProcess`: the first event that resolves the
      promise decides; `None` when no event does and it stays pending.
      `found` is the marker's flag before the events. */
  function ProcessOutcome(events: seq<Event>, marker: Option<string>, found: bool): (r: Option<bool>)
    ensures marker.Some? && found && |events| > 0 && !events[0].Failed? ==> r == Some(events[0].Exited? ==> events[0].code == 0)
  {
    if |events| == 0 then None
    else
      match events[0]
      case Stdout(c) =>
        var found' := marker.Some? && (found || Shows(Some(c), marker.value));
        if marker.Some? && found' then Some(true) else ProcessOutcome(events[1..], marker, found')
      case Stderr(c) =>
        var found' := marker.Some? && (found || Shows(Some(c), marker.value));
        if marker.Some? && found' then Some(true) else ProcessOutcome(events[1..], marker, found')
      case Failed => Some(false)
      case Exited(code) =>
        if marker.None? || found then Some(code == 0) else ProcessOutcome(events[1..], marker, found)
  }

  /** The flag after the events: set once any chunk shows the marker. */
  function FoundAfter(events: seq<Event>, marker: string, found: bool): bool
  {
    if |events| == 0 then found
    else
      var e := events[0];
      FoundAfter(events[1..], marker, found || ((e.Stdout? || e.Stderr?) && Shows(Some(e.chunk), marker)))
  }

  /** `startProcess(command, cwd, readyWhen)` over the events of the spawned
      process: the listeners run for every event, but only the first
      resolution counts. */
  method StartProcess(events: seq<Event>, readyWhen: ReadyWhenData?) returns (outcome: Option<bool>)
    modifies readyWhen
    ensures readyWhen == null ==> outcome == ProcessOutcome(events, None, false)
    ensures readyWhen != null ==> outcome == ProcessOutcome(events, Some(readyWhen.stringToMatch), old(readyWhen.found))
    ensures readyWhen != null ==> readyWhen.found == FoundAfter(events, readyWhen.stringToMatch, old(readyWhen.found))
  {
    outcome := None;
    var i := 0;
    while i < |events|
      invariant i <= |events|
      invariant readyWhen == null ==>
        ProcessOutcome(events, None, false) ==
          if outcome.Some? then outcome else ProcessOutcome(events[i..], None, false)
      invariant readyWhen != null ==>
        ProcessOutcome(events, Some(readyWhen.stringToMatch), old(readyWhen.found)) ==
          if outcome.Some? then outcome else ProcessOutcome(events[i..], Some(readyWhen.stringToMatch), readyWhen.found)
      invariant readyWhen != null ==>
        FoundAfter(events, readyWhen.stringToMatch, old(readyWhen.found)) ==
          FoundAfter(events[i..], readyWhen.stringToMatch, readyWhen.found)
    {
      var e := events[i];
      assert events[i..][1..] == events[i + 1..];
      var resolved: Option<bool> := None;
      match e {
        case Stdout(c) =>
          if readyWhen != null {
            var ready := readyWhen.IsReady(Some(c));
            if ready {
              resolved := Some(true);
            }
          }
        case Stderr(c) =>
          if readyWhen != null {
            var ready := readyWhen.IsReady(Some(c));
            if ready {
              resolved := Some(true);
            }
          }
        case Failed =>
          resolved := Some(false);
        case Exited(code) =>
          if readyWhen == null {
            resolved := Some(code == 0);
          } else {
            var ready := readyWhen.IsReady(None);
            if ready {
              resolved := Some(code == 0);
            }
          }
      }
      if outcome.None? {
        outcome := resolved;
      }
      i := i + 1;
    }
  }

  /** Once a chunk has shown the marker, the process counts as started for
      good: whatever follows, the outcome is success. */
  lemma {:induction false} ReadyIsSticky(before: seq<Event>, chunk: string, after: seq<Event>, marker: string, found: bool)
    requires Shows(Some(chunk), marker)
    requires forall i :: 0 <= i < |before| ==> !before[i].Failed? && !before[i].Exited?
    ensures ProcessOutcome(before + [Stdout(chunk)] + after, Some(marker), found) == Some(true)
    ensures ProcessOutcome(before + [Stderr(chunk)] + after, Some(marker), found) == Some(true)
    decreases |before|
  {
    if |before| > 0 {
      assert (before + [Stdout(chunk)] + after)[1..] == before[1..] + [Stdout(chunk)] + after;
      assert (before + [Stderr(chunk)] + after)[1..] == before[1..] + [Stderr(chunk)] + after;
      var e := before[0];
      var found' := found || Shows(Some(e.chunk), marker);
      ReadyIsSticky(before[1..], chunk, after, marker, found');
    }
  }

  /** Without a marker the process resolves at its first error or exit, with
      success exactly for exit code 0; output never resolves it. */
  lemma {:induction false} WithoutMarker(output: seq<Event>, last: Event, after: seq<Event>)
    requires forall i :: 0 <= i < |output| ==> output[i].Stdout? || output[i].Stderr?
    requires last.Failed? || last.Exited?
    ensures ProcessOutcome(output + [last] + after, None, false) == Some(last.Exited? && last.code == 0)
    decreases |output|
  {
    if |output| > 0 {
      assert (output + [last] + after)[1..] == output[1..] + [last] + after;
      WithoutMarker(output[1..], last, after);
    }
  }

  /** With a marker never shown, an exit leaves the promise pending: only an
      error settles it. */
  lemma {:induction false} ExitBeforeReadyPends(events: seq<Event>, marker: string)
    requires forall i :: 0 <= i < |events| ==> !events[i].Failed?
    requires forall i :: 0 <= i < |events| ==> (events[i].Stdout? || events[i].Stderr?) ==> !Shows(Some(events[i].chunk), marker)
    ensures ProcessOutcome(events, Some(marker), false) == None
  {
    if |events| > 0 {
      ExitBeforeReadyPends(events[1..], marker);
    }
  }

  /** `runExecutor`: the command line to spawn and the marker object, or the
      configuration error. */
  method RunExecutor(options: Option<FirebaseExecutorSchema>) returns (r: Result<(string, string)>, readyWhen: ReadyWhenData?)
    ensures var opts := NormalizeOptions(options);
      && (r.Err? <==> CheckOptions(opts).Some?)
      && (r.Ok? ==> r.value == (StringifyCommandAndOpts(opts.command, opts), opts.cwd))
      && (r.Ok? ==> (readyWhen == null <==> opts.readyWhenData.None?))
      && (readyWhen != null ==> fresh(readyWhen) && readyWhen.stringToMatch == opts.readyWhen && !readyWhen.found)
  {
    var opts := NormalizeOptions(options);
    readyWhen := null;
    if opts.readyWhenData.Some? {
      readyWhen := new ReadyWhenData(opts.readyWhenData.value);
    }
    var check := CheckOptions(opts);
    if check.Some? {
      return Err(check.value), readyWhen;
    }
    r := Ok((StringifyCommandAndOpts(opts.command, opts), opts.cwd));
  }
}
