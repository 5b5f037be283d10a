/** The `killable-run` executor of nx-firebase: option normalisation (mutating
    the options object in place), the configuration checks, ready-marker
    matching over a shared status array, and how the results of serial and
    parallel runs are combined. Processes are oracles: each command's
    outcome is an input. */
module KillableRun {
  import opened Wrappers
  import opened Text
  import opened Records
  import opened Paths
  import opened KillableRunArgs

  // ---------------------------------------------------------------------
  // Ready markers

  /** One `readyWhen` marker and whether it has been seen. */
  datatype ReadyStatus = ReadyStatus(stringToMatch: string, found: bool)

  /** The position of the first marker occurring in `data`, or |s|. */
  function FirstMatch(s: seq<ReadyStatus>, data: string): (k: nat)
    ensures k <= |s|
    ensures forall j :: 0 <= j < k ==> !Contains(data, s[j].stringToMatch)
    ensures k < |s| ==> Contains(data, s[k].stringToMatch)
  {
    if |s| == 0 then 0
    else if Contains(data, s[0].stringToMatch) then 0
    else 1 + FirstMatch(s[1..], data)
  }

  /** The markers after a chunk of output: the first marker occurring in it is
      flagged, whether or not it was flagged already, and the scan stops. */
  function MarkFirst(s: seq<ReadyStatus>, data: string): seq<ReadyStatus>
  {
    var k := FirstMatch(s, data);
    if k < |s| then s[k := s[k].(found := true)] else s
  }

  /** `readyWhenStatus.every((r) => r.found)`. */
  predicate AllFound(s: seq<ReadyStatus>)
  {
    forall i :: 0 <= i < |s| ==> s[i].found
  }

  lemma {:induction false} FirstMatchAt(s: seq<ReadyStatus>, data: string, i: nat)
    requires i < |s| && Contains(data, s[i].stringToMatch)
    requires forall j :: 0 <= j < i ==> !Contains(data, s[j].stringToMatch)
    ensures FirstMatch(s, data) == i
  {
    if i > 0 {
      FirstMatchAt(s[1..], data, i - 1);
    }
  }

  /** `isReady(readyWhenStatus, data)`: with non-empty data, flags the first
      marker found in it and stops; then reports whether every marker has
      been found. The array is shared by all processes of a parallel run. */
  method IsReady(status: array<ReadyStatus>, data: Option<string>) returns (ready: bool)
    modifies status
    ensures status[..] == if data.Some? && data.value != "" then MarkFirst(old(status[..]), data.value) else old(status[..])
    ensures ready == AllFound(status[..])
  {
    if data.Some? && data.value != "" {
      var i := 0;
      while i < status.Length
        invariant i <= status.Length
        invariant status[..] == old(status[..])
        invariant forall j :: 0 <= j < i ==> !Contains(data.value, status[j].stringToMatch)
      {
        if Contains(data.value, status[i].stringToMatch) {
          FirstMatchAt(status[..], data.value, i);
          status[i] := status[i].(found := true);
          break;
        }
        i := i + 1;
      }
    }
    ready := true;
    var j := 0;
    while j < status.Length
      invariant j <= status.Length
      invariant ready == forall k :: 0 <= k < j ==> status[k].found
    {
      ready := ready && status[j].found;
      j := j + 1;
    }
  }

  /** At most one marker changes per chunk, and it is the first one occurring
      in the chunk; markers are never unflagged and their strings never
      change. */
  lemma MarkFirstChangesOne(s: seq<ReadyStatus>, data: string, i: nat)
    requires i < |s|
    ensures |MarkFirst(s, data)| == |s|
    ensures MarkFirst(s, data)[i].stringToMatch == s[i].stringToMatch
    ensures s[i].found ==> MarkFirst(s, data)[i].found
    ensures MarkFirst(s, data)[i] != s[i] ==>
      Contains(data, s[i].stringToMatch) && forall j :: 0 <= j < i ==> !Contains(data, s[j].stringToMatch)
  {
  }

  /** With no markers the run is ready at once. */
  lemma NoMarkersReady(data: string)
    ensures AllFound(MarkFirst([], data))
  {
  }

  /** The scan stops at the first occurring marker even when that one is
      already flagged: a chunk holding two markers never flags the second
      once the first has been seen. */
  lemma MarkFirstStopsAtFlagged(a: string, b: string, data: string)
    requires Contains(data, a) && Contains(data, b)
    ensures MarkFirst([ReadyStatus(a, true), ReadyStatus(b, false)], data) ==
      [ReadyStatus(a, true), ReadyStatus(b, false)]
  {
    var s := [ReadyStatus(a, true), ReadyStatus(b, false)];
    FirstMatchAt(s, data, 0);
  }

  /** A chunk holding every marker that is not flagged yet, and none of the
      flagged ones, flags exactly the first unflagged marker. */
  lemma MarkFirstFlagsNext(s: seq<ReadyStatus>, data: string, i: nat)
    requires i < |s| && !s[i].found && Contains(data, s[i].stringToMatch)
    requires forall j :: 0 <= j < i ==> s[j].found && !Contains(data, s[j].stringToMatch)
    ensures MarkFirst(s, data) == s[i := ReadyStatus(s[i].stringToMatch, true)]
  {
    FirstMatchAt(s, data, i);
  }

  // ---------------------------------------------------------------------
  // Option shapes

  /** `options.readyWhen`: absent, a string, or a list of strings. */
  datatype ReadyWhenOption = ReadyWhenAbsent | ReadyWhenText(text: string) | ReadyWhenList(items: seq<string>)

  /** `options.command`: absent, a string, or a list of words. */
  datatype CommandOption = CommandAbsent | CommandText(text: string) | CommandList(words: seq<string>) {
    predicate Truthy()
    {
      CommandList? || (CommandText? && text != "")
    }
  }

  /** `options.args`: absent, a string, or a list of arguments. */
  datatype ArgsOption = ArgsAbsent | ArgsText(text: string) | ArgsList(items: seq<string>)

  /** A command object of `options.commands`; `command` becomes `undefined`
      when interpolation forwards nothing. */
  datatype CommandConfig = CommandConfig(command: Option<string>, forwardAllArgs: Option<bool>,
                                         prefix: string, color: string, bgColor: string)
  {
    /** `c.prefix || c.color || c.bgColor`. */
    predicate Decorated()
    {
      prefix != "" || color != "" || bgColor != ""
    }
  }

  /** An entry of `options.commands`: a bare string or a command object. */
  datatype CommandEntry = Bare(text: string) | Configured(config: CommandConfig)

  /** `{ command: c }` for a bare string, the object itself otherwise. */
  function AsConfig(e: CommandEntry): (c: CommandConfig)
    ensures e.Bare? ==> c.command == Some(e.text) && !c.Decorated() && c.forwardAllArgs.None?
  {
    match e
    case Bare(t) => CommandConfig(Some(t), None, "", "", "")
    case Configured(c) => c
  }

  const ReadyWhenMapFailure := TypeError("options.readyWhen?.map is not a function")
  const CommandsMapFailure := TypeError("Cannot read properties of undefined (reading 'map')")
  const ReadyWhenNeedsParallel :=
    Error("ERROR: Bad executor config: \"readyWhen\" can only be used when \"parallel=true\".")
  const DecorationNeedsParallel :=
    Error("ERROR: Bad executor config: \"prefix\", \"color\", and \"bgColor\" can only be used when \"parallel=true\".")

  /** The markers a `readyWhen` option stands for, none of them found yet.
      An empty string is falsy and has no `map`, so it throws. */
  function ReadyWhenStatusOf(rw: ReadyWhenOption): (r: Result<seq<ReadyStatus>>)
    ensures rw.ReadyWhenText? && rw.text != "" ==> r == Ok([ReadyStatus(rw.text, false)])
    ensures rw.ReadyWhenText? && rw.text == "" ==> r == Err(ReadyWhenMapFailure)
    ensures rw.ReadyWhenAbsent? ==> r == Ok([])
    ensures rw.ReadyWhenList? ==>
      (r.Ok? && |r.value| == |rw.items| &&
       forall i :: 0 <= i < |rw.items| ==> r.value[i] == ReadyStatus(rw.items[i], false))
  {
    match rw
    case ReadyWhenText(t) => if t != "" then Ok([ReadyStatus(t, false)]) else Err(ReadyWhenMapFailure)
    case ReadyWhenAbsent => Ok([])
    case ReadyWhenList(items) => Ok(Unfound(items))
  }

  function Unfound(items: seq<string>): (r: seq<ReadyStatus>)
    ensures |r| == |items| && forall i :: 0 <= i < |items| ==> r[i] == ReadyStatus(items[i], false)
  {
    if |items| == 0 then [] else [ReadyStatus(items[0], false)] + Unfound(items[1..])
  }

  /** Every command entry as a command object. */
  function AsConfigs(es: seq<CommandEntry>): (r: seq<CommandEntry>)
    ensures |r| == |es|
    ensures forall i :: 0 <= i < |es| ==> r[i] == Configured(AsConfig(es[i]))
  {
    if |es| == 0 then [] else [Configured(AsConfig(es[0]))] + AsConfigs(es[1..])
  }

  /** The command entries after normalisation, before interpolation: a truthy
      `command` (a list joined by spaces) is the only command; otherwise the
      `commands` list, which must be present. */
  function CommandsOf(command: CommandOption, commands: Option<seq<CommandEntry>>): (r: Result<seq<CommandEntry>>)
    ensures command.Truthy() ==>
      (r.Ok? && |r.value| == 1 &&
       r.value[0] == Configured(CommandConfig(Some(if command.CommandList? then Join(command.words, " ") else command.text), None, "", "", "")))
    ensures !command.Truthy() ==> (r.Ok? <==> commands.Some?)
    ensures !command.Truthy() && commands.Some? ==> r.value == AsConfigs(commands.value)
  {
    if command.Truthy() then
      var text := if command.CommandList? then Join(command.words, " ") else command.text;
      Ok([Configured(CommandConfig(Some(text), None, "", "", ""))])
    else if commands.Some? then Ok(AsConfigs(commands.value))
    else Err(CommandsMapFailure)
  }

  /** The first read of a missing command, `command.indexOf('{args.')`. */
  const ReadIndexOfUndefined := "Cannot read properties of undefined (reading 'indexOf')"

  /** `c.command = interpolateArgsIntoCommand(c.command, options, c.forwardAllArgs ?? options.forwardAllArgs ?? true)`;
      a command object without `command` throws. */
  function InterpolateCommand(e: CommandEntry, unknown: Record<ArgValue>, parsed: Record<ArgValue>,
                              unparsed: seq<string>, forwardAllArgs: Option<bool>): (r: Result<CommandEntry>)
    ensures r.Ok? <==> AsConfig(e).command.Some?
    ensures r.Ok? ==> r.value.Configured? && r.value.config == AsConfig(e).(command := r.value.config.command)
  {
    var c := AsConfig(e);
    if c.command.None? then Err(TypeError(ReadIndexOfUndefined))
    else
      var forward := c.forwardAllArgs.GetOr(forwardAllArgs.GetOr(true));
      Ok(Configured(c.(command := InterpolateArgsIntoCommand(c.command.value, unknown, parsed, unparsed, forward))))
  }

  const StatusKey := "readyWhenStatus"

  /** `String(v)` of a list of `n` marker objects. */
  function ObjectListText(n: nat): string
  {
    if n == 0 then "" else if n == 1 then "[object Object]" else "[object Object]," + ObjectListText(n - 1)
  }

  /** `unknownOptions`: the keys of the options object that are neither the
      executor's own nor set by `__unparsed__`, in key order. `others` are
      those the caller's options bring. `readyWhenStatus` is assigned by
      `normalizeOptions` before the keys are read and is not one of the
      executor's own keys, so it follows them, holding the marker list,
      unless `__unparsed__` sets it. */
  function UnknownOptions(others: Record<ArgValue>, statusInUnparsed: bool, markers: nat): Record<ArgValue>
  {
    if statusInUnparsed then others else others + [(StatusKey, Obj(ObjectListText(markers)))]
  }

  /** Unless `__unparsed__` sets it, `readyWhenStatus` is an unknown option
      holding an object, after the caller's own, which keep their order. */
  lemma StatusIsUnknownObject(others: Record<ArgValue>, statusInUnparsed: bool, markers: nat)
    requires !HasKey(others, StatusKey)
    ensures var r := UnknownOptions(others, statusInUnparsed, markers);
      && (statusInUnparsed ==> r == others)
      && (!statusInUnparsed ==> |r| == |others| + 1 && r[..|others|] == others && Keys(r) == Keys(others) + [StatusKey])
      && (!statusInUnparsed ==> HasKey(r, StatusKey) && Get(r, StatusKey).value.IsObject())
  {
    if !statusInUnparsed {
      var r := UnknownOptions(others, false, markers);
      assert r[..|others|] == others;
      KeysAppend(others, (StatusKey, Obj(ObjectListText(markers))));
      StatusLast(others, Obj(ObjectListText(markers)));
    }
  }

  lemma {:induction false} KeysAppend(others: Record<ArgValue>, e: (string, ArgValue))
    ensures Keys(others + [e]) == Keys(others) + [e.0]
  {
    if |others| > 0 {
      assert (others + [e])[1..] == others[1..] + [e];
      KeysAppend(others[1..], e);
    }
  }

  /** Looking up a key appended after the others finds the appended value. */
  lemma {:induction false} StatusLast(others: Record<ArgValue>, v: ArgValue)
    requires !HasKey(others, StatusKey)
    ensures Get(others + [(StatusKey, v)], StatusKey) == Some(v)
  {
    if |others| > 0 {
      assert Keys(others) == [others[0].0] + Keys(others[1..]);
      assert (others + [(StatusKey, v)])[1..] == others[1..] + [(StatusKey, v)];
      StatusLast(others[1..], v);
    }
  }

  /** The appended marker list is an object, so it forwards no
      `--name=value` argument of its own. */
  lemma {:induction false} StatusAddsNoArgument(others: Record<ArgValue>, parsed: Record<ArgValue>, text: string)
    ensures UnknownOptionArgs(others + [(StatusKey, Obj(text))], parsed) == UnknownOptionArgs(others, parsed)
  {
    if |others| == 0 {
      assert others + [(StatusKey, Obj(text))] == [(StatusKey, Obj(text))];
    } else {
      assert (others + [(StatusKey, Obj(text))])[1..] == others[1..] + [(StatusKey, Obj(text))];
      StatusAddsNoArgument(others[1..], parsed, text);
    }
  }

  /** Because of the marker list, a command without placeholders always
      gets the filtered `__unparsed__` arguments when arguments are
      forwarded, even when the caller brought no unknown option: the
      `return command` branch is never taken. */
  lemma UnparsedForwardedWithoutUnknowns(command: string, parsed: Record<ArgValue>, unparsed: seq<string>, markers: nat)
    requires !Contains(command, ArgsMarker)
    requires |unparsed| > 0 && |Filtered(unparsed, parsed)| > 0
    ensures InterpolateArgsIntoCommand(command, UnknownOptions([], false, markers), parsed, unparsed, true)
      == Some(command + " " + Join(WrapAll(Filtered(unparsed, parsed)), " "))
  {
    var u := UnknownOptions([], false, markers);
    var kept := Filtered(unparsed, parsed);
    StatusAddsNoArgument([], parsed, ObjectListText(markers));
    assert u == [] + [(StatusKey, Obj(ObjectListText(markers)))];
    assert UnknownOptionArgs(u, parsed) == [];
    ForwardWithoutOptionArgs(command, u, parsed, unparsed);
  }

  /** Forwarding with unknown options of which none becomes an argument:
      the command followed by the filtered, quoted `__unparsed__` items. */
  lemma ForwardWithoutOptionArgs(command: string, unknown: Record<ArgValue>, parsed: Record<ArgValue>, unparsed: seq<string>)
    requires !Contains(command, ArgsMarker)
    requires |unknown| > 0 && UnknownOptionArgs(unknown, parsed) == []
    requires |unparsed| > 0 && |Filtered(unparsed, parsed)| > 0
    ensures InterpolateArgsIntoCommand(command, unknown, parsed, unparsed, true)
      == Some(command + " " + Join(WrapAll(Filtered(unparsed, parsed)), " "))
  {
    assert Join(UnknownOptionArgs(unknown, parsed), " ") == "" by {
      assert Join([], " ") == "";
    }
    var rest := Join(WrapAll(Filtered(unparsed, parsed)), " ");
    ConcatAssoc(command, rest);
  }

  lemma ConcatAssoc(command: string, rest: string)
    ensures command + (("" + " ") + rest) == command + " " + rest
  {
    assert "" + " " == " ";
  }

  /** `options.args`, a list being joined by spaces. */
  function JoinedArgs(args: ArgsOption): (r: ArgsOption)
    ensures !r.ArgsList?
    ensures args.ArgsList? ==> r == ArgsText(Join(args.items, " "))
    ensures !args.ArgsList? ==> r == args
  {
    match args
    case ArgsList(items) => ArgsText(Join(items, " "))
    case _ => args
  }

  // ---------------------------------------------------------------------
  // The options object

  /** The options object of an executor call, normalised in place. The
      yargs results (`parsedArgs`, whether `__unparsed__` sets
      `readyWhenStatus`) and the caller's own unknown options are inputs;
      `unknownOptions` is built from them by `UnknownOptions`. */
  class KillableRunOptions {
    var command: CommandOption
    var commands: Option<seq<CommandEntry>>
    var parallel: bool
    var readyWhen: ReadyWhenOption
    var forwardAllArgs: Option<bool>
    var args: ArgsOption
    var unparsed: seq<string>
    var readyWhenStatus: array<ReadyStatus>

    constructor (command: CommandOption, commands: Option<seq<CommandEntry>>, parallel: bool,
                 readyWhen: ReadyWhenOption, forwardAllArgs: Option<bool>, args: ArgsOption, unparsed: seq<string>)
      ensures this.command == command && this.commands == commands && this.parallel == parallel
      ensures this.readyWhen == readyWhen && this.forwardAllArgs == forwardAllArgs
      ensures this.args == args && this.unparsed == unparsed
      ensures readyWhenStatus.Length == 0
    {
      this.command := command;
      this.commands := commands;
      this.parallel := parallel;
      this.readyWhen := readyWhen;
      this.forwardAllArgs := forwardAllArgs;
      this.args := args;
      this.unparsed := unparsed;
      readyWhenStatus := new ReadyStatus[0];
    }

    /** `normalizeOptions(options)`: builds the marker array, the command
        list and `parallel`, joins `args`, then interpolates arguments into
        every command in order, stopping at the first that throws. */
    method Normalize(others: Record<ArgValue>, statusInUnparsed: bool, parsed: Record<ArgValue>) returns (failure: Option<Failure>)
      requires !HasKey(others, StatusKey)
      modifies this
      ensures ReadyWhenStatusOf(readyWhen).Err? ==> failure == Some(ReadyWhenStatusOf(readyWhen).failure)
      ensures ReadyWhenStatusOf(readyWhen).Ok? ==> fresh(readyWhenStatus) && readyWhenStatus[..] == ReadyWhenStatusOf(readyWhen).value
      ensures ReadyWhenStatusOf(readyWhen).Ok? && CommandsOf(command, old(commands)).Err? ==>
        failure == Some(CommandsOf(command, old(commands)).failure)
      ensures ReadyWhenStatusOf(readyWhen).Ok? && CommandsOf(command, old(commands)).Ok? ==>
        var before := CommandsOf(command, old(commands)).value;
        && parallel == (if command.Truthy() then readyWhenStatus.Length > 0 else old(parallel))
        && args == JoinedArgs(old(args))
        && commands.Some? && |commands.value| == |before|
        && (failure.None? <==> forall i :: 0 <= i < |before| ==> AsConfig(before[i]).command.Some?)
        && (failure.None? ==> forall i :: 0 <= i < |before| ==>
              commands.value[i] == InterpolateCommand(before[i],
                UnknownOptions(others, statusInUnparsed, |ReadyWhenStatusOf(readyWhen).value|), parsed, unparsed, forwardAllArgs).value)
      ensures command == old(command) && readyWhen == old(readyWhen) && unparsed == old(unparsed)
      ensures forwardAllArgs == old(forwardAllArgs)
      ensures failure.Some? ==> failure.value.TypeError?
    {
      var status := ReadyWhenStatusOf(readyWhen);
      if status.Err? {
        return Some(status.failure);
      }
      readyWhenStatus := new ReadyStatus[|status.value|](i requires 0 <= i < |status.value| => status.value[i]);
      var cs := CommandsOf(command, commands);
      if cs.Err? {
        return Some(cs.failure);
      }
      commands := Some(cs.value);
      if command.Truthy() {
        parallel := readyWhenStatus.Length > 0;
      }
      args := JoinedArgs(args);
      var unknown := UnknownOptions(others, statusInUnparsed, |status.value|);
      failure := InterpolateAll(unknown, parsed);
    }

    /** The `commands.forEach` of `normalizeOptions`: every command gets the
        arguments interpolated, in order; the first that throws stops the
        loop. Nothing but the command list changes. */
    method InterpolateAll(unknown: Record<ArgValue>, parsed: Record<ArgValue>) returns (failure: Option<Failure>)
      requires commands.Some?
      modifies this
      ensures var before := old(commands.value);
        && commands.Some? && |commands.value| == |before|
        && (failure.None? <==> forall i :: 0 <= i < |before| ==> AsConfig(before[i]).command.Some?)
        && (failure.None? ==> forall i :: 0 <= i < |before| ==>
              commands.value[i] == InterpolateCommand(before[i], unknown, parsed, unparsed, forwardAllArgs).value)
      ensures command == old(command) && parallel == old(parallel) && readyWhen == old(readyWhen)
      ensures forwardAllArgs == old(forwardAllArgs) && args == old(args) && unparsed == old(unparsed)
      ensures readyWhenStatus == old(readyWhenStatus)
      ensures failure.Some? ==> failure.value.TypeError?
    {
      var before := commands.value;
      var current := before;
      var i := 0;
      while i < |current|
        invariant i <= |current| == |before|
        invariant command == old(command) && parallel == old(parallel) && readyWhen == old(readyWhen)
        invariant forwardAllArgs == old(forwardAllArgs) && args == old(args) && unparsed == old(unparsed)
        invariant readyWhenStatus == old(readyWhenStatus)
        invariant commands == Some(current)
        invariant current[i..] == before[i..]
        invariant forall j :: 0 <= j < i ==> AsConfig(before[j]).command.Some?
        invariant forall j :: 0 <= j < i ==>
          current[j] == InterpolateCommand(before[j], unknown, parsed, unparsed, forwardAllArgs).value
      {
        var next := InterpolateCommand(current[i], unknown, parsed, unparsed, forwardAllArgs);
        if next.Err? {
          return Some(next.failure);
        }
        current := current[i := next.value];
        commands := Some(current);
        i := i + 1;
      }
      failure := None;
    }

    /** The executor up to the choice of how to run: normalisation, then the
        two checks, then serial or parallel running; in parallel, markers
        make the first process to settle decide. */
    method Execute(others: Record<ArgValue>, statusInUnparsed: bool, parsed: Record<ArgValue>) returns (r: Result<RunMode>)
      requires !HasKey(others, StatusKey)
      modifies this
      ensures r.Ok? ==> commands.Some? && CheckConfig().None?
      ensures r.Ok? ==> readyWhenStatus.Length == 0 || parallel
      ensures r.Ok? ==> r.value == (if !parallel then Serially else if readyWhenStatus.Length > 0 then RaceToReady else AllSettled)
      ensures r.Err? ==> r.failure.TypeError? || r.failure == ReadyWhenNeedsParallel || r.failure == DecorationNeedsParallel
    {
      var failure := Normalize(others, statusInUnparsed, parsed);
      if failure.Some? {
        return Err(failure.value);
      }
      var check := CheckConfig();
      if check.Some? {
        return Err(check.value);
      }
      if !parallel {
        r := Ok(Serially);
      } else if readyWhenStatus.Length > 0 {
        r := Ok(RaceToReady);
      } else {
        r := Ok(AllSettled);
      }
    }

    /** The two configuration checks after normalisation, in order. */
    function CheckConfig(): (r: Option<Failure>)
      reads this, readyWhenStatus
      requires commands.Some?
      ensures r == Some(ReadyWhenNeedsParallel) <==> readyWhenStatus.Length > 0 && !parallel
      ensures r == Some(DecorationNeedsParallel) <==>
        (readyWhenStatus.Length == 0 || parallel) && !parallel &&
        exists i :: 0 <= i < |commands.value| && AsConfig(commands.value[i]).Decorated()
      ensures r.None? <==> parallel || (readyWhenStatus.Length == 0 && !AnyDecorated(commands.value))
    {
      if readyWhenStatus.Length > 0 && !parallel then Some(ReadyWhenNeedsParallel)
      else if AnyDecorated(commands.value) && !parallel then Some(DecorationNeedsParallel)
      else None
    }
  }

  /** How the normalised commands are run. */
  datatype RunMode = Serially | AllSettled | RaceToReady

  /** `commands.find((c) => c.prefix || c.color || c.bgColor)` finds one. */
  predicate AnyDecorated(cs: seq<CommandEntry>)
  {
    exists i :: 0 <= i < |cs| && AsConfig(cs[i]).Decorated()
  }

  // ---------------------------------------------------------------------
  // Running

  /** What a finished process reports. */
  datatype ProcessResult = ProcessResult(success: bool, terminalOutput: string)

  /** What the executor reports. */
  datatype RunResult = RunResult(success: bool, terminalOutput: string)

  /** The warning for a command that failed; an `undefined` command renders
      as such. */
  function FailureWarning(command: Option<string>): string
  {
    "Warning: command " + (if command.Some? then command.value else "undefined") + " exited with non-zero status code"
  }

  /** The outputs of the results, concatenated. */
  function Outputs(rs: seq<ProcessResult>): string
  {
    if |rs| == 0 then "" else rs[0].terminalOutput + Outputs(rs[1..])
  }

  /** The number of leading successful results. */
  function SucceededPrefix(rs: seq<ProcessResult>): (n: nat)
    ensures n <= |rs|
    ensures forall i :: 0 <= i < n ==> rs[i].success
    ensures n < |rs| ==> !rs[n].success
  {
    if |rs| == 0 || !rs[0].success then 0 else 1 + SucceededPrefix(rs[1..])
  }

  lemma {:induction false} OutputsSnoc(rs: seq<ProcessResult>, r: ProcessResult)
    ensures Outputs(rs + [r]) == Outputs(rs) + r.terminalOutput
  {
    if |rs| > 0 {
      OutputsSnoc(rs[1..], r);
      assert (rs + [r])[1..] == rs[1..] + [r];
    }
  }

  /** `runSerially`: commands run one after another, each process started
      only after the previous one succeeded; the first failure ends the run.
      `results[i]` is what the i-th command's process reports. The warning
      for a failed command is appended to that process's own output, not to
      the returned output. */
  method RunSerially(commands: seq<CommandConfig>, results: seq<ProcessResult>) returns (r: RunResult, started: nat)
    requires |results| == |commands|
    ensures started == if SucceededPrefix(results) < |results| then SucceededPrefix(results) + 1 else |results|
    ensures r.success <==> forall i :: 0 <= i < |results| ==> results[i].success
    ensures r.terminalOutput == Outputs(results[..started])
  {
    var terminalOutput := "";
    var i := 0;
    while i < |commands|
      invariant i <= |commands|
      invariant forall j :: 0 <= j < i ==> results[j].success
      invariant terminalOutput == Outputs(results[..i])
    {
      var result := results[i];
      assert results[..i + 1] == results[..i] + [result];
      OutputsSnoc(results[..i], result);
      terminalOutput := terminalOutput + result.terminalOutput;
      if !result.success {
        SucceededPrefixAt(results, i);
        return RunResult(false, terminalOutput), i + 1;
      }
      i := i + 1;
    }
    SucceededPrefixAll(results);
    assert results[..i] == results;
    return RunResult(true, terminalOutput), i;
  }

  lemma {:induction false} SucceededPrefixAt(rs: seq<ProcessResult>, i: nat)
    requires i < |rs| && !rs[i].success && forall j :: 0 <= j < i ==> rs[j].success
    ensures SucceededPrefix(rs) == i
  {
    if i > 0 {
      SucceededPrefixAt(rs[1..], i - 1);
    }
  }

  lemma {:induction false} SucceededPrefixAll(rs: seq<ProcessResult>)
    requires forall j :: 0 <= j < |rs| ==> rs[j].success
    ensures SucceededPrefix(rs) == |rs|
  {
    if |rs| > 0 {
      SucceededPrefixAll(rs[1..]);
    }
  }

  /** The warnings for the failed commands, in command order. */
  function FailedWarnings(commands: seq<CommandConfig>, results: seq<ProcessResult>): (ws: seq<string>)
    requires |results| == |commands|
    ensures |ws| == 0 <==> forall i :: 0 <= i < |results| ==> results[i].success
  {
    if |commands| == 0 then []
    else
      var rest := FailedWarnings(commands[1..], results[1..]);
      if results[0].success then rest else [FailureWarning(commands[0].command)] + rest
  }

  /** `runInParallel` without markers (`Promise.all`): every output in
      command order, then one warning per failed command joined by "\r\n";
      success when none failed. */
  function ParallelAll(commands: seq<CommandConfig>, results: seq<ProcessResult>): (r: RunResult)
    requires |results| == |commands|
    ensures r.success <==> forall i :: 0 <= i < |results| ==> results[i].success
    ensures StartsWith(r.terminalOutput, Outputs(results))
  {
    var warnings := FailedWarnings(commands, results);
    if |warnings| > 0 then RunResult(false, Outputs(results) + Join(warnings, "\r\n"))
    else RunResult(true, Outputs(results))
  }

  /** `runInParallel` with markers (`Promise.race`): the first process to
      settle decides; `winner` names it. */
  function ParallelRace(commands: seq<CommandConfig>, results: seq<ProcessResult>, winner: nat): (r: RunResult)
    requires |results| == |commands| && winner < |commands|
    ensures r.success == results[winner].success
    ensures r.terminalOutput == results[winner].terminalOutput +
      (if results[winner].success then "" else FailureWarning(commands[winner].command))
  {
    var w := results[winner];
    if w.success then RunResult(true, w.terminalOutput)
    else RunResult(false, w.terminalOutput + FailureWarning(commands[winner].command))
  }

  /** One warning per failed command: the warnings name the failed commands
      in order. */
  lemma {:induction false} FailedWarningsCount(commands: seq<CommandConfig>, results: seq<ProcessResult>)
    requires |results| == |commands|
    ensures |FailedWarnings(commands, results)| == |Failures(results)|
    ensures forall i :: 0 <= i < |Failures(results)| ==>
      FailedWarnings(commands, results)[i] == FailureWarning(commands[Failures(results)[i]].command)
  {
    if |commands| > 0 {
      FailedWarningsCount(commands[1..], results[1..]);
      FailedWarningsStep(commands, results);
    }
  }

  /** The step of `FailedWarningsCount`: the warnings of the tail, shifted
      by one position, follow the head's warning. */
  lemma FailedWarningsStep(commands: seq<CommandConfig>, results: seq<ProcessResult>)
    requires |results| == |commands| > 0
    requires |FailedWarnings(commands[1..], results[1..])| == |Failures(results[1..])|
    requires forall i :: 0 <= i < |Failures(results[1..])| ==>
      FailedWarnings(commands[1..], results[1..])[i] == FailureWarning(commands[1..][Failures(results[1..])[i]].command)
    ensures |FailedWarnings(commands, results)| == |Failures(results)|
    ensures forall i :: 0 <= i < |Failures(results)| ==>
      FailedWarnings(commands, results)[i] == FailureWarning(commands[Failures(results)[i]].command)
  {
    var rest := Failures(results[1..]);
    assert forall k :: 0 <= k < |commands| - 1 ==> commands[1..][k] == commands[k + 1];
  }

  /** `r` lists exactly the positions of the failed results, in increasing
      order. */
  predicate FailedPositions(rs: seq<ProcessResult>, r: seq<nat>)
  {
    && (forall i :: 0 <= i < |r| ==> r[i] < |rs| && !rs[r[i]].success)
    && (forall i, j :: 0 <= i < j < |r| ==> r[i] < r[j])
    && (forall k :: 0 <= k < |rs| && !rs[k].success ==> k in r)
  }

  /** The positions of the failed results, in increasing order. */
  function Failures(rs: seq<ProcessResult>): (r: seq<nat>)
    ensures FailedPositions(rs, r)
  {
    if |rs| == 0 then []
    else
      var rest := Failures(rs[1..]);
      var shifted := Shift(rest);
      ShiftedPositions(rs, rest);
      if rs[0].success then shifted else [0] + shifted
  }

  /** The failed positions of the tail, shifted by one, are those of the
      whole list after the head. */
  lemma ShiftedPositions(rs: seq<ProcessResult>, rest: seq<nat>)
    requires |rs| > 0 && FailedPositions(rs[1..], rest)
    ensures FailedPositions(rs, if rs[0].success then Shift(rest) else [0] + Shift(rest))
  {
    ShiftedFailed(rs, rest);
    ShiftedCovers(rs, rest);
    if rs[0].success {
      SuccessHead(rs, Shift(rest));
    } else {
      FailedHead(rs, Shift(rest));
    }
  }

  lemma SuccessHead(rs: seq<ProcessResult>, shifted: seq<nat>)
    requires |rs| > 0 && rs[0].success
    requires forall i :: 0 <= i < |shifted| ==> 1 <= shifted[i] < |rs| && !rs[shifted[i]].success
    requires forall i, j :: 0 <= i < j < |shifted| ==> shifted[i] < shifted[j]
    requires forall k :: 1 <= k < |rs| && !rs[k].success ==> k in shifted
    ensures FailedPositions(rs, shifted)
  {
  }

  lemma FailedHead(rs: seq<ProcessResult>, shifted: seq<nat>)
    requires |rs| > 0 && !rs[0].success
    requires forall i :: 0 <= i < |shifted| ==> 1 <= shifted[i] < |rs| && !rs[shifted[i]].success
    requires forall i, j :: 0 <= i < j < |shifted| ==> shifted[i] < shifted[j]
    requires forall k :: 1 <= k < |rs| && !rs[k].success ==> k in shifted
    ensures FailedPositions(rs, [0] + shifted)
  {
    var r := [0] + shifted;
    forall k | 0 <= k < |rs| && !rs[k].success
      ensures k in r
    {
      if k > 0 {
        assert k in shifted;
      }
    }
  }

  lemma ShiftedFailed(rs: seq<ProcessResult>, rest: seq<nat>)
    requires |rs| > 0 && FailedPositions(rs[1..], rest)
    ensures forall i :: 0 <= i < |Shift(rest)| ==> 1 <= Shift(rest)[i] < |rs| && !rs[Shift(rest)[i]].success
  {
    forall i | 0 <= i < |rest|
      ensures !rs[rest[i] + 1].success
    {
      assert rs[1..][rest[i]] == rs[rest[i] + 1];
    }
  }

  lemma ShiftedCovers(rs: seq<ProcessResult>, rest: seq<nat>)
    requires |rs| > 0 && FailedPositions(rs[1..], rest)
    ensures forall k :: 1 <= k < |rs| && !rs[k].success ==> k in Shift(rest)
  {
    var shifted := Shift(rest);
    forall k | 1 <= k < |rs| && !rs[k].success
      ensures k in shifted
    {
      assert rs[1..][k - 1] == rs[k];
      assert k - 1 in rest;
      var m := IndexOf(rest, k - 1);
      assert shifted[m] == k;
    }
  }

  /** A position of an element. */
  function IndexOf(xs: seq<nat>, x: nat): (m: nat)
    requires x in xs
    ensures m < |xs| && xs[m] == x
  {
    if xs[0] == x then 0 else 1 + IndexOf(xs[1..], x)
  }

  function Shift(xs: seq<nat>): (r: seq<nat>)
    ensures |r| == |xs| && forall i :: 0 <= i < |xs| ==> r[i] == xs[i] + 1
  {
    if |xs| == 0 then [] else [xs[0] + 1] + Shift(xs[1..])
  }

  // ---------------------------------------------------------------------
  // Working directory

  /** `calculateCwd(cwd, context)`: no working directory means the workspace
      root, an absolute one is kept, a relative one is joined to the root. */
  function CalculateCwd(cwd: Option<string>, root: string): (r: string)
    ensures cwd.None? || cwd.value == "" ==> r == root
    ensures cwd.Some? && cwd.value != "" && cwd.value[0] == '/' ==> r == cwd.value
    ensures cwd.Some? && cwd.value != "" && cwd.value[0] != '/' ==> r == PathJoin([root, cwd.value])
  {
    if cwd.None? || cwd.value == "" then root
    else if cwd.value[0] == '/' then cwd.value
    else PathJoin([root, cwd.value])
  }

  /** A relative working directory of plain segments lands below a root of
      plain segments. */
  lemma CalculateCwdBelowRoot(root: seq<string>, cwd: seq<string>)
    requires |root| > 0 && |cwd| > 0
    requires forall i :: 0 <= i < |root| ==> PlainSegment(root[i])
    requires forall i :: 0 <= i < |cwd| ==> PlainSegment(cwd[i])
    ensures CalculateCwd(Some(Join(cwd, "/")), Join(root, "/")) == Join(root + cwd, "/")
  {
    var a := Join(root, "/");
    var b := Join(cwd, "/");
    var all := root + cwd;
    JoinFirstChar(cwd);
    JoinFirstChar(root);
    assert CalculateCwd(Some(b), a) == PathJoin([a, b]);
    assert JoinNonEmpty([b]) == b by {
      assert [b][1..] == [];
    }
    assert JoinNonEmpty([a, b]) == a + "/" + b by {
      assert [a, b][1..] == [b];
    }
    JoinConcat(root, cwd);
    assert forall i :: 0 <= i < |all| ==> PlainSegment(all[i]) by {
      assert forall i :: 0 <= i < |all| ==> all[i] == if i < |root| then root[i] else cwd[i - |root|];
    }
    PathJoinPlain(all);
    JoinNonEmptyPlain(all);
  }

  lemma {:induction false} JoinConcat(a: seq<string>, b: seq<string>)
    requires |a| > 0 && |b| > 0
    ensures Join(a + b, "/") == Join(a, "/") + "/" + Join(b, "/")
  {
    if |a| > 1 {
      JoinConcat(a[1..], b);
      assert (a + b)[1..] == a[1..] + b;
    } else {
      assert (a + b)[1..] == b;
    }
  }
}
