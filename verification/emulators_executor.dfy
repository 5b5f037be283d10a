/** The `emulators` executor of nx-firebase: how its options become the
    arguments of `npx firebase emulators:start`, key by key in option order,
    and the single result it yielded. */
module EmulatorsExecutor {
  import opened Wrappers
  import opened Text
  import opened Records

  /** A value of the options object. A list renders joined by ','. */
  datatype OptionValue = OStr(s: string) | ONum(n: int) | OBool(b: bool) | OList(items: seq<string>) {
    /** `String(value)`. */
    function Render(): string
    {
      match this
      case OStr(s) => s
      case ONum(n) => IntToString(n)
      case OBool(b) => if b then "true" else "false"
      case OList(items) => Join(items, ",")
    }
  }

  /** The emulators the executor accepts for `only`. */
  const ValidEmulators: seq<string> :=
    ["auth", "functions", "firestore", "database", "hosting", "pubsub", "storage", "eventarc"]

  const ValidVerbosities: seq<string> := ["DEBUG", "INFO", "QUIET", "SILENT"]

  /** `validateVerbosityLevel(level)`: `includes` compares strictly, so only
      one of the four strings passes. */
  predicate ValidateVerbosityLevel(level: OptionValue)
  {
    level.OStr? && level.s in ValidVerbosities
  }

  /** The names that are valid emulators, in order. */
  function KeepValid(names: seq<string>): (r: seq<string>)
    ensures forall i :: 0 <= i < |r| ==> r[i] in ValidEmulators
    ensures forall e :: e in r <==> e in names && e in ValidEmulators
    ensures |r| <= |names|
  {
    if |names| == 0 then []
    else
      var rest := KeepValid(names[1..]);
      assert forall e :: e in names <==> e == names[0] || e in names[1..];
      if names[0] in ValidEmulators then [names[0]] + rest else rest
  }

  /** Each name with surrounding white space removed. */
  function TrimAll(names: seq<string>): (r: seq<string>)
    ensures |r| == |names| && forall i :: 0 <= i < |names| ==> r[i] == Trim(names[i])
  {
    if |names| == 0 then [] else [Trim(names[0])] + TrimAll(names[1..])
  }

  /** `getValidEmulators(emulators)`: a list is filtered; a string is split
      on ',' and each piece trimmed first; anything else has no `split`. */
  function GetValidEmulators(emulators: OptionValue): (r: Result<seq<string>>)
    ensures emulators.OList? ==> r == Ok(KeepValid(emulators.items))
    ensures emulators.OStr? ==> r == Ok(KeepValid(TrimAll(Split(emulators.s, ','))))
    ensures r.Ok? <==> emulators.OList? || emulators.OStr?
  {
    match emulators
    case OList(items) => Ok(KeepValid(items))
    case OStr(s) => Ok(KeepValid(TrimAll(Split(s, ','))))
    case _ => Err(TypeError("emulators.split is not a function"))
  }

  /** Where a kept name sits among the names, and what is kept after it. */
  lemma {:induction false} KeepValidIndex(names: seq<string>, j: nat) returns (b: nat)
    requires j < |KeepValid(names)|
    ensures b < |names| && names[b] == KeepValid(names)[j]
    ensures KeepValid(names[b + 1..]) == KeepValid(names)[j + 1..]
  {
    var kept, rest := KeepValid(names), KeepValid(names[1..]);
    if names[0] in ValidEmulators && j == 0 {
      assert kept == [names[0]] + rest;
      b := 0;
    } else {
      var k := if names[0] in ValidEmulators then j - 1 else j;
      assert kept[j] == rest[k] && kept[j + 1..] == rest[k + 1..];
      var c := KeepValidIndex(names[1..], k);
      b := c + 1;
      assert names[1..][c + 1..] == names[b + 1..];
    }
  }

  /** The valid emulators keep their order and nothing else is kept. */
  lemma KeepValidSubsequence(names: seq<string>, i: nat, j: nat)
    requires i < j < |KeepValid(names)|
    ensures exists a, b :: 0 <= a < b < |names| && names[a] == KeepValid(names)[i] && names[b] == KeepValid(names)[j]
  {
    var kept := KeepValid(names);
    var a := KeepValidIndex(names, i);
    var later := names[a + 1..];
    assert KeepValid(later)[j - i - 1] == kept[j];
    var c := KeepValidIndex(later, j - i - 1);
    assert names[a + 1 + c] == later[c];
  }

  /** The arguments one option contributes. `cwd` and unknown keys give
      none. For `inspectFunctions` the flag is always given but only a number
      follows it: the test is `isString || (isNumber && push)`, so a string
      value short-circuits the push. For `logVerbosity` only the flag depends
      on the level; the value is pushed whatever it is. */
  function OptionArgs(key: string, value: OptionValue): (r: Result<seq<string>>)
    ensures key == "cwd" ==> r == Ok([])
    ensures key !in ["only", "inspectFunctions", "import", "exportOnExit", "logVerbosity"] ==> r == Ok([])
  {
    if key == "cwd" then Ok([])
    else if key == "only" then
      var emulators :- GetValidEmulators(value);
      Ok(["--only", Join(emulators, ",")])
    else if key == "inspectFunctions" then
      Ok(["--inspect-functions"] + (if value.ONum? then [value.Render()] else []))
    else if key == "import" then Ok(["--import", value.Render()])
    else if key == "exportOnExit" then
      match value
      case OStr(s) => Ok(["--export-on-exit", s])
      case OBool(b) => Ok(if b then ["--export-on-exit"] else [])
      case _ => Ok([])
    else if key == "logVerbosity" then
      Ok((if ValidateVerbosityLevel(value) then ["--log-verbosity"] else []) + [value.Render()])
    else Ok([])
  }

  /** The arguments each option gives through `f`, key after key; the
      first key that fails ends the run. */
  function ArgsOf(options: Record<OptionValue>, f: (string, OptionValue) -> Result<seq<string>>): Result<seq<string>>
    decreases |options|
  {
    if |options| == 0 then Ok([])
    else
      var init :- ArgsOf(options[..|options| - 1], f);
      var (k, v) := options[|options| - 1];
      var last :- f(k, v);
      Ok(init + last)
  }

  /** The arguments of all options. */
  function AllOptionArgs(options: Record<OptionValue>): (r: Result<seq<string>>)
    ensures |options| == 0 ==> r == Ok([])
  {
    ArgsOf(options, OptionArgs)
  }

  /** `stringifyOptions(options)`: pushes each option's arguments in key
      order. */
  method StringifyOptions(options: Record<OptionValue>) returns (r: Result<seq<string>>)
    ensures r == AllOptionArgs(options)
  {
    var results: seq<string> := [];
    var i := 0;
    while i < |options|
      invariant i <= |options|
      invariant AllOptionArgs(options[..i]) == Ok(results)
    {
      var (key, value) := options[i];
      assert options[..i + 1][..i] == options[..i];
      var args := OptionArgs(key, value);
      if args.Err? {
        FailurePersists(options, i + 1, OptionArgs);
        return Err(args.failure);
      }
      results := results + args.value;
      i := i + 1;
    }
    assert options[..i] == options;
    r := Ok(results);
  }

  /** A failure among the first keys is the failure of the whole. */
  lemma {:induction false} FailurePersists(options: Record<OptionValue>, j: nat, f: (string, OptionValue) -> Result<seq<string>>)
    requires j <= |options| && ArgsOf(options[..j], f).Err?
    ensures ArgsOf(options, f) == ArgsOf(options[..j], f)
    decreases |options| - j
  {
    if j < |options| {
      assert options[..j + 1][..j] == options[..j];
      FailurePersists(options, j + 1, f);
    } else {
      assert options[..j] == options;
    }
  }

  /** One more option appends its arguments, or fails. */
  lemma ArgsOfSnoc(o: Record<OptionValue>, kv: (string, OptionValue), f: (string, OptionValue) -> Result<seq<string>>)
    ensures ArgsOf(o + [kv], f).Ok? <==> ArgsOf(o, f).Ok? && f(kv.0, kv.1).Ok?
    ensures ArgsOf(o + [kv], f).Ok? ==> ArgsOf(o + [kv], f).value == ArgsOf(o, f).value + f(kv.0, kv.1).value
  {
    assert (o + [kv])[..|o|] == o;
  }

  /** The arguments of two groups of options through `f` are those of the
      first group followed by those of the second. */
  lemma {:induction false} ArgsOfAppend(a: Record<OptionValue>, b: Record<OptionValue>,
                                        f: (string, OptionValue) -> Result<seq<string>>)
    requires ArgsOf(a, f).Ok? && ArgsOf(b, f).Ok?
    ensures ArgsOf(a + b, f) == Ok(ArgsOf(a, f).value + ArgsOf(b, f).value)
    decreases |b|
  {
    if |b| == 0 {
      assert a + b == a;
      assert ArgsOf(a, f).value + [] == ArgsOf(a, f).value;
    } else {
      var b', kv := b[..|b| - 1], b[|b| - 1];
      assert b == b' + [kv];
      assert a + b == (a + b') + [kv];
      ArgsOfSnoc(b', kv, f);
      ArgsOfAppend(a, b', f);
      ArgsOfSnoc(a + b', kv, f);
      var x, y, z := ArgsOf(a, f).value, ArgsOf(b', f).value, f(kv.0, kv.1).value;
      assert x + y + z == x + (y + z);
    }
  }

  /** The arguments of two groups of options are those of the first group
      followed by those of the second: arguments appear in key order. */
  lemma ArgsInKeyOrder(a: Record<OptionValue>, b: Record<OptionValue>)
    requires AllOptionArgs(a).Ok? && AllOptionArgs(b).Ok?
    ensures AllOptionArgs(a + b) == Ok(AllOptionArgs(a).value + AllOptionArgs(b).value)
  {
    ArgsOfAppend(a, b, OptionArgs);
  }

  /** The emulator list after `--only` reads back, split on ',', as the valid
      names in their given order. */
  lemma OnlyRoundTrip(value: OptionValue)
    requires GetValidEmulators(value).Ok? && |GetValidEmulators(value).value| > 0
    ensures var r := OptionArgs("only", value).value;
      |r| == 2 && r[0] == "--only" && Split(r[1], ',') == GetValidEmulators(value).value
  {
    var names := GetValidEmulators(value).value;
    forall i | 0 <= i < |names|
      ensures ',' !in names[i]
    {
      assert names[i] in ValidEmulators;
    }
    SplitJoin(names, ',');
  }

  /** `only` never lets through a name outside the eight, such as
      `dataconnect`. */
  lemma OnlyRejectsOthers(value: OptionValue, name: string)
    requires GetValidEmulators(value).Ok? && name !in ValidEmulators
    ensures name !in GetValidEmulators(value).value
  {
  }

  /** `exportOnExit`: a string gives the flag and the path, `true` the flag
      alone, `false` nothing. */
  lemma ExportOnExitArgs(path: string)
    ensures OptionArgs("exportOnExit", OStr(path)) == Ok(["--export-on-exit", path])
    ensures OptionArgs("exportOnExit", OBool(true)) == Ok(["--export-on-exit"])
    ensures OptionArgs("exportOnExit", OBool(false)) == Ok([])
  {
  }

  /** `import` gives the flag and the value. */
  lemma ImportArgs(path: string)
    ensures OptionArgs("import", OStr(path)) == Ok(["--import", path])
  {
  }

  /** `logVerbosity`: the value follows in every case; the flag only for one
      of the four levels. */
  lemma LogVerbosityArgs(level: string)
    ensures OptionArgs("logVerbosity", OStr(level)) ==
      Ok(if level in ValidVerbosities then ["--log-verbosity", level] else [level])
  {
    var k := "logVerbosity";
    assert k != "cwd" && k != "only" && k != "inspectFunctions" && k != "import";
    assert k[0] != "exportOnExit"[0];
    assert OptionArgs(k, OStr(level)).value == if level in ValidVerbosities then ["--log-verbosity", level] else [level];
  }

  /** `inspectFunctions`: a number port follows the flag, a string port is
      dropped. */
  lemma InspectFunctionsArgs(port: int, text: string)
    ensures OptionArgs("inspectFunctions", ONum(port)) == Ok(["--inspect-functions", IntToString(port)])
    ensures OptionArgs("inspectFunctions", OStr(text)) == Ok(["--inspect-functions"])
  {
    var k := "inspectFunctions";
    assert k != "cwd" && k != "only";
    assert OptionArgs(k, ONum(port)).value == ["--inspect-functions", IntToString(port)];
    assert OptionArgs(k, OStr(text)).value == ["--inspect-functions"];
  }

  /** The arguments `inspectFunctions` was evidently meant to give: the flag,
      then the port whether it is written as a string or a number. */
  function InspectFunctionsArgsIntended(value: OptionValue): (r: seq<string>)
    ensures value.OStr? || value.ONum? ==> r == ["--inspect-functions", value.Render()]
    ensures !(value.OStr? || value.ONum?) ==> r == ["--inspect-functions"]
  {
    ["--inspect-functions"] + (if value.OStr? || value.ONum? then [value.Render()] else [])
  }

  /** The arguments `logVerbosity` was evidently meant to give: flag and
      level together for a valid level, nothing otherwise. */
  function LogVerbosityArgsIntended(value: OptionValue): (r: seq<string>)
    ensures ValidateVerbosityLevel(value) <==> |r| > 0
    ensures |r| > 0 ==> r == ["--log-verbosity", value.s]
  {
    if ValidateVerbosityLevel(value) then ["--log-verbosity", value.Render()] else []
  }

  /** The intended `inspectFunctions` arguments differ from the written ones
      exactly for a string port. */
  lemma InspectFunctionsDiscrepancy(value: OptionValue)
    ensures OptionArgs("inspectFunctions", value) != Ok(InspectFunctionsArgsIntended(value)) <==> value.OStr?
  {
  }

  /** The intended `logVerbosity` arguments differ from the written ones
      exactly for an invalid level, which the written code still pushes. */
  lemma LogVerbosityDiscrepancy(value: OptionValue)
    ensures OptionArgs("logVerbosity", value) != Ok(LogVerbosityArgsIntended(value)) <==> !ValidateVerbosityLevel(value)
  {
    var k := "logVerbosity";
    assert k != "cwd" && k != "only" && k != "inspectFunctions" && k != "import";
    assert k[0] != "exportOnExit"[0];
    var written := OptionArgs(k, value).value;
    assert written == (if ValidateVerbosityLevel(value) then ["--log-verbosity"] else []) + [value.Render()];
    if ValidateVerbosityLevel(value) {
      assert written == ["--log-verbosity", value.Render()];
    } else {
      assert |written| == 1 && LogVerbosityArgsIntended(value) == [];
    }
  }

  /** `runExecutor`: the emulators are started with the arguments and exactly
      one success is yielded, whatever the emulators print; a failure while
      building the arguments yielded nothing. */
  method RunExecutor(options: Record<OptionValue>) returns (args: Result<seq<string>>, yielded: seq<bool>)
    ensures args == AllOptionArgs(options)
    ensures yielded == if args.Ok? then [true] else []
  {
    args := StringifyOptions(options);
    if args.Err? {
      return args, [];
    }
    yielded := [true];
  }
}
