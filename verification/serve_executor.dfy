/** The `serve` executor of the firebase package: option checks and
    defaults, and the `firebase emulators:start` command line it builds. */
module ServeExecutor {
  import opened Wrappers
  import opened Text
  import opened Emulators
  import FirebaseUtils

  /** The executor's options; every field may be missing. */
  datatype ServeExecutorSchema = ServeExecutorSchema(
    baseServeTarget: Option<string>,
    only: Option<seq<string>>,
    includeHosting: Option<bool>,
    saveDataDir: Option<string>)

  const BaseServeTargetRequired := Error("A base server target is required.")
  const BaseCommand := "firebase emulators:start"

  /** `validateOptions(options)`: a missing or empty base serve target
      throws; `only` together with `includeHosting` only warns, and the
      warning is the value. */
  function ValidateOptions(options: ServeExecutorSchema): (r: Result<bool>)
    ensures r.Err? <==> options.baseServeTarget.None? || options.baseServeTarget.value == ""
    ensures r.Err? ==> r.failure == BaseServeTargetRequired
    ensures r.Ok? ==> (r.value <==> options.only.Some? && |options.only.value| > 0 && options.includeHosting == Some(true))
  {
    if options.baseServeTarget.None? || options.baseServeTarget.value == "" then Err(BaseServeTargetRequired)
    else Ok(options.only.Some? && |options.only.value| > 0 && options.includeHosting == Some(true))
  }

  /** `normalizeOptions(options)`: `only` defaults to `[]` unless hosting is
      included, `includeHosting` to `false`; given values are kept. */
  function NormalizeOptions(options: ServeExecutorSchema): (r: ServeExecutorSchema)
    ensures r.includeHosting == Some(options.includeHosting.GetOr(false))
    ensures options.only.Some? ==> r.only == options.only
    ensures options.only.None? ==> (r.only.None? <==> options.includeHosting == Some(true))
    ensures options.only.None? && r.only.Some? ==> r.only.value == []
    ensures r.baseServeTarget == options.baseServeTarget && r.saveDataDir == options.saveDataDir
  {
    var only := if options.only.Some? then options.only
      else if options.includeHosting == Some(true) then None else Some([]);
    options.(only := only, includeHosting := Some(options.includeHosting.GetOr(false)))
  }

  /** The emulators other than `hosting`, in order. */
  function NonHosting(emulators: seq<string>): (r: seq<string>)
    ensures forall i :: 0 <= i < |r| ==> r[i] != "hosting" && r[i] in emulators
    ensures forall e :: e in emulators && e != "hosting" ==> e in r
    decreases |emulators|
  {
    if |emulators| == 0 then []
    else
      var init := NonHosting(emulators[..|emulators| - 1]);
      var e := emulators[|emulators| - 1];
      assert forall x :: x in emulators <==> x in emulators[..|emulators| - 1] || x == e;
      if e != "hosting" then init + [e] else init
  }

  /** Each listed emulator followed by ','. */
  function Listed(emulators: seq<string>): string
  {
    if |emulators| == 0 then ""
    else
      var e := emulators[|emulators| - 1];
      Listed(emulators[..|emulators| - 1]) + (if e != "hosting" then e + "," else "")
  }

  /** The `--only` part: `' --only '` and every listed emulator, with the
      last character cut. */
  function OnlyPart(emulators: seq<string>): string
  {
    var part := " --only " + Listed(emulators);
    part[..|part| - 1]
  }

  /** The saved-data part for a truthy directory. */
  function ImportPart(saveDataDir: Option<string>): string
  {
    if saveDataDir.Some? && saveDataDir.value != "" then
      " --import " + saveDataDir.value + " --export-on-exit " + saveDataDir.value
    else ""
  }

  /** The command line `getFirebaseCommand` builds. */
  function FirebaseCommand(emulators: seq<string>, includeHosting: bool, saveDataDir: Option<string>): string
  {
    BaseCommand + (if includeHosting then "" else OnlyPart(emulators)) + ImportPart(saveDataDir)
  }

  /** `getFirebaseCommand(emulators, includeHosting, saveDataDir)`: without
      hosting, the emulators list must be present. */
  method GetFirebaseCommand(emulators: Option<seq<string>>, includeHosting: bool, saveDataDir: Option<string>) returns (r: Result<string>)
    ensures !includeHosting && emulators.None? ==> r.Err?
    ensures includeHosting ==> r == Ok(BaseCommand + ImportPart(saveDataDir))
    ensures emulators.Some? ==> r == Ok(FirebaseCommand(emulators.value, includeHosting, saveDataDir))
  {
    var command := BaseCommand;
    if !includeHosting {
      if emulators.None? {
        return Err(TypeError("Cannot read properties of undefined (reading 'forEach')"));
      }
      var es := emulators.value;
      var onlyPart := " --only ";
      var i := 0;
      while i < |es|
        invariant i <= |es|
        invariant onlyPart == " --only " + Listed(es[..i])
      {
        assert es[..i + 1][..i] == es[..i];
        if es[i] != "hosting" {
          onlyPart := onlyPart + es[i] + ",";
        }
        i := i + 1;
      }
      assert es[..i] == es;
      onlyPart := onlyPart[..|onlyPart| - 1];
      command := command + onlyPart;
    }
    ghost var beforeImport := command;
    assert beforeImport == BaseCommand + (if includeHosting then "" else OnlyPart(emulators.value));
    if saveDataDir.Some? && saveDataDir.value != "" {
      command := command + (" --import " + saveDataDir.value + " --export-on-exit " + saveDataDir.value);
    }
    assert command == beforeImport + ImportPart(saveDataDir);
    r := Ok(command);
  }

  /** The listed emulators are the ones other than hosting, each followed by
      a comma. */
  lemma {:induction false} ListedNonHosting(emulators: seq<string>)
    ensures |NonHosting(emulators)| > 0 ==> Listed(emulators) == Join(NonHosting(emulators), ",") + ","
    ensures |NonHosting(emulators)| == 0 ==> Listed(emulators) == ""
    decreases |emulators|
  {
    if |emulators| > 0 {
      var init := emulators[..|emulators| - 1];
      ListedNonHosting(init);
      var e := emulators[|emulators| - 1];
      if e != "hosting" && |NonHosting(init)| > 0 {
        JoinSnoc(NonHosting(init), e);
      }
    }
  }

  lemma {:induction false} JoinSnoc(parts: seq<string>, e: string)
    requires |parts| > 0
    ensures Join(parts + [e], ",") == Join(parts, ",") + "," + e
  {
    if |parts| > 1 {
      JoinSnoc(parts[1..], e);
      assert (parts + [e])[1..] == parts[1..] + [e];
    } else {
      assert (parts + [e])[1..] == [e];
    }
  }

  /** The `--only` part lists the emulators other than hosting, in order,
      separated by commas; with none left only `' --only'` remains. */
  lemma OnlyPartMeaning(emulators: seq<string>)
    ensures |NonHosting(emulators)| > 0 ==> OnlyPart(emulators) == " --only " + Join(NonHosting(emulators), ",")
    ensures |NonHosting(emulators)| == 0 ==> OnlyPart(emulators) == " --only"
  {
    ListedNonHosting(emulators);
    var names := NonHosting(emulators);
    if |names| > 0 {
      var part := " --only " + Join(names, ",") + ",";
      assert part[..|part| - 1] == " --only " + Join(names, ",");
    }
  }

  /** The command the serve executor runs with no emulators left after
      dropping hosting (the default `only: []` among them): a dangling
      `--only` with no value. */
  lemma DanglingOnly(emulators: seq<string>)
    requires forall i :: 0 <= i < |emulators| ==> emulators[i] == "hosting"
    ensures FirebaseCommand(emulators, false, None) == BaseCommand + " --only"
  {
    OnlyPartMeaning(emulators);
    NoneLeft(emulators);
  }

  lemma {:induction false} NoneLeft(emulators: seq<string>)
    requires forall i :: 0 <= i < |emulators| ==> emulators[i] == "hosting"
    ensures NonHosting(emulators) == []
    decreases |emulators|
  {
    if |emulators| > 0 {
      NoneLeft(emulators[..|emulators| - 1]);
    }
  }

  /** The command evidently intended: no `--only` part at all when no
      emulator other than hosting remains. */
  function FirebaseCommandIntended(emulators: seq<string>, includeHosting: bool, saveDataDir: Option<string>): (r: string)
    ensures includeHosting || |NonHosting(emulators)| == 0 ==> r == BaseCommand + ImportPart(saveDataDir)
    ensures !includeHosting && |NonHosting(emulators)| > 0 ==> r == FirebaseCommand(emulators, includeHosting, saveDataDir)
  {
    var names := NonHosting(emulators);
    if includeHosting || |names| == 0 then BaseCommand + ImportPart(saveDataDir)
    else
      OnlyPartMeaning(emulators);
      BaseCommand + (" --only " + Join(names, ",")) + ImportPart(saveDataDir)
  }

  /** The names after `--only` in the intended command read back, split on
      ',', as the emulators other than hosting. */
  lemma IntendedOnlyRoundTrip(emulators: seq<string>)
    requires |NonHosting(emulators)| > 0
    requires forall i :: 0 <= i < |emulators| ==> ',' !in emulators[i]
    ensures var r := FirebaseCommandIntended(emulators, false, None);
      r[..|BaseCommand| + 8] == BaseCommand + " --only " &&
      Split(r[|BaseCommand| + 8..], ',') == NonHosting(emulators)
  {
    var names := NonHosting(emulators);
    var r := FirebaseCommandIntended(emulators, false, None);
    assert r == (BaseCommand + " --only ") + Join(names, ",");
    forall i | 0 <= i < |names|
      ensures ',' !in names[i]
    {
      assert names[i] in emulators;
    }
    SplitJoin(names, ',');
  }

  /** `startEmulators(firebaseCommand)` is called without the executor's
      context, so the port lookup of its probe reads `context.cwd` of
      `undefined`. */
  const ReadCwd := "Cannot read properties of undefined (reading 'cwd')"

  /** `runExecutor` as written: checks, defaults and the command; then
      `startEmulators` is called without a context and rejects on its first
      read of it, so the executor rejects for every valid options object and
      never reaches `{ success: true }`. */
  method RunExecutor(options: ServeExecutorSchema) returns (r: Result<bool>, command: string)
    ensures ValidateOptions(options).Err? ==> r == Err(BaseServeTargetRequired)
    ensures ValidateOptions(options).Ok? ==> r == Err(TypeError(ReadCwd))
    ensures ValidateOptions(options).Ok? ==> command == ServeCommand(NormalizeOptions(options))
  {
    var valid := ValidateOptions(options);
    if valid.Err? {
      return Err(valid.failure), "";
    }
    var n := NormalizeOptions(options);
    var c := GetFirebaseCommand(n.only, n.includeHosting.value, n.saveDataDir);
    command := c.value;
    // isServerUp(command, undefined) -> getFirstEmulatorPort(undefined, ...) reads `context.cwd`
    r := Err(TypeError(ReadCwd));
  }

  /** The command built from normalised options: no `--only` part with
      hosting, the written `--only` part otherwise. */
  function ServeCommand(n: ServeExecutorSchema): (c: string)
    requires n.includeHosting == Some(true) || n.only.Some?
    ensures n.includeHosting == Some(true) ==> c == BaseCommand + ImportPart(n.saveDataDir)
    ensures n.includeHosting != Some(true) ==> c == FirebaseCommand(n.only.value, false, n.saveDataDir)
  {
    if n.includeHosting == Some(true) then BaseCommand + ImportPart(n.saveDataDir)
    else FirebaseCommand(n.only.value, false, n.saveDataDir)
  }

  /** `runExecutor` with the executor's context passed on to
      `startEmulators`: a missing base target throws; a `firebase.json`
      without emulators throws; otherwise the start decides, and
      `{ success: true }` follows exactly when the emulators were already up
      or started in time (a time-out rejects, a rejected probe address never
      settles). */
  method RunExecutorIntended(options: ServeExecutorSchema, config: FirebaseJson, probeAnswers: bool, answersInTime: bool)
    returns (r: Result<FirebaseUtils.EmulatorStart>, command: string)
    ensures ValidateOptions(options).Err? ==> r == Err(BaseServeTargetRequired)
    ensures ValidateOptions(options).Ok? ==> command == ServeCommand(NormalizeOptions(options))
    ensures ValidateOptions(options).Ok? && config.emulators.None? ==> r == Err(FirebaseUtils.MissingEmulators)
    ensures ValidateOptions(options).Ok? && config.emulators.Some? ==>
      var probe := FirebaseUtils.ProbePort(config.emulators.value, command);
      var wait := FirebaseUtils.WaitPort(config.emulators.value, command);
      && (!FirebaseUtils.UrlParses(probe) ==> r == Ok(FirebaseUtils.NeverSettles))
      && (FirebaseUtils.UrlParses(probe) && probeAnswers ==> r == Ok(FirebaseUtils.AlreadyUp))
      && (FirebaseUtils.UrlParses(probe) && !probeAnswers ==>
            r == Ok(if answersInTime && FirebaseUtils.UrlParses(wait) then FirebaseUtils.Started else FirebaseUtils.TimedOut))
  {
    var valid := ValidateOptions(options);
    if valid.Err? {
      return Err(valid.failure), "";
    }
    var n := NormalizeOptions(options);
    var c := GetFirebaseCommand(n.only, n.includeHosting.value, n.saveDataDir);
    command := c.value;
    var probed;
    r, probed := FirebaseUtils.StartEmulators(command, config, probeAnswers, answersInTime);
  }
}
