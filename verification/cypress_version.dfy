/** `installedCypressVersion` of the Cypress plugin: the major version of the
    installed Cypress package, read from its `package.json` through `require`.
    The module-level `cypressPackageJson` and `loadedCypress` persist between
    calls; `require` is an oracle answering the package, or nothing when the
    package cannot be resolved. */
module CypressVersion {
  import opened Wrappers
  import opened Text
  import Emulators

  /** The fields of Cypress's `package.json` that are read. */
  datatype PackageJson = PackageJson(version: Option<string>)

  /** The JavaScript value the function returns: `null`, `undefined`, or the
      number `+majorVersion`, which is NaN for a non-numeric part. A numeric
      part written with a sign, fraction, exponent or base prefix keeps its
      text: its value is not computed. */
  datatype Version = NullVersion | UndefinedVersion | NumberVersion(n: nat) | NaNVersion | OtherNumeric(literal: string)
  {
    /** `version >= 10`: `null` converts to 0, `undefined` and NaN compare
        false. */
    predicate AtLeastTen()
    {
      NumberVersion? && n >= 10
    }
  }

  const ReadSplit := "Cannot read properties of undefined (reading 'split')"

  /** `+major` for a non-empty string. */
  function ToNumber(major: string): (v: Version)
    ensures AllDigits(major) && |major| > 0 ==> v == NumberVersion(DigitsValue(major))
    ensures v.NaNVersion? <==> Emulators.StrPort(major).IsNaN()
  {
    if AllDigits(major) && |major| > 0 then
      Emulators.DigitsAreNumeric(major);
      NumberVersion(DigitsValue(major))
    else
      var t := Trim(major);
      if |t| == 0 then
        NumberVersion(0)
      else if AllDigits(t) then
        TrimmedDigitsNumeric(major);
        NumberVersion(DigitsValue(t))
      else if Emulators.StrPort(major).IsNaN() then NaNVersion
      else OtherNumeric(major)
  }

  lemma TrimmedDigitsNumeric(major: string)
    requires AllDigits(Trim(major)) && |Trim(major)| > 0
    ensures !Emulators.StrPort(major).IsNaN()
  {
    var t := Trim(major);
    Emulators.DigitsUnsigned(t);
    assert IsDigit(t[0]);
  }

  /** The value the body computes from the package it holds. */
  function VersionOf(pkg: Option<PackageJson>): (r: Result<Version>)
    ensures pkg.None? ==> r == Ok(NullVersion)
    ensures pkg.Some? && pkg.value.version.None? ==> r == Err(TypeError(ReadSplit))
    ensures pkg.Some? && pkg.value.version.Some? ==>
      var major := Split(pkg.value.version.value, '.')[0];
      r == Ok(if major == "" then NumberVersion(0) else ToNumber(major))
  {
    match pkg
    case None => Ok(NullVersion)
    case Some(p) =>
      match p.version
      case None => Err(TypeError(ReadSplit))
      case Some(v) =>
        var major := Split(v, '.')[0];
        Ok(if major == "" then NumberVersion(0) else ToNumber(major))
  }

  /** One call from the state (`loaded`, `pkg`) with `require` answering
      `required`: the result and the new state. */
  function Step(loaded: bool, pkg: Option<PackageJson>, required: Option<PackageJson>)
    : (Result<Version>, bool, Option<PackageJson>)
  {
    if loaded then (Ok(UndefinedVersion), loaded, pkg)
    else
      var pkg' := if required.Some? then required else pkg;
      (VersionOf(pkg'), required.Some?, pkg')
  }

  /** The results of successive calls, `require` answering `answers[i]` at
      the i-th call. */
  function CallResults(loaded: bool, pkg: Option<PackageJson>, answers: seq<Option<PackageJson>>): (rs: seq<Result<Version>>)
    ensures |rs| == |answers|
    decreases |answers|
  {
    if |answers| == 0 then []
    else
      var (r, loaded', pkg') := Step(loaded, pkg, answers[0]);
      [r] + CallResults(loaded', pkg', answers[1..])
  }

  /** The module state of `cypress-version.ts`. */
  class CypressVersionCache {
    var packageJson: Option<PackageJson>
    var loaded: bool

    /** The package is held exactly when it has been loaded. */
    predicate Valid()
      reads this
    {
      loaded <==> packageJson.Some?
    }

    constructor()
      ensures Valid() && !loaded && packageJson.None?
    {
      packageJson := None;
      loaded := false;
    }

    /** `installedCypressVersion()`: the whole body is guarded by
        `!loadedCypress`, so a call after a successful load falls off the
        end. */
    method InstalledCypressVersion(required: Option<PackageJson>) returns (r: Result<Version>)
      requires Valid()
      modifies this
      ensures Valid()
      ensures (r, loaded, packageJson) == Step(old(loaded), old(packageJson), required)
      ensures old(loaded) ==> r == Ok(UndefinedVersion) && loaded && packageJson == old(packageJson)
      ensures !old(loaded) && required.None? ==> r == Ok(NullVersion) && !loaded
      ensures !old(loaded) && required.Some? ==> r == VersionOf(required) && loaded && packageJson == required
    {
      if !loaded {
        if required.Some? {
          packageJson := required;
          loaded := true;
        }
        r := VersionOf(packageJson);
        return;
      }
      r := Ok(UndefinedVersion);
    }
  }

  /** A failed `require` leaves nothing behind: the next call tries again. */
  lemma {:induction false} RetriesUntilLoaded(answers: seq<Option<PackageJson>>, k: nat)
    requires k < |answers|
    requires forall i :: 0 <= i < k ==> answers[i].None?
    ensures forall i :: 0 <= i < k ==> CallResults(false, None, answers)[i] == Ok(NullVersion)
    ensures CallResults(false, None, answers)[k] == VersionOf(answers[k])
  {
    if k > 0 {
      RetriesUntilLoaded(answers[1..], k - 1);
      assert CallResults(false, None, answers) == [Ok(NullVersion)] + CallResults(false, None, answers[1..]);
      forall i | 0 <= i < k ensures CallResults(false, None, answers)[i] == Ok(NullVersion) {
        if i > 0 {
          assert CallResults(false, None, answers)[i] == CallResults(false, None, answers[1..])[i - 1];
        }
      }
    }
  }

  /** Once loaded, every call returns `undefined`, whatever it is asked. */
  lemma {:induction false} LoadedAnswersUndefined(pkg: Option<PackageJson>, answers: seq<Option<PackageJson>>)
    ensures forall i :: 0 <= i < |answers| ==> CallResults(true, pkg, answers)[i] == Ok(UndefinedVersion)
  {
    if |answers| > 0 {
      LoadedAnswersUndefined(pkg, answers[1..]);
      assert CallResults(true, pkg, answers) == [Ok(UndefinedVersion)] + CallResults(true, pkg, answers[1..]);
    }
  }

  /** As written: after the first successful load, no later call reports the
      version. */
  lemma LaterCallsUndefined(answers: seq<Option<PackageJson>>, k: nat, j: nat)
    requires k < j < |answers|
    requires answers[k].Some? && forall i :: 0 <= i < k ==> answers[i].None?
    ensures CallResults(false, None, answers)[j] == Ok(UndefinedVersion)
  {
    FreshUntil(answers, k);
    var pkg := answers[k];
    LoadedAnswersUndefined(pkg, answers[k + 1..]);
    assert CallResults(false, None, answers)[j] == CallResults(true, pkg, answers[k + 1..])[j - k - 1];
  }

  /** The calls up to the first successful load leave the state unloaded; the
      load itself switches to the loaded state. */
  lemma {:induction false} FreshUntil(answers: seq<Option<PackageJson>>, k: nat)
    requires k < |answers|
    requires answers[k].Some? && forall i :: 0 <= i < k ==> answers[i].None?
    ensures CallResults(false, None, answers)[k + 1..] == CallResults(true, answers[k], answers[k + 1..])
  {
    if k > 0 {
      FreshUntil(answers[1..], k - 1);
      assert answers[1..][k..] == answers[k + 1..];
      assert CallResults(false, None, answers) == [Ok(NullVersion)] + CallResults(false, None, answers[1..]);
    } else {
      assert CallResults(false, None, answers) == [VersionOf(answers[0])] + CallResults(true, answers[0], answers[1..]);
    }
  }

  /** A Cypress 13 package answered twice: the second call returns
      `undefined`, which does not compare as at least 10. */
  lemma SecondCallLosesVersion()
    ensures var answers := [Some(PackageJson(Some("13.6.0"))), Some(PackageJson(Some("13.6.0")))];
      CallResults(false, None, answers)[0] == Ok(NumberVersion(13)) &&
      CallResults(false, None, answers)[1] == Ok(UndefinedVersion) &&
      !UndefinedVersion.AtLeastTen()
  {
    var answers := [Some(PackageJson(Some("13.6.0"))), Some(PackageJson(Some("13.6.0")))];
    assert Split("13.6.0", '.')[0] == "13" by {
      SplitFirstPiece("13.6.0", '.');
      assert "13.6.0"[..2] == "13";
    }
    assert AllDigits("13") && DigitsValue("13") == 13 by {
      assert "13"[..1] == "1";
    }
    LoadedAnswersUndefined(answers[0], answers[1..]);
  }

  /** The evidently intended step: the cached package keeps answering its
      version on later calls. */
  function StepIntended(loaded: bool, pkg: Option<PackageJson>, required: Option<PackageJson>)
    : (Result<Version>, bool, Option<PackageJson>)
  {
    if loaded then (VersionOf(pkg), loaded, pkg)
    else
      var pkg' := if required.Some? then required else pkg;
      (VersionOf(pkg'), required.Some?, pkg')
  }

  function CallResultsIntended(loaded: bool, pkg: Option<PackageJson>, answers: seq<Option<PackageJson>>): (rs: seq<Result<Version>>)
    ensures |rs| == |answers|
    decreases |answers|
  {
    if |answers| == 0 then []
    else
      var (r, loaded', pkg') := StepIntended(loaded, pkg, answers[0]);
      [r] + CallResultsIntended(loaded', pkg', answers[1..])
  }

  /** Corrected: every call from the first successful load on answers the
      loaded package's version. */
  lemma {:induction false} IntendedCallsKeepVersion(answers: seq<Option<PackageJson>>, k: nat, j: nat)
    requires k <= j < |answers|
    requires answers[k].Some? && forall i :: 0 <= i < k ==> answers[i].None?
    ensures CallResultsIntended(false, None, answers)[j] == VersionOf(answers[k])
  {
    if k > 0 {
      IntendedCallsKeepVersion(answers[1..], k - 1, j - 1);
      assert CallResultsIntended(false, None, answers) == [Ok(NullVersion)] + CallResultsIntended(false, None, answers[1..]);
    } else {
      assert CallResultsIntended(false, None, answers) == [VersionOf(answers[0])] + CallResultsIntended(true, answers[0], answers[1..]);
      if j > 0 {
        LoadedKeepsVersion(answers[0], answers[1..], j - 1);
      }
    }
  }

  lemma {:induction false} LoadedKeepsVersion(pkg: Option<PackageJson>, answers: seq<Option<PackageJson>>, j: nat)
    requires j < |answers|
    ensures CallResultsIntended(true, pkg, answers)[j] == VersionOf(pkg)
  {
    assert CallResultsIntended(true, pkg, answers) == [VersionOf(pkg)] + CallResultsIntended(true, pkg, answers[1..]);
    if j > 0 {
      LoadedKeepsVersion(pkg, answers[1..], j - 1);
    }
  }
}
