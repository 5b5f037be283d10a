/** `runCypressInternal` of the Cypress plugin: builds the option object field
    by field, calls Cypress, and afterwards frees the port of the web server
    named by the `baseUrl` it passed. Cypress, whether a request to that URL is
    answered and `killPort`'s shell commands are oracles. */
module RunCypress {
  import opened Wrappers
  import opened Text
  import opened Paths
  import opened CypressRunner
  import opened CypressVersion
  import Urls

  /** Whether a string option is set to something truthy. */
  predicate TruthyString(s: Option<string>)
  {
    s.Some? && s.value != ""
  }

  /** The option object `runCypress(opts.baseUrl, opts)` builds before it
      calls Cypress, `version` being what `installedCypressVersion()`
      returned. */
  method BuildCypressOptions(baseUrl: Option<string>, opts: RunnerOptions, version: Version)
    returns (options: CypressOptions)
    ensures options.project == DirName(opts.cypressConfig) && options.configFile == BaseName(opts.cypressConfig)
    // Properties copied only when truthy.
    ensures options.browser == IfTruthy(opts.browser) && options.spec == IfTruthy(opts.spec)
    ensures options.reporter == IfTruthy(opts.reporter)
    ensures options.headless == (if opts.headless == Some(true) then Some(true) else None)
    ensures options.quiet == (if opts.quiet == Some(true) then Some(true) else None)
    ensures options.reporterOptions.Some? <==> opts.reporterOptions.Some? && opts.reporterOptions.value.Truthy()
    ensures options.reporterOptions.Some? ==> options.reporterOptions == opts.reporterOptions
    ensures options.testingType == (if opts.testingType.Some? then Some(opts.testingType) else None)
    // An object is always truthy: `env` is copied whenever given.
    ensures options.env == opts.env
    // Properties assigned unconditionally.
    ensures options.tag == opts.tag && options.exit == opts.exit && options.headed == opts.headed
    ensures options.runnerUi == opts.runnerUi && options.record == opts.record && options.key == opts.key
    ensures options.parallel == opts.parallel && options.group == opts.group
    ensures options.ciBuildId == BuildIdString(opts.ciBuildId)
    // `!== undefined`: `false` and `0` are copied too.
    ensures options.autoCancelAfterFailures == opts.autoCancelAfterFailures
    // Where the ignored spec patterns go.
    ensures version.AtLeastTen() ==>
      options.ignoreTestFiles.None? &&
      options.config == Some(ConfigOverrides(if TruthyString(baseUrl) then baseUrl else None,
                                             Some((TestingTypeKey(opts.testingType), opts.ignoreTestFiles))))
    ensures !version.AtLeastTen() ==>
      options.ignoreTestFiles == Some(opts.ignoreTestFiles) &&
      options.config == if TruthyString(baseUrl) then Some(ConfigOverrides(baseUrl, None)) else None
  {
    // Each guarded assignment becomes a conditional value; the object is
    // assembled at the end.
    var config: Option<ConfigOverrides> := if TruthyString(baseUrl) then Some(ConfigOverrides(baseUrl, None)) else None;
    var browser := IfTruthy(opts.browser);
    var env := if opts.env.Some? then opts.env else None;
    var spec := IfTruthy(opts.spec);
    var headless := IfTrue(opts.headless);
    var ignoreTestFiles := None;
    if version.AtLeastTen() {
      // `options.config ??= {}` and then the entry for the testing type.
      var base := if config.Some? then config.value else ConfigOverrides(None, None);
      config := Some(base.(exclusion := Some((TestingTypeKey(opts.testingType), opts.ignoreTestFiles))));
    } else {
      ignoreTestFiles := Some(opts.ignoreTestFiles);
    }
    var reporter := IfTruthy(opts.reporter);
    var reporterOptions := IfTruthyReporter(opts.reporterOptions);
    var quiet := IfTrue(opts.quiet);
    var autoCancel := if opts.autoCancelAfterFailures.Some? then opts.autoCancelAfterFailures else None;
    var testingType := if opts.testingType.Some? then Some(opts.testingType) else None;
    options := CypressOptions(DirName(opts.cypressConfig), BaseName(opts.cypressConfig), config, browser, env, spec,
      opts.tag, opts.exit, opts.headed, opts.runnerUi, headless, opts.record, opts.key, opts.parallel,
      BuildIdString(opts.ciBuildId), opts.group, ignoreTestFiles, reporter, reporterOptions, quiet, autoCancel,
      testingType);
  }

  // ---------------------------------------------------------------------
  // `parseInt` with no radix (section 19.2.5 of ECMA-262)

  predicate IsRadixDigit(c: char, radix: nat)
  {
    DigitOf(c) < radix
  }

  /** The value of a digit character in bases up to 36; 36 for anything
      else. */
  function DigitOf(c: char): (d: nat)
    ensures d <= 36
  {
    if '0' <= c <= '9' then c as int - '0' as int
    else if 'a' <= c <= 'z' then c as int - 'a' as int + 10
    else if 'A' <= c <= 'Z' then c as int - 'A' as int + 10
    else 36
  }

  /** The value of a string of digits of the radix. */
  function RadixValue(s: string, radix: nat): nat
  {
    if |s| == 0 then 0 else radix * RadixValue(s[..|s| - 1], radix) + DigitOf(s[|s| - 1])
  }

  /** The length of the leading run of digits of the radix. */
  function RadixRun(s: string, radix: nat): (k: nat)
    ensures k <= |s|
    ensures forall i :: 0 <= i < k ==> IsRadixDigit(s[i], radix)
    ensures k < |s| ==> !IsRadixDigit(s[k], radix)
  {
    if |s| == 0 || !IsRadixDigit(s[0], radix) then 0 else 1 + RadixRun(s[1..], radix)
  }

  /** `parseInt(s)`: leading white space is skipped, a sign is read, a `0x`
      prefix switches to base 16, and the longest run of digits is converted;
      no digit at all gives NaN (`None`). */
  function ParseInt(s: string): (r: Option<int>)
  {
    var t := TrimStart(s);
    var negative := |t| > 0 && t[0] == '-';
    var u := if |t| > 0 && (t[0] == '-' || t[0] == '+') then t[1..] else t;
    var hex := |u| >= 2 && u[0] == '0' && (u[1] == 'x' || u[1] == 'X');
    var radix: nat := if hex then 16 else 10;
    var body := if hex then u[2..] else u;
    var k := RadixRun(body, radix);
    if k == 0 then None
    else
      var magnitude := RadixValue(body[..k], radix);
      Some(if negative then -(magnitude as int) else magnitude)
  }

  /** Decimal digits have the value `DigitsValue` gives them. */
  lemma {:induction false} DecimalRadixValue(d: string)
    requires AllDigits(d)
    ensures RadixValue(d, 10) == DigitsValue(d)
  {
    if |d| > 0 {
      DecimalRadixValue(d[..|d| - 1]);
    }
  }

  /** A run of decimal digits followed by something that is not a digit
      parses as the number the digits spell. */
  lemma ParseIntDigits(d: string, rest: string)
    requires |d| > 0 && AllDigits(d)
    requires |rest| > 0 ==> !IsDigit(rest[0])
    requires |d| == 1 && d[0] == '0' ==> |rest| == 0 || (rest[0] != 'x' && rest[0] != 'X')
    ensures ParseInt(d + rest) == Some(DigitsValue(d))
  {
    var s := d + rest;
    assert s[0] == d[0] && IsDigit(d[0]);
    assert !(|s| >= 2 && s[0] == '0' && (s[1] == 'x' || s[1] == 'X')) by {
      if |d| >= 2 {
        assert s[1] == d[1] && IsDigit(d[1]);
      } else if |s| >= 2 {
        assert s[1] == rest[0];
      }
    }
    ParseIntDecimal(s);
    RunOfDigits(d, rest);
    assert s[..|d|] == d;
    DecimalRadixValue(d);
  }

  /** A string that starts with a decimal digit and no `0x` prefix parses as
      its leading run of decimal digits. */
  lemma ParseIntDecimal(s: string)
    requires |s| > 0 && IsDigit(s[0])
    requires !(|s| >= 2 && s[0] == '0' && (s[1] == 'x' || s[1] == 'X'))
    ensures ParseInt(s) == Some(RadixValue(s[..RadixRun(s, 10)], 10))
  {
    assert !IsSpace(s[0]);
    assert TrimStart(s) == s;
    assert IsRadixDigit(s[0], 10);
  }

  lemma {:induction false} RunOfDigits(d: string, rest: string)
    requires AllDigits(d)
    requires |rest| > 0 ==> !IsDigit(rest[0])
    ensures RadixRun(d + rest, 10) == |d|
  {
    if |d| == 0 {
      assert d + rest == rest;
    } else {
      assert IsDigit(d[0]);
      assert (d + rest)[1..] == d[1..] + rest;
      RunOfDigits(d[1..], rest);
    }
  }

  /** The port `ensureWebServerClosed` kills: `parseInt` of the last
      ':'-separated part of the URL. */
  function PortOfUrl(url: string): (port: Option<int>)
  {
    var parts := Split(url, ':');
    ParseInt(parts[|parts| - 1])
  }

  /** `http://host:4200` and `http://host:4200/path` name port 4200. */
  lemma PortOfUrlDigits(prefix: string, digits: string, rest: string)
    requires |digits| > 0 && AllDigits(digits) && digits[0] != '0'
    requires ':' !in rest && (|rest| > 0 ==> !IsDigit(rest[0]))
    ensures PortOfUrl(prefix + ":" + digits + rest) == Some(DigitsValue(digits))
  {
    var tail := digits + rest;
    var url := prefix + ":" + digits + rest;
    assert url == prefix + [':'] + tail;
    assert ':' !in tail by {
      forall i | 0 <= i < |tail| ensures tail[i] != ':' {
        if i < |digits| {
          assert tail[i] == digits[i] && IsDigit(digits[i]);
        } else {
          assert tail[i] == rest[i - |digits|];
        }
      }
    }
    SplitLastPiece(prefix, tail, ':');
    var parts := Split(url, ':');
    assert parts[|parts| - 1] == tail;
    ParseIntDigits(digits, rest);
  }

  /** A promise that settles with a value, or never settles. */
  datatype Settlement<T> = Settled(value: T) | NeverSettles

  /** `ensureWebServerClosed(url)`: `answers` is whether a request to the
      URL is answered rather than refused. The promise settles with the port
      killed, if any. It never settles when the URL is `undefined` or is not
      an http or https address `new URL` accepts (the rejection of `request`
      is discarded). It also never settles when `killPort` rejects, which it
      does for a NaN or zero port and when its shell commands fail
      (`killSucceeds`). */
  function CloseWebServer(url: Option<string>, answers: bool, killSucceeds: bool): (c: Settlement<Option<int>>)
    ensures c == Settled(None) <==> url.Some? && Urls.Requestable(url.value) && !answers
    ensures c.Settled? && c.value.Some? ==>
      url.Some? && Urls.Requestable(url.value) && answers && killSucceeds &&
      PortOfUrl(url.value) == c.value && c.value.value != 0
  {
    if url.None? || !Urls.Requestable(url.value) then NeverSettles
    else if !answers then Settled(None)
    else
      var port := PortOfUrl(url.value);
      if port.None? || port.value == 0 || !killSucceeds then NeverSettles
      else Settled(port)
  }

  const ReadBaseUrl := "Cannot read properties of undefined (reading 'baseUrl')"

  /** `runCypressInternal(options, context)`: Cypress answers `result` and
      the executor reads `options.config.baseUrl` to free the server's port
      before it reports success. */
  method RunCypressInternal(opts: RunnerOptions, version: Version, result: Option<CypressResult>,
                            answers: bool, killSucceeds: bool)
    returns (launch: Launch, killed: Option<int>, outcome: Settlement<Result<bool>>)
    ensures launch == LaunchOf(opts)
    ensures !version.AtLeastTen() && !TruthyString(opts.baseUrl) ==>
      outcome == Settled(Err(TypeError(ReadBaseUrl))) && killed.None?
    ensures version.AtLeastTen() && !TruthyString(opts.baseUrl) ==> outcome == NeverSettles
    ensures TruthyString(opts.baseUrl) ==>
      var closing := CloseWebServer(opts.baseUrl, answers, killSucceeds);
      (closing.NeverSettles? ==> outcome == NeverSettles) &&
      (closing.Settled? ==> outcome == Settled(Success(result)) && killed == closing.value)
  {
    var options := BuildCypressOptions(opts.baseUrl, opts, version);
    launch := LaunchOf(opts);
    killed := None;
    if options.config.None? {
      return launch, killed, Settled(Err(TypeError(ReadBaseUrl)));
    }
    var closing := CloseWebServer(options.config.value.baseUrl, answers, killSucceeds);
    if closing.NeverSettles? {
      return launch, killed, NeverSettles;
    }
    killed := closing.value;
    outcome := Settled(Success(result));
  }

  // ---------------------------------------------------------------------
  // The generators that await Cypress runs

  /** How an async generator that awaits `runCypressInternal` ends after its
      yields: it returns, it throws the rejection of an awaited run, or it
      waits for ever on a run that never settles. */
  datatype GeneratorEnd = Returned | Threw(failure: Failure) | Pending

  /** The values a generator yields, then how it ends. */
  datatype GeneratorRun = GeneratorRun(values: seq<bool>, end: GeneratorEnd)

  /** The run with `v` yielded before it. */
  function Prepend(v: seq<bool>, g: GeneratorRun): GeneratorRun
  {
    GeneratorRun(v + g.values, g.end)
  }

  /** Every Cypress run resolves to a success flag. */
  predicate AllResolve(runs: seq<Settlement<Result<bool>>>)
  {
    forall i :: 0 <= i < |runs| ==> runs[i].Settled? && runs[i].value.Ok?
  }

  /** The success flags of runs that all resolve. */
  function Outcomes(runs: seq<Settlement<Result<bool>>>): (r: seq<bool>)
    requires AllResolve(runs)
    ensures |r| == |runs| && forall i :: 0 <= i < |runs| ==> runs[i] == Settled(Ok(r[i]))
  {
    seq(|runs|, i requires 0 <= i < |runs| && AllResolve(runs) => runs[i].value.value)
  }
}
