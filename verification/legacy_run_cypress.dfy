/** `runCypressInternal` of the older firebase-cypress package: the same
    field-by-field option object, except that `testingType` is always
    assigned, and no web-server cleanup after the run. The installed version
    is a parameter: that package's `cypress-version.ts` is not part of this
    model. */
module LegacyRunCypress {
  import opened Wrappers
  import opened Paths
  import opened CypressRunner
  import opened CypressVersion
  import RunCypress

  /** The option object the older `runCypress(opts.baseUrl, opts)` builds. */
  method BuildCypressOptions(baseUrl: Option<string>, opts: RunnerOptions, version: Version)
    returns (options: CypressOptions)
    ensures options.project == DirName(opts.cypressConfig) && options.configFile == BaseName(opts.cypressConfig)
    ensures options.browser == IfTruthy(opts.browser) && options.spec == IfTruthy(opts.spec)
    ensures options.reporter == IfTruthy(opts.reporter)
    ensures options.headless == (if opts.headless == Some(true) then Some(true) else None)
    ensures options.quiet == (if opts.quiet == Some(true) then Some(true) else None)
    ensures options.reporterOptions.Some? <==> opts.reporterOptions.Some? && opts.reporterOptions.value.Truthy()
    ensures options.reporterOptions.Some? ==> options.reporterOptions == opts.reporterOptions
    // Assigned even when `undefined`.
    ensures options.testingType == Some(opts.testingType)
    ensures options.env == opts.env
    ensures options.tag == opts.tag && options.exit == opts.exit && options.headed == opts.headed
    ensures options.runnerUi == opts.runnerUi && options.record == opts.record && options.key == opts.key
    ensures options.parallel == opts.parallel && options.group == opts.group
    ensures options.ciBuildId == BuildIdString(opts.ciBuildId)
    ensures options.autoCancelAfterFailures == opts.autoCancelAfterFailures
    ensures version.AtLeastTen() ==>
      options.ignoreTestFiles.None? &&
      options.config == Some(ConfigOverrides(if RunCypress.TruthyString(baseUrl) then baseUrl else None,
                                             Some((TestingTypeKey(opts.testingType), opts.ignoreTestFiles))))
    ensures !version.AtLeastTen() ==>
      options.ignoreTestFiles == Some(opts.ignoreTestFiles) &&
      options.config == if RunCypress.TruthyString(baseUrl) then Some(ConfigOverrides(baseUrl, None)) else None
  {
    var config: Option<ConfigOverrides> :=
      if RunCypress.TruthyString(baseUrl) then Some(ConfigOverrides(baseUrl, None)) else None;
    var browser := IfTruthy(opts.browser);
    var env := if opts.env.Some? then opts.env else None;
    var spec := IfTruthy(opts.spec);
    var headless := IfTrue(opts.headless);
    var ignoreTestFiles := None;
    if version.AtLeastTen() {
      var base := if config.Some? then config.value else ConfigOverrides(None, None);
      config := Some(base.(exclusion := Some((TestingTypeKey(opts.testingType), opts.ignoreTestFiles))));
    } else {
      ignoreTestFiles := Some(opts.ignoreTestFiles);
    }
    var reporter := IfTruthy(opts.reporter);
    var reporterOptions := IfTruthyReporter(opts.reporterOptions);
    var quiet := IfTrue(opts.quiet);
    var autoCancel := if opts.autoCancelAfterFailures.Some? then opts.autoCancelAfterFailures else None;
    options := CypressOptions(DirName(opts.cypressConfig), BaseName(opts.cypressConfig), config, browser, env, spec,
      opts.tag, opts.exit, opts.headed, opts.runnerUi, headless, opts.record, opts.key, opts.parallel,
      BuildIdString(opts.ciBuildId), opts.group, ignoreTestFiles, reporter, reporterOptions, quiet, autoCancel,
      Some(opts.testingType));
  }

  /** The older runner: Cypress is called and its result alone decides
      success; nothing reads `options.config` afterwards. */
  method RunCypressInternal(opts: RunnerOptions, version: Version, result: Option<CypressResult>)
    returns (launch: Launch, success: Result<bool>)
    ensures launch == LaunchOf(opts)
    ensures success == Success(result)
  {
    var options := BuildCypressOptions(opts.baseUrl, opts, version);
    launch := LaunchOf(opts);
    success := Success(result);
  }

  /** The two runners build the same object except for `testingType`, which
      differs exactly when the option is `undefined`: the older runner then
      holds the property with `undefined`, the newer one leaves it out. */
  method CompareRunners(baseUrl: Option<string>, opts: RunnerOptions, version: Version)
    returns (older: CypressOptions, newer: CypressOptions)
    ensures older.(testingType := None) == newer.(testingType := None)
    ensures older.testingType == newer.testingType <==> opts.testingType.Some?
  {
    older := BuildCypressOptions(baseUrl, opts, version);
    newer := RunCypress.BuildCypressOptions(baseUrl, opts, version);
  }
}
