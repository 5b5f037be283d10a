/** The options both Cypress runners accept (`CypressRunnerSchema`), the
    option object they hand to `Cypress.run` or `Cypress.open`, and the result
    Cypress answers with. */
module CypressRunner {
  import opened Wrappers
  import opened Records
  import Text

  /** `'component' | 'e2e'`. */
  datatype TestingType = E2eTesting | ComponentTesting

  /** The property name `options.config[testingType]` writes: an absent
      testing type names the key `undefined`. */
  function TestingTypeKey(t: Option<TestingType>): (k: string)
    ensures t == Some(E2eTesting) <==> k == "e2e"
    ensures t == Some(ComponentTesting) <==> k == "component"
    ensures t.None? <==> k == "undefined"
  {
    match t
    case None => "undefined"
    case Some(E2eTesting) => "e2e"
    case Some(ComponentTesting) => "component"
  }

  /** `string | string[]`. */
  datatype SpecPatterns = OnePattern(pattern: string) | Patterns(patterns: seq<string>)

  /** `string | number`. */
  datatype BuildId = StringId(id: string) | NumberId(n: int)

  /** `boolean | number`. */
  datatype CancelAfter = CancelFlag(flag: bool) | CancelCount(count: int)
  {
    /** JavaScript truthiness. */
    predicate Truthy()
    {
      (CancelFlag? && flag) || (CancelCount? && count != 0)
    }
  }

  /** `string | Json`: an object is always truthy. */
  datatype ReporterOptions = ReporterString(text: string) | ReporterObject(fields: Record<string>)
  {
    predicate Truthy()
    {
      ReporterObject? || text != ""
    }
  }

  /** `CypressRunnerSchema`; `None` is a property left `undefined`. */
  datatype RunnerOptions = RunnerOptions(
    baseUrl: Option<string>,
    cypressConfig: string,
    browser: Option<string>,
    env: Option<Record<string>>,
    spec: Option<string>,
    tag: Option<string>,
    exit: Option<bool>,
    headed: Option<bool>,
    runnerUi: Option<bool>,
    headless: Option<bool>,
    record: Option<bool>,
    key: Option<string>,
    parallel: Option<bool>,
    ciBuildId: Option<BuildId>,
    group: Option<string>,
    testingType: Option<TestingType>,
    ignoreTestFiles: Option<SpecPatterns>,
    reporter: Option<string>,
    reporterOptions: Option<ReporterOptions>,
    quiet: Option<bool>,
    autoCancelAfterFailures: Option<CancelAfter>,
    watch: Option<bool>,
    ctTailwindPath: Option<string>,
    portLockFilePath: Option<string>)

  /** The `config` property of the option object: `{ baseUrl }` and at most
      one `{ excludeSpecPattern }` entry under a testing-type key. */
  datatype ConfigOverrides = ConfigOverrides(
    baseUrl: Option<string>,
    exclusion: Option<(string, Option<SpecPatterns>)>)

  /** The option object handed to Cypress. A field of type `Option<T>`
      stands for a property that is absent when `None`. A field of type
      `Option<Option<T>>` stands for a property that, when present, may hold
      `undefined`. The properties assigned unconditionally are always
      present. */
  datatype CypressOptions = CypressOptions(
    project: string,
    configFile: string,
    config: Option<ConfigOverrides>,
    browser: Option<string>,
    env: Option<Record<string>>,
    spec: Option<string>,
    tag: Option<string>,
    exit: Option<bool>,
    headed: Option<bool>,
    runnerUi: Option<bool>,
    headless: Option<bool>,
    record: Option<bool>,
    key: Option<string>,
    parallel: Option<bool>,
    ciBuildId: Option<string>,
    group: Option<string>,
    ignoreTestFiles: Option<Option<SpecPatterns>>,
    reporter: Option<string>,
    reporterOptions: Option<ReporterOptions>,
    quiet: Option<bool>,
    autoCancelAfterFailures: Option<CancelAfter>,
    testingType: Option<Option<TestingType>>)

  /** Which entry point of the Cypress module is called. */
  datatype Launch = OpenCypress | RunCypress

  /** `opts.watch ? Cypress.open(options) : Cypress.run(options)`. */
  function LaunchOf(opts: RunnerOptions): (l: Launch)
    ensures l == OpenCypress <==> opts.watch == Some(true)
  {
    if opts.watch == Some(true) then OpenCypress else RunCypress
  }

  /** The fields of the value Cypress resolves with that decide success. */
  datatype CypressResult = CypressResult(totalFailed: Option<int>, failures: Option<int>)

  const ReadTotalFailed := "Cannot read properties of undefined (reading 'totalFailed')"

  /** `!result.totalFailed && !result.failures`; a Cypress call that resolves
      with nothing (`None`) makes the first read throw. */
  function Success(result: Option<CypressResult>): (r: Result<bool>)
    ensures result.None? <==> r == Err(TypeError(ReadTotalFailed))
    ensures result.Some? ==>
      r.Ok? && (r.value <==> result.value.totalFailed in {None, Some(0)} && result.value.failures in {None, Some(0)})
  {
    match result
    case None => Err(TypeError(ReadTotalFailed))
    case Some(res) =>
      Ok((res.totalFailed.None? || res.totalFailed.value == 0) && (res.failures.None? || res.failures.value == 0))
  }

  /** `opts.ciBuildId?.toString()`. */
  function BuildIdString(id: Option<BuildId>): (s: Option<string>)
    ensures s.Some? <==> id.Some?
  {
    match id
    case None => None
    case Some(StringId(text)) => Some(text)
    case Some(NumberId(n)) => Some(Text.IntToString(n))
  }

  /** A string property copied by `if (opts.x) options.x = opts.x`. */
  function IfTruthy(s: Option<string>): (r: Option<string>)
    ensures r.Some? <==> s.Some? && s.value != ""
    ensures r.Some? ==> r == s
  {
    if s.Some? && s.value != "" then s else None
  }

  /** A boolean property copied by `if (opts.x) options.x = opts.x`. */
  function IfTrue(b: Option<bool>): (r: Option<bool>)
    ensures r.Some? <==> b == Some(true)
    ensures r.Some? ==> r == b
  {
    if b == Some(true) then b else None
  }

  /** `if (opts.reporterOptions) options.reporterOptions = opts.reporterOptions`. */
  function IfTruthyReporter(o: Option<ReporterOptions>): (r: Option<ReporterOptions>)
    ensures r.Some? <==> o.Some? && o.value.Truthy()
    ensures r.Some? ==> r == o
  {
    if o.Some? && o.value.Truthy() then o else None
  }
}
