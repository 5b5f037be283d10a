/** The older Cypress preset of the firebase-cypress package. Its base and
    end-to-end configuration are those of `CypressPreset`; on top of them
    its `setupNodeEvents` reuses, refuses or starts the web server before
    the run. Whether `request` can reach the base URL at all is decided by
    the URL's text; whether a server answers there (`isServerUp`), and
    whether a started one answers before the timeout (`waitForServer`'s
    polling), are parameters; so is the started process's pid. */
module LegacyCypressPreset {
  import opened Wrappers
  import opened Text
  import opened Records
  import opened CypressPreset
  import LegacyFirebase
  import Urls

  /** The fields of `config.env` that are read; Cypress always passes an
      `env` object. */
  datatype CypressEnv = CypressEnv(webServerCommand: Option<string>, webServerCommands: Option<Record<string>>)

  const ReadWebServerCommands := "Cannot read properties of undefined (reading 'webServerCommands')"

  /** `config.env.webServerCommands ?? options.webServerCommands`, which
      throws when it falls back on absent options. */
  function ResolvedCommands(env: CypressEnv, options: Option<E2EPresetOptions>): (r: Result<Option<Record<string>>>)
    ensures env.webServerCommands.Some? ==> r == Ok(env.webServerCommands)
    ensures r.Err? <==> env.webServerCommands.None? && options.None?
    ensures r.Err? ==> r.failure == TypeError(ReadWebServerCommands)
    ensures env.webServerCommands.None? && options.Some? ==> r == Ok(options.value.webServerCommands)
  {
    if env.webServerCommands.Some? then Ok(env.webServerCommands)
    else if options.None? then Err(TypeError(ReadWebServerCommands))
    else Ok(options.value.webServerCommands)
  }

  /** `config.env?.webServerCommand ?? webServerCommands?.default`. */
  function ResolvedCommand(env: CypressEnv, commands: Option<Record<string>>): (c: Option<string>)
    ensures env.webServerCommand.Some? ==> c == env.webServerCommand
    ensures env.webServerCommand.None? ==> (c.Some? <==> commands.Some? && HasKey(commands.value, "default"))
    ensures env.webServerCommand.None? && c.Some? ==> ("default", c.value) in commands.value
  {
    if env.webServerCommand.Some? then env.webServerCommand
    else if commands.Some? then Get(commands.value, "default")
    else None
  }

  /** `reuseExistingServer === undefined ? true : reuseExistingServer`. */
  function ReuseExisting(config: Option<WebServerConfig>): (reuse: bool)
    ensures !reuse <==> config.Some? && config.value.reuseExistingServer == Some(false)
  {
    config.None? || config.value.reuseExistingServer.None? || config.value.reuseExistingServer.value
  }

  const DefaultTimeout := 120000

  /** `webServerConfig?.timeout ?? 120 * 1000`, in milliseconds. */
  function TimeoutDuration(config: Option<WebServerConfig>): (t: int)
    ensures config.Some? && config.value.timeout.Some? ==> t == config.value.timeout.value
    ensures config.None? || config.value.timeout.None? ==> t == DefaultTimeout
  {
    if config.Some? && config.value.timeout.Some? then config.value.timeout.value else DefaultTimeout
  }

  /** The rejection of `waitForServer` once the timeout fires. */
  function TimeoutMessage(t: int): string
  {
    "Web server failed to start in " + IntToString(t) + "ms. This can be configured in cypress.config.ts."
  }

  /** The closure `startWebServer` returns for the process `pid`. */
  function WebServerKiller(windows: bool, pid: nat): (k: LegacyFirebase.KillAction)
    ensures windows <==> k.Taskkill?
    ensures k.Taskkill? ==> |k.args| == 4 && k.args[0] == "/pid" && k.args[2] == "/f" && k.args[3] == "/t"
    ensures k.Taskkill? ==> AllDigits(k.args[1]) && DigitsValue(k.args[1]) == pid
    ensures k.SignalGroup? ==> k.pid == -(pid as int) && k.signal == "SIGKILL"
  {
    NatToStringValue(pid);
    if windows then LegacyFirebase.Taskkill(["/pid", NatToString(pid), "/f", "/t"])
    else LegacyFirebase.SignalGroup(-(pid as int), "SIGKILL")
  }

  /** The web-server killer and the emulator killer run the same command on
      Windows; elsewhere both signal the process group, one with SIGKILL and
      the other with SIGINT. */
  lemma KillersDiffer(windows: bool, pid: nat)
    ensures windows ==> WebServerKiller(windows, pid) == LegacyFirebase.EmulatorKiller(windows, pid)
    ensures !windows ==>
      var k := LegacyFirebase.EmulatorKiller(windows, pid);
      k.SignalGroup? && WebServerKiller(windows, pid) == k.(signal := "SIGKILL")
  {
  }

  /** What `setupNodeEvents` sets in motion, in order. */
  datatype Effect =
    | StartServer(command: string)
    | KillOnAfterRun(kill: LegacyFirebase.KillAction)
    | AwaitServer(url: string, timeoutMs: int)

  /** How a `setupNodeEvents` call that does not throw ends, or that it
      never settles. */
  datatype Outcome =
    | Skipped                  // a guard returned before the server check
    | ProbeHangs(url: string)  // `request` cannot reach the URL: `isServerUp` never resolves
    | Reused(url: string)      // a server already answers at the URL
    | Started(command: string) // the command was started and the URL answered in time

  /** The guards before the server check pass: commands were given in the
      options, a command resolves to a non-empty string and the base URL is
      non-empty. */
  predicate Proceeds(options: Option<E2EPresetOptions>, env: CypressEnv, baseUrl: Option<string>)
  {
    var commands := ResolvedCommands(env, options);
    && commands.Ok?
    && options.Some? && options.value.webServerCommands.Some?
    && var command := ResolvedCommand(env, commands.value);
    && command.Some? && command.value != ""
    && baseUrl.Some? && baseUrl.value != ""
  }

  /** `setupNodeEvents(on, config)` of `nxE2EPreset`: `serverUp` is whether
      the probe of a reachable base URL is answered, `comesUp` whether the
      polling is answered before the timeout. */
  method SetupNodeEvents(options: Option<E2EPresetOptions>, env: CypressEnv, baseUrl: Option<string>,
                         serverUp: bool, comesUp: bool, windows: bool, pid: nat)
    returns (r: Result<Outcome>, effects: seq<Effect>)
    ensures ResolvedCommands(env, options).Err? ==> r == Err(TypeError(ReadWebServerCommands)) && effects == []
    ensures ResolvedCommands(env, options).Ok? && !Proceeds(options, env, baseUrl) ==> r == Ok(Skipped) && effects == []
    ensures Proceeds(options, env, baseUrl) && !Urls.Requestable(baseUrl.value) ==>
      r == Ok(ProbeHangs(baseUrl.value)) && effects == []
    ensures Proceeds(options, env, baseUrl) && Urls.Requestable(baseUrl.value) && serverUp ==>
      effects == [] &&
      r == if ReuseExisting(options.value.webServerConfig) then Ok(Reused(baseUrl.value))
           else Err(Error("Web server is already running at " + baseUrl.value))
    ensures Proceeds(options, env, baseUrl) && Urls.Requestable(baseUrl.value) && !serverUp ==>
      var command := ResolvedCommand(env, ResolvedCommands(env, options).value).value;
      var t := TimeoutDuration(options.value.webServerConfig);
      effects == [StartServer(command), KillOnAfterRun(WebServerKiller(windows, pid)), AwaitServer(baseUrl.value, t)] &&
      r == if comesUp then Ok(Started(command)) else Err(Error(TimeoutMessage(t)))
    ensures effects != [] <==> Proceeds(options, env, baseUrl) && Urls.Requestable(baseUrl.value) && !serverUp
  {
    effects := [];
    var commands := ResolvedCommands(env, options);
    if commands.Err? {
      return Err(commands.failure), effects;
    }
    var command := ResolvedCommand(env, commands.value);
    if options.None? || options.value.webServerCommands.None? {
      return Ok(Skipped), effects;
    }
    if command.None? || command.value == "" {
      return Ok(Skipped), effects;
    }
    if baseUrl.None? || baseUrl.value == "" {
      return Ok(Skipped), effects;
    }
    if !Urls.Requestable(baseUrl.value) {
      return Ok(ProbeHangs(baseUrl.value)), effects;
    }
    if serverUp {
      if ReuseExisting(options.value.webServerConfig) {
        return Ok(Reused(baseUrl.value)), effects;
      }
      return Err(Error("Web server is already running at " + baseUrl.value)), effects;
    }
    effects := effects + [StartServer(command.value)];
    effects := effects + [KillOnAfterRun(WebServerKiller(windows, pid))];
    var t := TimeoutDuration(options.value.webServerConfig);
    effects := effects + [AwaitServer(baseUrl.value, t)];
    if comesUp {
      r := Ok(Started(command.value));
    } else {
      r := Err(Error(TimeoutMessage(t)));
    }
  }

  /** Commands given only through `config.env`, with no preset options at
      all, never start a server: the call returns before the server check. */
  lemma EnvCommandsAloneSkip(env: CypressEnv, baseUrl: Option<string>)
    requires env.webServerCommands.Some?
    ensures !Proceeds(None, env, baseUrl)
    ensures ResolvedCommands(env, None) == Ok(env.webServerCommands)
  {
  }

  /** Commands in `config.env` take precedence over the preset's own: with
      both given and no single command in `env`, the `default` of the
      `env` commands is started. */
  lemma EnvCommandsWin(options: E2EPresetOptions, env: CypressEnv, envCommands: Record<string>, c: string)
    requires env == CypressEnv(None, Some(envCommands))
    requires Get(envCommands, "default") == Some(c)
    ensures ResolvedCommand(env, ResolvedCommands(env, Some(options)).value) == Some(c)
  {
  }
}
