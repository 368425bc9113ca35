/**
 * `main`: load the configuration, validate it, then watch.  The first
 * stage that fails ends the process with exit code 1 after logging
 * `error: ` and the stage's message; a later stage is never reached.
 */
module SaveSync {
  import opened Results
  import opened Paths
  import opened Configuration
  import opened Validation
  import opened Dispatch

  const FailureExitCode: int := 1

  /** How a run ends: an exit with a code and its logged diagnostic, or a watch that keeps going. */
  datatype Outcome = Exited(code: int, diagnostic: string) | Watching(config: Config, copied: seq<Path>)

  /** The line `main` logs for a failed stage. */
  function Diagnostic(message: string): (line: string)
    ensures "error: " <= line && line[|"error: "|..] == message
  {
    "error: " + message
  }

  /** Loading, validation and watcher setup all succeed, so the loop runs. */
  predicate StartsWatching(env: Environment, fs: FileSystem, setup: WatcherSetup) {
    && LoadConfigurationFromEnvironment(env).Ok?
    && ValidateConfig(LoadConfigurationFromEnvironment(env).value, fs).Ok?
    && setup.Starts()
  }

  /** When the loop runs, every path it relativises lies in the loaded source tree. */
  predicate EventsUnderLoadedSource(env: Environment, fs: FileSystem, setup: WatcherSetup, events: seq<Received>) {
    StartsWatching(env, fs, setup) ==> EventsUnderSource(LoadConfigurationFromEnvironment(env).value, events)
  }

  /**
   * `main` over an environment, a filesystem, the watcher's setup outcomes
   * and a finite run of receives.
   */
  function Main(env: Environment, fs: FileSystem, setup: WatcherSetup, events: seq<Received>): (o: Outcome)
    requires EventsUnderLoadedSource(env, fs, setup, events)
    ensures o.Exited? ==> o.code == FailureExitCode
    ensures o.Watching? <==>
      && LoadConfigurationFromEnvironment(env).Ok?
      && ValidateConfig(LoadConfigurationFromEnvironment(env).value, fs).Ok?
      && setup.newError.None? && setup.watchError.None?
    ensures o.Watching? ==> o.config == Config(env[SavesVariable], env[GamesVariable])
    ensures o.Watching? ==> Usable(fs, o.config.src) && Usable(fs, o.config.dest)
    ensures o.Watching? ==> EventsUnderSource(o.config, events) && o.copied == Dispatched(o.config, events)
  {
    match LoadConfigurationFromEnvironment(env)
    case Err(e) => Exited(FailureExitCode, Diagnostic(e))
    case Ok(config) =>
      match ValidateConfig(config, fs)
      case Err(e) => Exited(FailureExitCode, Diagnostic(e))
      case Ok(_) =>
        match WatchResult(config, setup, events)
        case Failed(e) => Exited(FailureExitCode, Diagnostic(e))
        case Running(copied) => Watching(config, copied)
  }

  /**
   * A failed load ends the run with its own message: the filesystem, the
   * watcher and the events play no part, so validation and watching are not tried.
   */
  lemma LoadFailureStopsEarly(env: Environment, fs1: FileSystem, fs2: FileSystem,
                              setup1: WatcherSetup, setup2: WatcherSetup,
                              events1: seq<Received>, events2: seq<Received>)
    requires LoadConfigurationFromEnvironment(env).Err?
    ensures Main(env, fs1, setup1, events1) == Main(env, fs2, setup2, events2)
    ensures Main(env, fs1, setup1, events1)
         == Exited(FailureExitCode, Diagnostic(LoadConfigurationFromEnvironment(env).error))
  {
  }

  /**
   * A failed validation ends the run with the validator's message: the
   * watcher and the events play no part, so watching is not tried.
   */
  lemma ValidationFailureStopsEarly(env: Environment, fs: FileSystem,
                                    setup1: WatcherSetup, setup2: WatcherSetup,
                                    events1: seq<Received>, events2: seq<Received>)
    requires LoadConfigurationFromEnvironment(env).Ok?
    requires ValidateConfig(LoadConfigurationFromEnvironment(env).value, fs).Err?
    ensures Main(env, fs, setup1, events1) == Main(env, fs, setup2, events2)
    ensures Main(env, fs, setup1, events1)
         == Exited(FailureExitCode, Diagnostic(ValidateConfig(LoadConfigurationFromEnvironment(env).value, fs).error))
  {
  }

  /** A watcher that cannot start ends the run with the watcher's message, whatever the events. */
  lemma WatchFailureExits(env: Environment, fs: FileSystem, setup: WatcherSetup,
                          events1: seq<Received>, events2: seq<Received>)
    requires LoadConfigurationFromEnvironment(env).Ok?
    requires ValidateConfig(LoadConfigurationFromEnvironment(env).value, fs).Ok?
    requires !setup.Starts()
    ensures Main(env, fs, setup, events1) == Main(env, fs, setup, events2)
    ensures Main(env, fs, setup, events1) == Exited(FailureExitCode,
      Diagnostic(if setup.newError.Some? then setup.newError.value else setup.watchError.value))
  {
  }

  /** A missing source root exits with code 1 before any watch is set up. */
  lemma MissingSourceExits(env: Environment, fs: FileSystem, setup: WatcherSetup, events: seq<Received>)
    requires SavesVariable in env && GamesVariable in env
    requires !fs.Exists(env[SavesVariable])
    ensures Main(env, fs, setup, events) == Exited(1, Diagnostic(SourceMissing))
  {
  }

  /** With both roots in place, a file created as `/a/x/y.txt` is copied as `x/y.txt`. */
  lemma CreatedFileRunExample()
    ensures var env := map[SavesVariable := "/a", GamesVariable := "/b"];
      var fs := FileSystem(map["/a" := Directory, "/b" := Directory]);
      var events := [Delivered(Create(Path(true, ["a", "x", "y.txt"])))];
      EventsUnderLoadedSource(env, fs, WatcherSetup(None, None), events)
      && Main(env, fs, WatcherSetup(None, None), events)
         == Watching(Config("/a", "/b"), [Path(false, ["x", "y.txt"])])
  {
    CreatedFileExample();
    var env := map[SavesVariable := "/a", GamesVariable := "/b"];
    assert env[SavesVariable] == "/a" && env[GamesVariable] == "/b";
    var events := [Delivered(Create(Path(true, ["a", "x", "y.txt"])))];
    assert LoadConfigurationFromEnvironment(env) == Ok(Config("/a", "/b"));
  }
}
