/**
 * The program's configuration and how it is read from the environment.
 * The environment is a map from variable names to their values; a name
 * without an entry is a variable that is not set.
 */
module Configuration {
  import opened Results

  /** The save directory to watch (`src`) and the directory to mirror it into (`dest`). */
  datatype Config = Config(src: string, dest: string)

  type Environment = map<string, string>

  const SavesVariable: string := "RETRO_SAVES"
  const GamesVariable: string := "RETRO_GAMES"

  /** What `std::env::VarError::NotPresent` displays as. */
  const NotPresentMessage: string := "environment variable not found"

  /** The error for a variable that is not set: its name, a colon, then the reason. */
  function MissingVariable(name: string): (message: string)
    ensures name + ": " <= message
  {
    name + ": " + NotPresentMessage
  }

  /**
   * `load_configuration_from_environment`: `RETRO_SAVES` becomes the source
   * and is looked up first; `RETRO_GAMES` becomes the destination.
   */
  function LoadConfigurationFromEnvironment(env: Environment): (r: Result<Config>)
    ensures r.Ok? <==> SavesVariable in env && GamesVariable in env
    ensures r.Ok? ==> r.value == Config(env[SavesVariable], env[GamesVariable])
    ensures SavesVariable !in env ==> r == Err(MissingVariable(SavesVariable))
    ensures SavesVariable in env && GamesVariable !in env ==> r == Err(MissingVariable(GamesVariable))
  {
    if SavesVariable !in env then Err(MissingVariable(SavesVariable))
    else
      var src := env[SavesVariable];
      if GamesVariable !in env then Err(MissingVariable(GamesVariable))
      else Ok(Config(src, env[GamesVariable]))
  }

  /**
   * An error names the variable that was missing: the `RETRO_SAVES:` one
   * exactly when that variable is not set, and the `RETRO_GAMES:` one only
   * when `RETRO_SAVES` is set.
   */
  lemma ErrorNamesMissingVariable(env: Environment)
    requires LoadConfigurationFromEnvironment(env).Err?
    ensures var e := LoadConfigurationFromEnvironment(env).error;
      && (SavesVariable + ": " <= e <==> SavesVariable !in env)
      && (GamesVariable + ": " <= e <==> SavesVariable in env)
  {
    var e := LoadConfigurationFromEnvironment(env).error;
    var saves, games := SavesVariable + ": ", GamesVariable + ": ";
    assert saves[6] != games[6];
    if SavesVariable !in env {
      assert saves <= e;
      assert e[6] == saves[6];
    } else {
      assert games <= e;
      assert e[6] == games[6];
    }
  }

  /** While `RETRO_SAVES` is unset, `RETRO_GAMES` makes no difference to the outcome. */
  lemma SavesCheckedFirst(env1: Environment, env2: Environment)
    requires SavesVariable !in env1 && SavesVariable !in env2
    ensures LoadConfigurationFromEnvironment(env1) == LoadConfigurationFromEnvironment(env2)
    ensures LoadConfigurationFromEnvironment(env1).Err?
  {
  }
}
