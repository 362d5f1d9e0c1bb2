/**
 * `ConfigManager` of the environment manager (env_manager/config.py): the global
 * configuration held in memory and the project's local `pyspace.json`.
 *
 * The files themselves are parameters: what `config.json` held when the object was
 * made, and the state of `pyspace.json` before and after a write.
 */
module Config {

  import opened Values

  /** The configuration written when no `config.json` exists. */
  function DefaultConfig(): (c: map<string, Value>)
    ensures c.Keys == {"python_version", "default_env", "auto_sync"}
  {
    map["python_version" := Str("3.11"), "default_env" := Null, "auto_sync" := Bool(true)]
  }

  /**
   * `get_local_config`: `{}` when `pyspace.json` does not exist, otherwise the
   * document it holds; a file that is not JSON raises JSONDecodeError.
   */
  function LocalConfig(local: JsonFile): (r: Result<Value>)
    ensures local.Absent? ==> r == Ok(Object(map[]))
    ensures local.Holds? ==> r == Ok(local.content)
    ensures r.Raised? <==> local.Malformed?
  {
    match local
    case Absent => Ok(Object(map[]))
    case Holds(v) => Ok(v)
    case Malformed => Raised(JSONDecodeError)
  }

  /**
   * `set_local_config`: the state of `pyspace.json` after the write. When the file
   * cannot be opened for writing the error is only logged and the file stays as it was.
   */
  function WriteLocalConfig(config: Value, writable: bool, before: JsonFile): (after: JsonFile)
    ensures writable ==> after == Holds(config)
    ensures !writable ==> after == before
  {
    if writable then Holds(config) else before
  }

  /** What `set_local_config` wrote is what `get_local_config` reads back. */
  lemma {:induction false} LocalConfigRoundTrip(config: Value, before: JsonFile)
    ensures LocalConfig(WriteLocalConfig(config, true, before)) == Ok(config)
  {
  }

  /** A failed write leaves the local configuration readable exactly as before. */
  lemma {:induction false} FailedWriteKeepsLocalConfig(config: Value, before: JsonFile)
    ensures LocalConfig(WriteLocalConfig(config, false, before)) == LocalConfig(before)
  {
  }

  /** `get(key, default)` after `set(key, value)`: the value set, and other keys as before. */
  lemma {:induction false} SetThenGet(config: map<string, Value>, key: string, value: Value, other: string, default: Value)
    requires other != key
    ensures GetOr(config[key := value], key, default) == value
    ensures GetOr(config[key := value], other, default) == GetOr(config, other, default)
  {
  }

  class ConfigManager {
    var config: map<string, Value>

    /** `__init__`: the loaded `config.json`, or the defaults when there is none. */
    constructor (configFile: Option<map<string, Value>>)
      ensures configFile.None? ==> config == DefaultConfig()
      ensures configFile.Some? ==> config == configFile.value
    {
      config := if configFile.Some? then configFile.value else DefaultConfig();
    }

    /** `get(key, default)`: the stored value, or `default` when the key is absent. */
    function Get(key: string, default: Value): (v: Value)
      reads this
      ensures key in config ==> v == config[key]
      ensures key !in config ==> v == default
    {
      GetOr(config, key, default)
    }

    /** `set(key, value)`: stores the value under the key. */
    method Set(key: string, value: Value)
      modifies this
      ensures config == old(config)[key := value]
    {
      config := config[key := value];
    }
  }
}
