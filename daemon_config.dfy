/**
 * `ConfigManager` of the daemon (pyspace_daemon/config_manager.py): a configuration
 * loaded from `config.json` and completed with `DEFAULT_CONFIG` for missing keys.
 */
module DaemonConfig {

  import opened Values

  /** `DEFAULT_CONFIG`, in the order of its declaration. */
  const Defaults: seq<(string, Value)> := [
    ("python_version", Str("3.11")),
    ("default_cache_path", Str("~/.pyspace/cache/wheels")),
    ("workspace_root", Str("~/.pyspace/workspaces")),
    ("daemon_port", Int(5132)),
    ("use_uv", Bool(false))
  ]

  /** `DEFAULT_CONFIG` as a mapping. */
  function DefaultConfig(): map<string, Value>
  {
    map["python_version" := Str("3.11"),
        "default_cache_path" := Str("~/.pyspace/cache/wheels"),
        "workspace_root" := Str("~/.pyspace/workspaces"),
        "daemon_port" := Int(5132),
        "use_uv" := Bool(false)]
  }

  /** The keys of a list of pairs. */
  function KeysOf(items: seq<(string, Value)>): set<string>
  {
    set i | 0 <= i < |items| :: items[i].0
  }

  /**
   * The merge of the loaded configuration with `items`: each pair whose key is not
   * yet present is added, in order. Loaded keys keep their values, every key of
   * `items` ends up present, and nothing else is added.
   */
  function FillMissing(config: map<string, Value>, items: seq<(string, Value)>): (r: map<string, Value>)
    ensures r.Keys == config.Keys + KeysOf(items)
    ensures forall k :: k in config ==> r[k] == config[k]
    decreases |items|
  {
    if items == [] then config
    else
      var (k, v) := items[0];
      var next := if k in config then config else config[k := v];
      assert KeysOf(items) == {k} + KeysOf(items[1..]) by {
        assert forall i :: 1 <= i < |items| ==> items[i] == items[1..][i - 1];
      }
      FillMissing(next, items[1..])
  }

  /** Where a key is missing from the loaded configuration, the merge puts the first default for it. */
  lemma {:induction false} MissingKeysTakeDefaults(config: map<string, Value>, items: seq<(string, Value)>, i: nat)
    requires i < |items| && items[i].0 !in config
    requires forall j :: 0 <= j < i ==> items[j].0 != items[i].0
    ensures FillMissing(config, items)[items[i].0] == items[i].1
    decreases |items|
  {
    var (k, v) := items[0];
    var next := if k in config then config else config[k := v];
    if i > 0 {
      MissingKeysTakeDefaults(next, items[1..], i - 1);
    }
  }

  /** The keys of `DEFAULT_CONFIG`, read off the list of pairs. */
  lemma {:induction false} DefaultKeys()
    ensures KeysOf(Defaults) == DefaultConfig().Keys
  {
    assert Defaults[0].0 == "python_version" && Defaults[1].0 == "default_cache_path";
    assert Defaults[2].0 == "workspace_root" && Defaults[3].0 == "daemon_port" && Defaults[4].0 == "use_uv";
  }

  /** Each pair of the list form holds the value the map form gives its key. */
  lemma {:induction false} DefaultValues()
    ensures forall i :: 0 <= i < |Defaults| ==> Defaults[i].0 in DefaultConfig() && DefaultConfig()[Defaults[i].0] == Defaults[i].1
  {
  }

  /** No key is listed twice in `DEFAULT_CONFIG`. */
  lemma {:induction false} DefaultsDistinct()
    ensures forall i, j :: 0 <= j < i < |Defaults| ==> Defaults[j].0 != Defaults[i].0
  {
    assert Defaults[0].0 == "python_version" && Defaults[1].0 == "default_cache_path";
    assert Defaults[2].0 == "workspace_root" && Defaults[3].0 == "daemon_port" && Defaults[4].0 == "use_uv";
  }

  /** The merge loop of `__init__`: adds each pair whose key is not yet present, in order. */
  method Merge(loaded: map<string, Value>, items: seq<(string, Value)>) returns (merged: map<string, Value>)
    ensures merged == FillMissing(loaded, items)
  {
    merged := loaded;
    for i := 0 to |items|
      invariant FillMissing(loaded, items) == FillMissing(merged, items[i..])
    {
      var (key, value) := items[i];
      assert items[i..][1..] == items[i + 1..];
      if key !in merged {
        merged := merged[key := value];
      }
    }
  }

  class ConfigManager {
    var config: map<string, Value>

    /**
     * `__init__`: a copy of `DEFAULT_CONFIG` when no `config.json` exists; otherwise
     * the loaded mapping, completed key by key with the defaults it lacks.
     */
    constructor (configFile: Option<map<string, Value>>)
      ensures configFile.None? ==> config == DefaultConfig()
      ensures configFile.Some? ==> config == FillMissing(configFile.value, Defaults)
    {
      if configFile.None? {
        config := DefaultConfig();
      } else {
        var merged := Merge(configFile.value, Defaults);
        config := merged;
      }
    }

    /** `get(key)`: the stored value, or None when the key is absent. */
    function Get(key: string): (v: Value)
      reads this
      ensures key in config ==> v == config[key]
      ensures key !in config ==> v == Null
    {
      GetOr(config, key, Null)
    }

    /** `set(key, value)`: stores the value under the key. */
    method Set(key: string, value: Value)
      modifies this
      ensures config == old(config)[key := value]
    {
      config := config[key := value];
    }
  }

  /** After loading, every default key is present and every loaded key keeps its value. */
  lemma {:induction false} LoadedConfigComplete(loaded: map<string, Value>)
    ensures DefaultConfig().Keys <= FillMissing(loaded, Defaults).Keys
    ensures forall k :: k in loaded ==> FillMissing(loaded, Defaults)[k] == loaded[k]
  {
    DefaultKeys();
  }

  /** After loading, every key the file lacked holds its value from `DEFAULT_CONFIG`. */
  lemma {:induction false} MissingKeysGetDefaults(loaded: map<string, Value>)
    ensures forall i :: 0 <= i < |Defaults| && Defaults[i].0 !in loaded ==>
      FillMissing(loaded, Defaults)[Defaults[i].0] == Defaults[i].1
  {
    forall i | 0 <= i < |Defaults| && Defaults[i].0 !in loaded
      ensures FillMissing(loaded, Defaults)[Defaults[i].0] == Defaults[i].1
    {
      DefaultsDistinct();
      MissingKeysTakeDefaults(loaded, Defaults, i);
    }
  }
}
