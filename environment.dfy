/**
 * `EnvironmentManager` (env_manager/environment.py): the registry of virtual
 * environments under a base directory, and the metadata that records how each was
 * made.
 *
 * The file system under the base directory is the map `entries` from entry name to
 * its kind; `metadata.json` is the map `metadata`. The operations are specified as
 * functions on a `Registry` value, and the methods of the class are proved to
 * perform exactly those updates on their fields.
 */
module Environment {

  import opened Values
  import opened Utils
  import opened Pyenv

  /** What sits at `base_dir / name`: an environment directory or some other file. */
  datatype EntryKind = Dir | File

  /** One metadata record: `{python_version, path, created}`. */
  datatype EnvRecord = EnvRecord(pythonVersion: string, path: Path, created: Path)

  /** The entries under `base_dir` and the loaded metadata. */
  datatype Registry = Registry(entries: map<string, EntryKind>, metadata: map<string, EnvRecord>)

  /** The answers of the three commands `create_environment` may run. */
  datatype Backend = Backend(which: Launch, whichAgain: Launch, venv: Launch)

  /** What the process itself knows: `os.name`, `sys.executable` and `Path.cwd()`. */
  datatype Host = Host(osName: string, sysExecutable: string, cwd: Path)

  /** The outcome of `create_environment` and the registry it leaves. */
  datatype Created = Created(result: Result<bool>, after: Registry)

  /** The outcome of `remove_environment` and the registry it leaves. */
  datatype Removed = Removed(ok: bool, after: Registry)

  /** One entry of `list_environments`. */
  datatype EnvInfo = EnvInfo(name: string, path: Path, pythonVersion: string, active: bool)

  /** The configuration written when no `config.json` exists. */
  function DefaultConfig(): map<string, Value>
  {
    map["python_version" := Str("3.11"), "default_env" := Null]
  }

  /** The names of the environment directories: the entries that are directories. */
  function DirNames(reg: Registry): set<string>
  {
    set n | n in reg.entries && reg.entries[n] == Dir
  }

  /** Every metadata record belongs to an existing environment directory. */
  predicate Consistent(reg: Registry)
  {
    forall n :: n in reg.metadata ==> n in reg.entries && reg.entries[n] == Dir
  }

  /**
   * `python_version or self.config["python_version"]`: the requested version unless
   * it is missing or empty; KeyError when the configuration has no default.
   */
  function ResolvedVersion(config: map<string, Value>, requested: Option<string>): (r: Result<string>)
    ensures r.Raised? ==> r.error == KeyError || r.error == TypeError
    ensures requested.Some? && requested.value != "" ==> r == Ok(requested.value)
    ensures (requested.None? || requested.value == "") && "python_version" !in config ==> r == Raised(KeyError)
    ensures (requested.None? || requested.value == "") && "python_version" in config && config["python_version"].Str? ==>
      r == Ok(config["python_version"].s)
  {
    if requested.Some? && requested.value != "" then Ok(requested.value)
    else if "python_version" !in config then Raised(KeyError)
    else match config["python_version"]
      case Str(v) => Ok(v)
      case _ => Raised(TypeError)
  }

  /**
   * `create_environment(name, python_version)`: refuses an existing name; resolves the
   * version and the interpreter; runs `<python> -m venv base_dir/name`; and only when
   * that exits with 0 records the directory and the metadata. A failure to start the
   * venv command is caught and reported as False.
   */
  function Create(reg: Registry, baseDir: Path, config: map<string, Value>, name: string,
                  requested: Option<string>, backend: Backend, host: Host): (c: Created)
    ensures c.result == Ok(true) ==> name !in reg.entries && c.after.entries == reg.entries[name := Dir]
    ensures c.result == Ok(true) ==> c.after.metadata.Keys == reg.metadata.Keys + {name}
    ensures c.result != Ok(true) ==> c.after == reg
  {
    if name in reg.entries then Created(Ok(false), reg)
    else match ResolvedVersion(config, requested)
      case Raised(e) => Created(Raised(e), reg)
      case Ok(version) =>
        var exe := FindPython(version, backend.which, backend.whichAgain, host.sysExecutable);
        if exe == "" then Created(Ok(false), reg)
        else match RunCommand(backend.venv)
          case Raised(_) => Created(Ok(false), reg)
          case Ok(reply) =>
            if reply.rc != 0 then Created(Ok(false), reg)
            else
              var record := EnvRecord(version, baseDir + [name], host.cwd);
              Created(Ok(true), Registry(reg.entries[name := Dir], reg.metadata[name := record]))
  }

  /**
   * `remove_environment(name)`: False when nothing exists at `base_dir/name`; a
   * directory is deleted together with its metadata record; `rmtree` on anything else
   * raises, which is caught and reported as False.
   */
  function Remove(reg: Registry, name: string): (r: Removed)
    ensures r.ok <==> name in reg.entries && reg.entries[name].Dir?
    ensures r.ok ==> r.after.entries == reg.entries - {name} && r.after.metadata == reg.metadata - {name}
    ensures !r.ok ==> r.after == reg
  {
    if name !in reg.entries || reg.entries[name] == File then Removed(false, reg)
    else Removed(true, Registry(reg.entries - {name}, reg.metadata - {name}))
  }

  /** `is_active`: no environment is ever reported active. */
  predicate IsActive(name: string)
    ensures !IsActive(name)
  {
    false
  }

  /** The `list_environments` entry of one environment directory. */
  function Describe(baseDir: Path, reg: Registry, name: string): (info: EnvInfo)
    ensures info.name == name && info.path == baseDir + [name] && !info.active
    ensures name in reg.metadata ==> info.pythonVersion == reg.metadata[name].pythonVersion
    ensures name !in reg.metadata ==> info.pythonVersion == "unknown"
  {
    var version := if name in reg.metadata then reg.metadata[name].pythonVersion else "unknown";
    EnvInfo(name, baseDir + [name], version, IsActive(name))
  }

  /** `activate_environment`: the activation script of an existing entry, None otherwise. */
  function Activate(baseDir: Path, reg: Registry, name: string, osName: string): (r: Option<Path>)
    ensures r.None? <==> name !in reg.entries
    ensures r.Some? ==> r.value == ActivateScript(baseDir + [name], osName)
    ensures r.Some? && IsWindows(osName) ==> r.value == baseDir + [name, "Scripts", "activate.bat"]
    ensures r.Some? && !IsWindows(osName) ==> r.value == baseDir + [name, "bin", "activate"]
  {
    if name !in reg.entries then None else Some(ActivateScript(baseDir + [name], osName))
  }

  /**
   * `get_current_environment`: the "environment" of `./pyspace.json` when that file
   * exists, otherwise the configured default. A file that is not JSON raises
   * JSONDecodeError; one that holds no object raises AttributeError on `.get`.
   */
  function CurrentEnvironment(config: map<string, Value>, local: JsonFile): (r: Result<Value>)
    ensures local.Absent? ==> r == Ok(GetOr(config, "default_env", Null))
    ensures local.Holds? && local.content.Object? ==> r == Ok(GetOr(local.content.fields, "environment", Null))
    ensures r.Raised? <==> local.Malformed? || (local.Holds? && !local.content.Object?)
  {
    match local
    case Absent => Ok(GetOr(config, "default_env", Null))
    case Malformed => Raised(JSONDecodeError)
    case Holds(data) =>
      if data.Object? then Ok(GetOr(data.fields, "environment", Null)) else Raised(AttributeError)
  }

  // ---------------------------------------------------------------------------
  // Properties of the registry operations
  // ---------------------------------------------------------------------------

  /** Creating under a name that exists fails and changes nothing. */
  lemma {:induction false} CreateExisting(reg: Registry, baseDir: Path, config: map<string, Value>, name: string,
                                          requested: Option<string>, backend: Backend, host: Host)
    requires name in reg.entries
    ensures Create(reg, baseDir, config, name, requested, backend, host) == Created(Ok(false), reg)
  {
  }

  /**
   * Creation succeeds exactly when the name is free, a version is resolved, an
   * interpreter is found and the venv command exits with 0; it then records the
   * directory and the metadata and nothing else. Every other outcome leaves the
   * registry as it was.
   */
  lemma {:induction false} CreateOutcome(reg: Registry, baseDir: Path, config: map<string, Value>, name: string,
                                         requested: Option<string>, backend: Backend, host: Host)
    ensures var c := Create(reg, baseDir, config, name, requested, backend, host);
      var v := ResolvedVersion(config, requested);
      && (c.result == Ok(true) <==>
            && name !in reg.entries
            && v.Ok?
            && FindPython(v.value, backend.which, backend.whichAgain, host.sysExecutable) != ""
            && backend.venv.Exited? && backend.venv.rc == 0)
      && (c.result == Ok(true) ==>
            c.after == Registry(reg.entries[name := Dir],
                                reg.metadata[name := EnvRecord(v.value, baseDir + [name], host.cwd)]))
      && (c.result != Ok(true) ==> c.after == reg)
      && (c.result.Raised? ==> name !in reg.entries && v.Raised? && c.result.error == v.error)
  {
  }

  /** The version recorded is the requested one, or the configured default when none, or "", was requested. */
  lemma {:induction false} CreateRecordsVersion(reg: Registry, baseDir: Path, config: map<string, Value>, name: string,
                                                requested: Option<string>, backend: Backend, host: Host)
    requires Create(reg, baseDir, config, name, requested, backend, host).result == Ok(true)
    ensures var after := Create(reg, baseDir, config, name, requested, backend, host).after;
      && name in after.metadata
      && (requested.Some? && requested.value != "" ==> after.metadata[name].pythonVersion == requested.value)
      && (requested.None? || requested.value == "" ==> config["python_version"] == Str(after.metadata[name].pythonVersion))
  {
  }

  /** Create and remove keep every metadata record tied to a directory. */
  lemma {:induction false} OperationsKeepConsistent(reg: Registry, baseDir: Path, config: map<string, Value>, name: string,
                                                    requested: Option<string>, backend: Backend, host: Host)
    requires Consistent(reg)
    ensures Consistent(Create(reg, baseDir, config, name, requested, backend, host).after)
    ensures Consistent(Remove(reg, name).after)
  {
    var c := Create(reg, baseDir, config, name, requested, backend, host);
    if c.result == Ok(true) {
      CreateOutcome(reg, baseDir, config, name, requested, backend, host);
      assert c.after.entries == reg.entries[name := Dir];
    }
  }

  /** A name can be created once: the second attempt fails whatever the commands answer. */
  lemma {:induction false} CreateTwice(reg: Registry, baseDir: Path, config: map<string, Value>, name: string,
                                       requested: Option<string>, backend: Backend, again: Option<string>,
                                       backend2: Backend, host: Host)
    requires Create(reg, baseDir, config, name, requested, backend, host).result == Ok(true)
    ensures var after := Create(reg, baseDir, config, name, requested, backend, host).after;
      Create(after, baseDir, config, name, again, backend2, host) == Created(Ok(false), after)
  {
  }

  /** `remove_environment` succeeds exactly on a directory and then drops only that name. */
  lemma {:induction false} RemoveOutcome(reg: Registry, name: string)
    ensures var r := Remove(reg, name);
      && (r.ok <==> name in DirNames(reg))
      && (r.ok ==> DirNames(r.after) == DirNames(reg) - {name} && name !in r.after.metadata)
      && (r.ok ==> forall n :: n != name && n in reg.metadata ==> n in r.after.metadata && r.after.metadata[n] == reg.metadata[n])
      && (!r.ok ==> r.after == reg)
  {
    var r := Remove(reg, name);
    if r.ok {
      assert DirNames(r.after) == DirNames(reg) - {name};
    }
  }

  /** Removing what was just created restores the registry, less any stale record under that name. */
  lemma {:induction false} CreateThenRemove(reg: Registry, baseDir: Path, config: map<string, Value>, name: string,
                                            requested: Option<string>, backend: Backend, host: Host)
    requires Create(reg, baseDir, config, name, requested, backend, host).result == Ok(true)
    ensures var r := Remove(Create(reg, baseDir, config, name, requested, backend, host).after, name);
      && r.ok
      && r.after == Registry(reg.entries, reg.metadata - {name})
  {
    CreateOutcome(reg, baseDir, config, name, requested, backend, host);
    var record := EnvRecord(ResolvedVersion(config, requested).value, baseDir + [name], host.cwd);
    UpdateThenRemove(reg.entries, name, Dir);
    UpdateThenRemove(reg.metadata, name, record);
    assert reg.entries - {name} == reg.entries;
  }

  /** Adding a key and then removing it leaves the map without that key. */
  lemma {:induction false} UpdateThenRemove<V>(m: map<string, V>, k: string, v: V)
    ensures m[k := v] - {k} == m - {k}
  {
  }

  /** A created environment is listed with the version it was created with, and can be activated. */
  lemma {:induction false} CreatedIsListedAndActivatable(reg: Registry, baseDir: Path, config: map<string, Value>, name: string,
                                                         requested: Option<string>, backend: Backend, host: Host)
    requires Create(reg, baseDir, config, name, requested, backend, host).result == Ok(true)
    ensures var after := Create(reg, baseDir, config, name, requested, backend, host).after;
      && name in DirNames(after)
      && Describe(baseDir, after, name) == EnvInfo(name, baseDir + [name], ResolvedVersion(config, requested).value, false)
      && Activate(baseDir, after, name, host.osName) == Some(ActivateScript(baseDir + [name], host.osName))
  {
    CreateOutcome(reg, baseDir, config, name, requested, backend, host);
  }

  /** Without a local `pyspace.json`, the current environment is whatever was last set as default. */
  lemma {:induction false} DefaultIsCurrent(config: map<string, Value>, name: string)
    ensures CurrentEnvironment(config["default_env" := Str(name)], Absent) == Ok(Str(name))
  {
  }

  // ---------------------------------------------------------------------------
  // The manager object
  // ---------------------------------------------------------------------------

  class EnvironmentManager {
    var baseDir: Path
    var registry: Registry
    var config: map<string, Value>

    /**
     * `__init__`: the base directory defaults to `~/.pyspace/envs`; a missing
     * `config.json` yields the default configuration and a missing `metadata.json`
     * an empty metadata map. `dirs` is what already exists under the base directory.
     */
    constructor (base: Option<Path>, home: Path, dirs: map<string, EntryKind>,
                 configFile: Option<map<string, Value>>, metadataFile: Option<map<string, EnvRecord>>)
      ensures base.Some? ==> baseDir == base.value
      ensures base.None? ==> baseDir == home + [".pyspace", "envs"]
      ensures registry.entries == dirs
      ensures configFile.None? ==> config == DefaultConfig()
      ensures configFile.Some? ==> config == configFile.value
      ensures metadataFile.None? ==> registry.metadata == map[]
      ensures metadataFile.Some? ==> registry.metadata == metadataFile.value
    {
      baseDir := if base.Some? then base.value else home + [".pyspace", "envs"];
      config := if configFile.Some? then configFile.value else DefaultConfig();
      registry := Registry(dirs, if metadataFile.Some? then metadataFile.value else map[]);
    }

    /** `create_environment`, performing the update `Create` specifies. */
    method CreateEnvironment(name: string, requested: Option<string>, backend: Backend, host: Host)
      returns (r: Result<bool>)
      modifies this
      ensures Created(r, registry) == Create(old(registry), baseDir, config, name, requested, backend, host)
      ensures baseDir == old(baseDir) && config == old(config)
    {
      if name in registry.entries {
        return Ok(false);
      }
      var version := ResolvedVersion(config, requested);
      if version.Raised? {
        return Raised(version.error);
      }
      var exe := FindPython(version.value, backend.which, backend.whichAgain, host.sysExecutable);
      if exe == "" {
        return Ok(false);
      }
      var reply := RunCommand(backend.venv);
      if reply.Raised? || reply.value.rc != 0 {
        return Ok(false);
      }
      registry := registry.(entries := registry.entries[name := Dir]);
      registry := registry.(metadata := registry.metadata[name := EnvRecord(version.value, baseDir + [name], host.cwd)]);
      return Ok(true);
    }

    /** `remove_environment`, performing the update `Remove` specifies. */
    method RemoveEnvironment(name: string) returns (ok: bool)
      modifies this
      ensures Removed(ok, registry) == Remove(old(registry), name)
      ensures baseDir == old(baseDir) && config == old(config)
    {
      if name !in registry.entries {
        return false;
      }
      if registry.entries[name] == File {
        return false;
      }
      registry := registry.(entries := registry.entries - {name});
      if name in registry.metadata {
        registry := registry.(metadata := registry.metadata - {name});
      }
      return true;
    }

    /**
     * `list_environments`: one entry per directory under the base directory, in the
     * order the directory is iterated (which the model leaves open); metadata of
     * names that are not directories is ignored.
     */
    method ListEnvironments() returns (envs: seq<EnvInfo>)
      ensures |envs| == |DirNames(registry)|
      ensures forall i :: 0 <= i < |envs| ==> envs[i].name in DirNames(registry)
      ensures forall i :: 0 <= i < |envs| ==> envs[i] == Describe(baseDir, registry, envs[i].name)
      ensures forall i, j :: 0 <= i < j < |envs| ==> envs[i].name != envs[j].name
      ensures forall n :: n in DirNames(registry) ==> Describe(baseDir, registry, n) in envs
    {
      var reg, base := registry, baseDir;
      var names := DirNames(reg);
      var remaining := names;
      ghost var order: seq<string> := [];
      envs := [];
      while remaining != {}
        invariant remaining <= names
        invariant |order| == |envs| && |order| + |remaining| == |names|
        invariant forall i :: 0 <= i < |envs| ==> envs[i] == Describe(base, reg, order[i])
        invariant forall i :: 0 <= i < |order| ==> order[i] in names && order[i] !in remaining
        invariant forall i, j :: 0 <= i < j < |order| ==> order[i] != order[j]
        invariant forall n :: n in names && n !in remaining ==> n in order
        decreases remaining
      {
        var n :| n in remaining;
        envs := envs + [Describe(base, reg, n)];
        order := order + [n];
        remaining := remaining - {n};
      }
      assert forall n :: n in order ==> Describe(base, reg, n) in envs;
    }

    /** `set_default_environment`: records the name as the configured default. */
    method SetDefaultEnvironment(name: string)
      modifies this
      ensures config == old(config)["default_env" := Str(name)]
      ensures registry == old(registry) && baseDir == old(baseDir)
    {
      config := config["default_env" := Str(name)];
    }
  }
}
