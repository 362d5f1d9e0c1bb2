/**
 * `PySpaceDaemon` (daemon/daemon.py): the background process that keeps a file
 * watcher on `./pyspace.json`, runs the auto-sync check on every tick of its main
 * loop, and reports its status.
 *
 * Threads and sleeping are not modelled. The main loop is a sequence of ticks, each
 * seeing one state of `pyspace.json`, after which another thread has cleared
 * `running`. The watcher thread is reduced to whether it had created its watcher
 * when the main loop ends.
 */
module Daemon {

  import opened Values
  import opened Utils
  import Config
  import Environment
  import Cache
  import Watcher

  /** What one run of `_check_auto_sync` decides; the daemon only logs it. */
  datatype Decision =
    | SyncDisabled
    | NothingDeclared
    | WouldActivate(env: Value)
    | CheckFailed(error: PyError)

  /** What `get_status` returns. */
  datatype Status = Status(running: bool, environments: nat, cacheInfo: Cache.CacheInfo)

  /**
   * `_check_auto_sync` on the global configuration and the state of `pyspace.json`.
   * It stops at once when `auto_sync` is falsy (a missing key counts as true).
   * Otherwise the declared "environment", when truthy, is never active (`is_active`
   * always says no), so the daemon would activate it. A file that is not JSON, or
   * holds something other than an object, raises inside the `try` and is only logged.
   */
  function AutoSync(config: map<string, Value>, local: JsonFile): (d: Decision)
    ensures d == SyncDisabled <==> !Truthy(GetOr(config, "auto_sync", Bool(true)))
    ensures d.WouldActivate? <==> (Truthy(GetOr(config, "auto_sync", Bool(true))) &&
      local.Holds? && local.content.Object? && Truthy(GetOr(local.content.fields, "environment", Null)))
    ensures d.WouldActivate? ==> d.env == GetOr(local.content.fields, "environment", Null)
    ensures d.CheckFailed? <==> (Truthy(GetOr(config, "auto_sync", Bool(true))) &&
      (local.Malformed? || (local.Holds? && !local.content.Object?)))
    ensures d.CheckFailed? ==> d.error == (if local.Malformed? then JSONDecodeError else AttributeError)
  {
    if !Truthy(GetOr(config, "auto_sync", Bool(true))) then SyncDisabled
    else
      match Config.LocalConfig(local)
      case Raised(e) => CheckFailed(e)
      case Ok(data) =>
        if !data.Object? then CheckFailed(AttributeError)
        else
          var env := GetOr(data.fields, "environment", Null);
          if Truthy(env) then WouldActivate(env) else NothingDeclared
  }

  /** One decision per tick of the main loop, in order. */
  function Decisions(config: map<string, Value>, ticks: seq<JsonFile>): (ds: seq<Decision>)
    ensures |ds| == |ticks|
    ensures forall i :: 0 <= i < |ticks| ==> ds[i] == AutoSync(config, ticks[i])
  {
    seq(|ticks|, i requires 0 <= i < |ticks| => AutoSync(config, ticks[i]))
  }

  /** One more tick adds its decision at the end. */
  lemma {:induction false} DecisionsSnoc(config: map<string, Value>, ticks: seq<JsonFile>, i: nat)
    requires i < |ticks|
    ensures Decisions(config, ticks[..i + 1]) == Decisions(config, ticks[..i]) + [AutoSync(config, ticks[i])]
  {
    var left, right := Decisions(config, ticks[..i + 1]), Decisions(config, ticks[..i]) + [AutoSync(config, ticks[i])];
    assert |left| == |right|;
    forall j | 0 <= j < |left|
      ensures left[j] == right[j]
    {
      assert ticks[..i + 1][j] == ticks[j];
      if j < i {
        assert ticks[..i][j] == ticks[j];
      }
    }
  }

  /** With the default configuration, or none at all, auto-sync is on. */
  lemma {:induction false} AutoSyncOnByDefault(local: JsonFile)
    ensures AutoSync(Config.DefaultConfig(), local) != SyncDisabled
    ensures AutoSync(map[], local) != SyncDisabled
  {
  }

  /** `auto_sync` set to false turns every check into a no-op, whatever the project declares. */
  lemma {:induction false} DisabledIgnoresProject(config: map<string, Value>, local: JsonFile)
    requires "auto_sync" in config && config["auto_sync"] == Bool(false)
    ensures AutoSync(config, local) == SyncDisabled
  {
  }

  /**
   * With auto-sync on, a project declaring a non-empty environment name leads to
   * activating it, and a project without `pyspace.json` declares nothing.
   */
  lemma {:induction false} DeclaredEnvironmentIsActivated(config: map<string, Value>, name: string)
    requires Truthy(GetOr(config, "auto_sync", Bool(true)))
    ensures name != "" ==>
      AutoSync(config, Holds(Object(map["environment" := Str(name)]))) == WouldActivate(Str(name))
    ensures AutoSync(config, Holds(Object(map["environment" := Str("")]))) == NothingDeclared
    ensures AutoSync(config, Absent) == NothingDeclared
  {
    assert GetOr(map["environment" := Str(name)], "environment", Null) == Str(name);
  }

  /** The callable the daemon hands to its watcher: a bound method taking no arguments. */
  const DaemonCallback: Watcher.Callback := Watcher.Callback("PySpaceDaemon._on_pyspace_json_changed", false)

  /** A change seen by the daemon's watcher reaches the daemon through the no-argument fallback. */
  lemma {:induction false} WatcherFallsBackToNoArguments(path: Path)
    ensures Watcher.Deliver(DaemonCallback, path, "modified").args == Watcher.NoArguments
  {
  }

  class PySpaceDaemon {
    const envManager: Environment.EnvironmentManager
    const cacheManager: Cache.CacheManager
    const configManager: Config.ConfigManager
    const pyspaceJsonPath: Path
    var running: bool
    var threadStarted: bool
    var threadAlive: bool
    var watcher: Watcher.FileWatcher?
    /**
     * Whether `watcher` was made by the current watcher thread. After a restart whose
     * thread has not yet made its own, `watcher` is still the previous run's.
     */
    var watcherOwned: bool
    /** The decisions of every `_check_auto_sync` run so far, in order (the daemon logs them). */
    var checks: seq<Decision>

    /** `__init__`: not running, no watcher thread and no watcher; watches `./pyspace.json`. */
    constructor (envManager: Environment.EnvironmentManager, cacheManager: Cache.CacheManager,
                 configManager: Config.ConfigManager, cwd: Path)
      ensures this.envManager == envManager && this.cacheManager == cacheManager
      ensures this.configManager == configManager
      ensures pyspaceJsonPath == cwd + ["pyspace.json"]
      ensures !running && !threadStarted && !threadAlive && watcher == null && !watcherOwned && checks == []
    {
      this.envManager := envManager;
      this.cacheManager := cacheManager;
      this.configManager := configManager;
      pyspaceJsonPath := cwd + ["pyspace.json"];
      running := false;
      threadStarted := false;
      threadAlive := false;
      watcher := null;
      watcherOwned := false;
      checks := [];
    }

    /** `_check_auto_sync`: decides as `AutoSync` says and changes nothing. */
    method CheckAutoSync(local: JsonFile) returns (d: Decision)
      ensures d == AutoSync(configManager.config, local)
    {
      if !Truthy(configManager.Get("auto_sync", Bool(true))) {
        return SyncDisabled;
      }
      var data := Config.LocalConfig(local);
      if data.Raised? {
        return CheckFailed(data.error);
      }
      if !data.value.Object? {
        return CheckFailed(AttributeError);
      }
      var env := GetOr(data.value.fields, "environment", Null);
      if Truthy(env) {
        d := WouldActivate(env);
      } else {
        d := NothingDeclared;
      }
    }

    /** `_on_pyspace_json_changed`: exactly one auto-sync check. */
    method OnPyspaceJsonChanged(local: JsonFile)
      modifies this
      ensures checks == old(checks) + [AutoSync(configManager.config, local)]
      ensures running == old(running) && watcher == old(watcher) && watcherOwned == old(watcherOwned)
      ensures threadStarted == old(threadStarted) && threadAlive == old(threadAlive)
    {
      var d := CheckAutoSync(local);
      checks := checks + [d];
    }

    /**
     * `stop`: clears `running`; when the watcher thread is alive and a watcher exists,
     * stops that watcher and joins the thread. The join ends the thread only when the
     * watcher stopped is the thread's own: its polling loop then exits at its next
     * check, within the join's two seconds. A watcher left from an earlier run does
     * not end the current thread, whose join times out. Calling `stop` again changes
     * nothing more.
     */
    method Stop()
      modifies this, watcher
      ensures !running
      ensures checks == old(checks) && watcher == old(watcher) && threadStarted == old(threadStarted)
      ensures watcherOwned == old(watcherOwned)
      ensures old(threadStarted && threadAlive && watcher != null) ==> !watcher.watching && threadAlive == !watcherOwned
      ensures !old(threadStarted && threadAlive && watcher != null) ==>
        threadAlive == old(threadAlive) && (watcher != null ==> watcher.watching == old(watcher.watching))
      ensures watcher != null ==> (watcher.filePath == old(watcher.filePath) && watcher.calls == old(watcher.calls) &&
        watcher.lastModified == old(watcher.lastModified) && watcher.callback == old(watcher.callback))
    {
      running := false;
      if threadStarted && threadAlive {
        if watcher != null {
          watcher.StopWatching();
          if watcherOwned {
            threadAlive := false;
          }
        }
      }
    }

    /**
     * `start`: sets `running`, starts a new watcher thread, and runs `_check_auto_sync`
     * once per tick until `running` is cleared; every way out of the loop goes through
     * `stop`. `watcherReady` says whether the new thread had created its watcher (and
     * entered its polling loop) by then. If it had not, `stop` finds no watcher, or
     * only the previous run's, and the thread lives on: it goes on to make its watcher
     * and polls with nobody left to stop it.
     */
    method Start(ticks: seq<JsonFile>, watcherReady: bool)
      modifies this, watcher
      ensures !running && threadStarted
      ensures checks == old(checks) + Decisions(configManager.config, ticks)
      ensures watcherReady ==> (fresh(watcher) && watcher.filePath == pyspaceJsonPath &&
        watcher.callback == DaemonCallback && !watcher.watching && watcherOwned && !threadAlive)
      ensures !watcherReady ==> watcher == old(watcher) && !watcherOwned && threadAlive
      ensures !watcherReady && old(watcher) != null ==> !watcher.watching
    {
      threadStarted := true;
      threadAlive := true;
      watcherOwned := watcherReady;
      if watcherReady {
        var w := new Watcher.FileWatcher(pyspaceJsonPath, DaemonCallback);
        w.watching := true;
        watcher := w;
      }
      MainLoop(ticks);
      Stop();
    }

    /**
     * The main loop of `start`: `running` is set, then one `_check_auto_sync` per tick
     * while it holds; another thread clears it after the last tick (or before the
     * first check when there are none).
     */
    method MainLoop(ticks: seq<JsonFile>)
      modifies this
      ensures !running
      ensures checks == old(checks) + Decisions(configManager.config, ticks)
      ensures threadStarted == old(threadStarted) && threadAlive == old(threadAlive) && watcher == old(watcher)
      ensures watcherOwned == old(watcherOwned)
    {
      running := true;
      var config := configManager.config;
      ghost var before := checks;
      var i := 0;
      if ticks == [] {
        running := false;
      }
      while running
        invariant 0 <= i <= |ticks|
        invariant running <==> i < |ticks|
        invariant checks == before + Decisions(config, ticks[..i])
        invariant threadStarted == old(threadStarted) && threadAlive == old(threadAlive) && watcher == old(watcher)
        invariant watcherOwned == old(watcherOwned)
        decreases |ticks| - i
      {
        var d := CheckAutoSync(ticks[i]);
        DecisionsSnoc(config, ticks, i);
        checks := checks + [d];
        i := i + 1;
        if i == |ticks| {
          running := false;
        }
      }
      assert ticks[..i] == ticks;
    }

    /**
     * `get_status`: whether the daemon is running, how many environments
     * `list_environments` reports, and the cache information.
     */
    method GetStatus() returns (status: Status)
      ensures status.running == running
      ensures status.environments == |Environment.DirNames(envManager.registry)|
      ensures status.cacheInfo.totalPackages == |cacheManager.metadata|
      ensures status.cacheInfo.totalSize == Cache.TotalSize(cacheManager.files)
      ensures status.cacheInfo.cacheDir == cacheManager.cacheDir
    {
      var envs := envManager.ListEnvironments();
      var info := cacheManager.GetCacheInfo();
      status := Status(running, |envs|, info);
    }
  }
}
