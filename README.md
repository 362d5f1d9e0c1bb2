# PySpace core in Dafny

A Dafny model of the core of PySpace, a Python tool that manages virtual environments. It covers these parts:

- **Environment manager** (`EnvironmentManager`). It creates, lists, activates and removes virtual environments under a base directory and records them in a metadata table.
- **pyenv helpers.** They resolve an interpreter through pyenv and parse the output of `pyenv versions`.
- **Package cache** (`CacheManager`). A metadata table keyed by a checksum of `package@version`, next to the files of the cache directory.
- **Two configuration stores.** One is the environment manager's global and per-project configuration. The other is the daemon's configuration, completed with defaults when it is loaded.
- **File watcher** (`FileWatcher`). It polls the modification time of `pyspace.json`.
- **Background daemon** (`PySpaceDaemon`). It runs the auto-sync check on every tick and reports its status.

Pure logic is written as functions with lemmas. Objects whose fields the program updates in place are Dafny classes. Their methods carry `modifies` clauses and are proved to perform exactly the update a specification function describes. Properties of those functions are proved as lemmas.

The model never runs anything. It represents the outside world as parameters:

- a subprocess is a `Launch`: an exit status with its output, a missing executable, or a failure to start;
- a JSON file is a `JsonFile`: absent, holding a value, or not parseable;
- a poll of the watched file is a `Stat`;
- a directory is a map from entry names to entry kinds;
- MD5 is an arbitrary function `string -> string`.

| file | module | models |
|---|---|---|
| values.dfy | `Values` | JSON values, Python truthiness, exceptions, `Option`/`Result` |
| text.dfy | `Text` | `str.isspace`, `strip`, `lstrip(c)`, `split()[0]`, `splitlines` |
| utils.dfy | `Utils` | env_manager/utils.py |
| pyenv.dfy | `Pyenv` | the pyenv helpers of env_manager/environment.py |
| environment.dfy | `Environment` | `EnvironmentManager` of env_manager/environment.py |
| cache.dfy | `Cache` | env_manager/cache.py |
| config.dfy | `Config` | env_manager/config.py |
| daemon_config.dfy | `DaemonConfig` | pyspace_daemon/config_manager.py |
| watcher.dfy | `Watcher` | daemon/watcher.py |
| daemon.dfy | `Daemon` | daemon/daemon.py |

Two behaviours of the code worth noting:

- `start()` has no guard against a daemon that is already running. Calling it again starts another watcher thread and another loop.
- `stop()` stops the watcher only when the watcher thread is alive and a watcher object exists. That watcher may be the one left by an earlier run, when the new thread has not yet made its own. Stopping it then does not end the new thread.

## Model

| member | source | states |
|---|---|---|
| Text.Strip | env_manager/environment.py:88 | `strip()` is the slice of the string between its leading and its trailing whitespace; neither end of it is whitespace, and it is empty exactly for an all-whitespace string |
| Text.FirstToken | env_manager/environment.py:140 | `split()[0]` is None (IndexError in Python) exactly when the string is all whitespace; otherwise it is the non-empty word that starts after the leading whitespace and ends at the next whitespace or at the end |
| Text.StripKeepsFirstToken | env_manager/environment.py:140 | `strip()` before `split()[0]` does not change the first token |
| Text.SplitLines | env_manager/environment.py:137 | `splitlines()` yields lines without line boundaries, none only for the empty string, and a non-empty string without boundaries as its single line |
| Text.SplitTerminated | env_manager/environment.py:137 | splitting text printed one line per "\n" gives back exactly the printed lines |
| Text.SplitPrinted | env_manager/environment.py:137 | splitting printed lines followed by a last line without a final newline gives back the printed lines and that last line |
| Utils.RunCommand | env_manager/utils.py:7-13 | a finished process gives its status and output; a missing executable gives status 1, empty output and "Command not found"; any other failure to start escapes as an exception |
| Utils.IsWindows | env_manager/utils.py:16-17 | true exactly when `os.name` is "nt" |
| Utils.PythonExecutable | env_manager/utils.py:20-25 | the interpreter is `Scripts/python.exe` under the environment on Windows and `bin/python` elsewhere |
| Utils.ActivateScript | env_manager/utils.py:28-33 | the activation script is `Scripts/activate.bat` on Windows and `bin/activate` elsewhere |
| Utils.ExecutableBesideActivateScript | env_manager/utils.py:20-33 | the interpreter and the activation script share their directory and are different files |
| Pyenv.IsValidPythonVersion | env_manager/environment.py:107-109 | an accepted version has at least five characters, starts with a digit and ends with a digit, or with a digit and one newline |
| Pyenv.FullVersionsAccepted | env_manager/environment.py:107-109 | every `major.minor.micro` of decimal numbers is accepted, with or without one trailing newline (as `$` allows) |
| Pyenv.AcceptedAreFullVersions | env_manager/environment.py:107-109 | everything the check accepts is three decimal numbers joined by dots, optionally followed by one newline |
| Pyenv.ValidVersionExample | env_manager/environment.py:107-109 | "3.10.0" is accepted |
| Pyenv.ShortVersionsRejected | env_manager/environment.py:107-109 | "3", "3.8" and "python3.8" are rejected |
| Pyenv.PrereleaseRejected | env_manager/environment.py:107-109 | "3.8.0-dev" is rejected |
| Pyenv.GetPyenvPythonPath | env_manager/environment.py:119-129 | a path is returned exactly when `pyenv which` exits with 0 and prints non-blank output; the path is that output stripped |
| Pyenv.FindPython | env_manager/environment.py:83-104 | the first query's answer wins; a version that is not `x.y.z` falls back to `sys.executable` without a second query; the result is never None |
| Pyenv.FindPythonWithoutBackend | env_manager/environment.py:86-104 | when neither query answers (pyenv missing or failing, or exiting 0 with only whitespace), every version resolves to `sys.executable` |
| Pyenv.SecondQueryOnlyForFullVersions | env_manager/environment.py:94-99 | for a version that is not `x.y.z`, the second query's answer cannot change the result |
| Pyenv.SecondQueryAnswers | env_manager/environment.py:86-99 | for a full version whose first query gives no answer (failing, or printing only whitespace), a successful second query decides the interpreter |
| Pyenv.InstallPythonVersion | env_manager/environment.py:111-117 | the install succeeds exactly when `pyenv install` exits with 0; a failure to start it counts as False |
| Pyenv.VersionToken | env_manager/environment.py:138-140 | a line has no token (IndexError in Python) exactly when it is whitespace, then only "*"s, then whitespace; otherwise the token is the first whitespace-delimited word after the leading whitespace and the run of "*"s |
| Pyenv.ListedLineToken | env_manager/environment.py:138-140 | a line `* 3.9.1 (set by ...)` or `  3.9.1` yields exactly its version |
| Pyenv.LineTokens | env_manager/environment.py:137-140 | one token per output line, in order |
| Pyenv.InstalledVersions | env_manager/environment.py:131-142 | a missing `pyenv` or a nonzero exit gives []; a failure to start escapes as OSError; after exit 0 the versions are collected exactly when no line is marker-only, one per output line, each the token of its line |
| Pyenv.CollectLines | env_manager/environment.py:137-141 | the lines yield a version each exactly when none of them is marker-only |
| Pyenv.MarkerOnlyLineRaises | env_manager/environment.py:131-142 | a successful listing with a marker-only line (a blank line, say) raises IndexError |
| Pyenv.Collect | env_manager/environment.py:136-142 | the versions are collected exactly when every line has a token, one per line in order; otherwise IndexError escapes |
| Pyenv.RowTokens | env_manager/environment.py:137-141 | the lines of well-formed listing rows are collected into exactly their versions |
| Pyenv.ListingYieldsVersions | env_manager/environment.py:131-142 | a successful `pyenv versions` printing one row per line yields exactly the listed versions, in order, whichever is marked active |
| Pyenv.ListingWithoutFinalNewline | env_manager/environment.py:131-142 | a successful listing of well-formed rows whose last row has no final newline yields exactly the listed versions, in order |
| Pyenv.CollectTokens | env_manager/environment.py:136-141 | the append loop computes `Collect`, stopping with IndexError at the first line without a token |
| Pyenv.ListPyenvVersions | env_manager/environment.py:131-142 | a nonzero exit status gives []; otherwise one version per output line; a failure to start the command escapes |
| Pyenv.EnsurePyenvVersion | env_manager/environment.py:144-150 | a listed version is True without installing; otherwise the result is the install outcome; an error from the listing escapes |
| Environment.ResolvedVersion | env_manager/environment.py:55 | a non-empty requested version is used as given; a missing or "" request gives the configured `python_version`, with KeyError when there is none |
| Environment.Activate | env_manager/environment.py:152-161 | there is no script exactly when nothing exists at `base_dir/name`; otherwise it is `base_dir/name/Scripts/activate.bat` on Windows and `base_dir/name/bin/activate` elsewhere |
| Environment.Create | env_manager/environment.py:45-81 | a True outcome requires a free name and adds exactly that directory and a record under it; any other outcome leaves the registry as it was |
| Environment.Remove | env_manager/environment.py:184-203 | succeeds exactly for a directory, and then drops it and its record; otherwise changes nothing |
| Environment.IsActive | env_manager/environment.py:179-182 | no environment is ever reported active |
| Environment.Describe | env_manager/environment.py:166-175 | the entry of a directory: its name, its path under the base directory, its recorded version or "unknown", and inactive |
| Environment.CurrentEnvironment | env_manager/environment.py:205-213 | without `pyspace.json` the result is the configured default; with one, its "environment"; JSONDecodeError or AttributeError exactly for an unparseable file or a document that is not an object |
| Environment.CreateExisting | env_manager/environment.py:50-53 | creating under an existing name returns False and changes nothing |
| Environment.CreateOutcome | env_manager/environment.py:45-81 | creation returns True exactly when the name is free, a version resolves, an interpreter is found and venv exits with 0; then only the directory and its record are added; any other outcome changes nothing; an exception escapes only from version resolution |
| Environment.CreateRecordsVersion | env_manager/environment.py:55-75 | the recorded version is the requested one, or the configured default when none, or "", was requested |
| Environment.OperationsKeepConsistent | env_manager/environment.py:45-81 | create and remove keep every metadata record attached to an existing environment directory |
| Environment.CreateTwice | env_manager/environment.py:50-53 | a second creation under the same name fails and changes nothing, whatever the commands answer |
| Environment.RemoveOutcome | env_manager/environment.py:184-203 | removal succeeds exactly on an environment directory; it then drops that directory and its record and keeps every other record; a failure changes nothing |
| Environment.CreateThenRemove | env_manager/environment.py:184-203 | removing what was just created restores the directory and drops the record under that name |
| Environment.CreatedIsListedAndActivatable | env_manager/environment.py:163-177 | a created environment is listed with its path and version, inactive, and its activation script is found |
| Environment.DefaultIsCurrent | env_manager/environment.py:205-218 | without `pyspace.json`, the current environment is the one last set as default |
| Environment.EnvironmentManager.constructor | env_manager/environment.py:11-39 | base directory `~/.pyspace/envs` unless given; default configuration and empty metadata when the files are missing |
| Environment.EnvironmentManager.CreateEnvironment | env_manager/environment.py:45-81 | performs exactly the update `Create` specifies and returns its result |
| Environment.EnvironmentManager.RemoveEnvironment | env_manager/environment.py:184-203 | performs exactly the update `Remove` specifies |
| Environment.EnvironmentManager.ListEnvironments | env_manager/environment.py:163-177 | one entry per environment directory, no duplicates, each with its path, recorded version ("unknown" without a record) and `active` false |
| Environment.EnvironmentManager.SetDefaultEnvironment | env_manager/environment.py:215-218 | sets `default_env` to the name and changes nothing else |
| Watcher.Deliver | daemon/watcher.py:49-53 | a callback taking `(path, action)` receives them; any other callback is called again with no arguments |
| Watcher.Tick | daemon/watcher.py:35-55 | fires exactly when a baseline exists and the file's time is strictly later; a fire moves the baseline to that time; otherwise the baseline stays, except that the first sighting sets it |
| Watcher.Run | daemon/watcher.py:14-23 | a run of polls fires at most once per poll and never lowers an existing baseline |
| Watcher.RunBaseline | daemon/watcher.py:42-47 | over any run of polls the baseline never decreases, ends as the latest time seen, is empty only if nothing was ever seen, and fires at most once per poll |
| Watcher.UnchangedFileNeverFires | daemon/watcher.py:45 | a file whose time never exceeds the baseline never fires |
| Watcher.FirstSightPrimes | daemon/watcher.py:42-44 | the first sighting only sets the baseline, without firing |
| Watcher.IncreasingTimesFireEachTime | daemon/watcher.py:45-53 | a file touched `n` times with increasing times fires `n` times |
| Watcher.FileWatcher.constructor | daemon/watcher.py:8-12 | no baseline and not watching |
| Watcher.FileWatcher.Watch | daemon/watcher.py:35-55 | one poll updates the baseline as `Tick` says and invokes the callback once when it fires |
| Watcher.FileWatcher.StartWatching | daemon/watcher.py:14-23 | polls until stopped; the final baseline and the callbacks are those of the run of polls |
| Watcher.FileWatcher.StopWatching | daemon/watcher.py:25-28 | clears `watching` and nothing else |
| Watcher.FileWatcher.SetCallback | daemon/watcher.py:57-59 | replaces the callback and nothing else |
| Watcher.FileWatcher.OnFileChange | daemon/watcher.py:61-70 | passes `(path, action)` to the callback unchanged, with the same fallback, and never raises |
| Config.DefaultConfig | env_manager/config.py:19-23 | a fresh configuration holds exactly `python_version`, `default_env` and `auto_sync` |
| Config.LocalConfig | env_manager/config.py:37-43 | `{}` without `pyspace.json`, its document otherwise; JSONDecodeError exactly for an unparseable file |
| Config.WriteLocalConfig | env_manager/config.py:45-54 | a successful write leaves `pyspace.json` holding the configuration; a failed one leaves it as it was |
| Config.LocalConfigRoundTrip | env_manager/config.py:37-54 | what `set_local_config` wrote is what `get_local_config` reads back |
| Config.FailedWriteKeepsLocalConfig | env_manager/config.py:45-54 | a write that fails raises nothing and leaves the local configuration as it was |
| Config.SetThenGet | env_manager/config.py:30-35 | `get` after `set` returns the value set, and every other key is unchanged |
| Config.ConfigManager.constructor | env_manager/config.py:14-24 | the loaded file, or the defaults when there is none |
| Config.ConfigManager.Get | env_manager/config.py:30-31 | the stored value when the key is present, otherwise the default given |
| Config.ConfigManager.Set | env_manager/config.py:33-35 | stores the value under the key and changes nothing else |
| DaemonConfig.FillMissing | pyspace_daemon/config_manager.py:24-26 | the merge yields the loaded keys plus the default keys, and never overwrites a loaded key |
| DaemonConfig.MissingKeysTakeDefaults | pyspace_daemon/config_manager.py:24-26 | a key missing from the file gets its value from the defaults |
| DaemonConfig.DefaultKeys | pyspace_daemon/config_manager.py:4-10 | the keys of `DEFAULT_CONFIG` are the five listed |
| DaemonConfig.DefaultValues | pyspace_daemon/config_manager.py:4-10 | the list form of `DEFAULT_CONFIG` gives each key the value of the map form |
| DaemonConfig.Merge | pyspace_daemon/config_manager.py:24-26 | the merge loop computes `FillMissing` |
| DaemonConfig.LoadedConfigComplete | pyspace_daemon/config_manager.py:24-26 | after loading, every default key is present and every loaded key keeps its value |
| DaemonConfig.MissingKeysGetDefaults | pyspace_daemon/config_manager.py:24-26 | after loading, every default key the file lacked holds its default value |
| DaemonConfig.ConfigManager.constructor | pyspace_daemon/config_manager.py:14-27 | a copy of `DEFAULT_CONFIG` without a file; otherwise the loaded mapping completed with the defaults |
| DaemonConfig.ConfigManager.Get | pyspace_daemon/config_manager.py:33-34 | the stored value, or None for a missing key |
| DaemonConfig.ConfigManager.Set | pyspace_daemon/config_manager.py:36-38 | stores the value under the key and changes nothing else |
| Cache.CacheKey | env_manager/cache.py:27-30 | the key starts with the package name; with a non-empty version, "@" and then exactly the version follow; without one (None or "") the key is the bare package name |
| Cache.CacheKeyInjective | env_manager/cache.py:27-30 | for package names without "@", equal keys mean the same package and version, where None and "" are the same version |
| Cache.EmptyVersionIsNoVersion | env_manager/cache.py:29-35 | a package cached with version "" is the same entry as one cached without a version |
| Cache.CachingAddsOnlyItsEntry | env_manager/cache.py:37-46 | after caching, the package is cached with its record; whatever was cached stays cached; entries under other checksums keep their records |
| Cache.SizeOfRemove | env_manager/cache.py:71-73 | the summed size does not depend on the order the directory is iterated in |
| Cache.Cleared | env_manager/cache.py:53-55 | after clearing, only the sub-directories and `metadata.json` remain, unchanged |
| Cache.ClearedIsEmpty | env_manager/cache.py:49-79 | after clearing, the size reported by `get_cache_info` is 0 |
| Cache.EmptyMetadataCachesNothing | env_manager/cache.py:32-35 | with empty metadata, `is_cached` is false for every package and version |
| Cache.CacheManager.constructor | env_manager/cache.py:9-21 | directory `~/.pyspace/cache` unless given; metadata loaded, or empty with a metadata file written |
| Cache.CacheManager.IsCached | env_manager/cache.py:32-35 | true exactly when the checksum of the key is in the metadata |
| Cache.CacheManager.CachePackage | env_manager/cache.py:37-47 | records `{package, version, cached_at}` under the checksum and changes nothing else |
| Cache.CacheManager.ClearCache | env_manager/cache.py:49-60 | deletes every file except `metadata.json`, keeps sub-directories, and empties the metadata |
| Cache.CacheManager.PruneCache | env_manager/cache.py:62-66 | changes nothing |
| Cache.CacheManager.GetCacheInfo | env_manager/cache.py:68-79 | reports the number of metadata records, the total size of files other than `metadata.json`, and the directory |
| Daemon.AutoSync | daemon/daemon.py:73-89 | no-op exactly when `auto_sync` is falsy (missing counts as true); would activate exactly when the project declares a truthy environment; fails, caught, exactly on an unparseable file or a non-object document |
| Daemon.Decisions | daemon/daemon.py:34-37 | one auto-sync decision per tick of the main loop, in order |
| Daemon.AutoSyncOnByDefault | daemon/daemon.py:75-76 | with the default configuration, or an empty one, auto-sync is on |
| Daemon.DisabledIgnoresProject | daemon/daemon.py:75-76 | `auto_sync` false makes every check a no-op whatever the project declares |
| Daemon.DeclaredEnvironmentIsActivated | daemon/daemon.py:78-85 | a declared non-empty name is activated (it is never already active); an empty name or a missing file declares nothing |
| Daemon.WatcherFallsBackToNoArguments | daemon/daemon.py:63-65 | the daemon's zero-argument callback is reached through the watcher's no-argument fallback |
| Daemon.PySpaceDaemon.constructor | daemon/daemon.py:13-20 | not running, no thread and no watcher; watches `./pyspace.json` |
| Daemon.PySpaceDaemon.CheckAutoSync | daemon/daemon.py:73-89 | decides as `AutoSync` says and changes no state |
| Daemon.PySpaceDaemon.OnPyspaceJsonChanged | daemon/daemon.py:68-71 | runs exactly one auto-sync check |
| Daemon.PySpaceDaemon.Stop | daemon/daemon.py:45-58 | `running` is false afterwards; the watcher is stopped and the thread joined only when the thread is alive and a watcher exists; the join ends the thread only when that watcher is the thread's own; otherwise nothing else changes, so a second call changes nothing |
| Daemon.PySpaceDaemon.Start | daemon/daemon.py:22-66 | one check per tick, in order; afterwards the daemon is stopped; a watcher the new thread created is no longer watching and the thread has ended; if it had not created one yet, the thread lives on, also on a restart, where the previous run's watcher ends not watching |
| Daemon.PySpaceDaemon.MainLoop | daemon/daemon.py:34-37 | the loop runs one check per tick until `running` is cleared |
| Daemon.PySpaceDaemon.GetStatus | daemon/daemon.py:91-97 | reports `running`, the number of environment directories, and the cache information |

## Left out

- Threads, `time.sleep` and `join(timeout=2)`. Each loop is a sequence of ticks, and the thread that clears `running` or `watching` acts after the last one. A join after stopping the thread's own watcher is taken to end the thread, because the watcher checks `watching` every second, well inside the timeout. A join after stopping a watcher left from an earlier run is taken to time out.
- Daemon.PySpaceDaemon.Start: the watcher thread is reduced to whether it has created its watcher. Its polls, and the calls they make into `_on_pyspace_json_changed`, are modelled by `Watcher.FileWatcher.StartWatching` and `Daemon.PySpaceDaemon.OnPyspaceJsonChanged` on their own.
- Daemon.PySpaceDaemon.Start: a KeyboardInterrupt, or another exception that escapes the loop, ends the loop like the last tick does. Both paths go through `stop()`.
- Logging: every log line is dropped. The daemon's decisions are kept in the `checks` field instead.
- Writing the JSON files (`_save_config`, `_save_metadata`, `save`). Write failures are not modelled, including one after `create_environment` has already updated its metadata in memory. The size of `metadata.json` itself is not tracked, because `get_cache_info` never counts it.
- Environment.ResolvedVersion: a configured `python_version` that is not a string gives TypeError here. The program would instead format that value into the pyenv command.
- Environment names containing "/", "..", or the empty name are treated as plain entry names. Path resolution is not modelled.
- A partially created venv tree, and a partial failure inside `rmtree`: either a command succeeds completely or it changes nothing.
- Metadata records of other shapes. A record is assumed to hold `python_version`, `path` and `created`.
- JSON files that are not parseable, or that do not hold an object, are not modelled when the constructors load them. A `metadata.json` that is a directory is also not modelled.
- Cache.CacheManager.ClearCache: a failure to unlink a file is not modelled. In the program such a failure skips the remaining deletions and leaves the metadata as it was.
- The checksum is an arbitrary function, not MD5. Collisions are therefore possible in the model, and `CachingAddsOnlyItsEntry` promises nothing for entries whose checksum collides.
- Pyenv.IsValidPythonVersion: `\d` is restricted to ASCII digits. Python's `\d` also matches other Unicode decimal digits.
- Floating-point modification times are not modelled: a time is an integer, and the watcher only compares times.
- A callback that raises TypeError from inside its own body is not modelled. The program would take that as a signature mismatch and call the callback again with no arguments. Other exceptions raised by callbacks are caught and logged, and are left out as well.
- Watcher.Deliver: a callback is either one that takes `(path, action)` or one that takes no arguments. A callback of any other arity raises TypeError on both calls; the program logs the second and nothing runs, while the model would record a call with no arguments.
- Daemon.PySpaceDaemon.Start: `watcherReady` merges two steps of the thread, creating its watcher and `start_watching` setting `watching`. A `stop()` that falls between them clears a flag the thread then sets again, so the thread keeps polling; that interleaving is not modelled.
- Writing `pyspace.json` is modelled as either complete or not done at all. A write cut off halfway is not modelled.
