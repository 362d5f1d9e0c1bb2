/**
 * `FileWatcher` (daemon/watcher.py): polls one file's modification time and calls
 * its callback when that time moves forward.
 *
 * Modification times are integers (the watcher only stores them and compares them
 * with `>`). What a poll sees is a `Stat` parameter, and every callback invocation
 * is appended to the field `calls`, so the effect of a run of polls can be stated.
 */
module Watcher {

  import opened Values
  import opened Utils

  /** What one look at the file finds: no file, or a file with its modification time. */
  datatype Stat = Missing | Present(mtime: int)

  /**
   * A callable, identified by who supplied it, and whether it accepts the two
   * arguments `(file_path, action)`; one that does not is called again with none.
   */
  datatype Callback = Callback(owner: string, takesPathAndAction: bool)

  /** The arguments a callback received: `(file_path, action)`, or none for the fallback call. */
  datatype Arguments = PathAndAction(path: Path, action: string) | NoArguments

  /** One completed invocation of a callback. */
  datatype Invocation = Invocation(callback: Callback, args: Arguments)

  /** The result of one poll: the new baseline, and whether the callback fires. */
  datatype TickResult = TickResult(baseline: Option<int>, fired: bool)

  /** The result of a run of polls: the final baseline and how many times the callback fired. */
  datatype RunResult = RunResult(baseline: Option<int>, fired: nat)

  /**
   * `callback(file_path, action)`; a callback that does not take those arguments
   * raises TypeError at the call and is called again without arguments.
   */
  function Deliver(cb: Callback, path: Path, action: string): (call: Invocation)
    ensures call.callback == cb
    ensures cb.takesPathAndAction <==> call.args == PathAndAction(path, action)
    ensures !cb.takesPathAndAction <==> call.args == NoArguments
  {
    if cb.takesPathAndAction then Invocation(cb, PathAndAction(path, action)) else Invocation(cb, NoArguments)
  }

  /**
   * One poll of `watch`: a missing file changes nothing; the first time seen
   * becomes the baseline without firing; a strictly later time replaces the
   * baseline and fires; an equal or earlier one changes nothing.
   */
  function Tick(last: Option<int>, seen: Stat): (t: TickResult)
    ensures t.fired <==> last.Some? && seen.Present? && seen.mtime > last.value
    ensures t.fired ==> t.baseline == Some(seen.mtime)
    ensures !t.fired && last.Some? ==> t.baseline == last
    ensures last.None? ==> t.baseline == (if seen.Present? then Some(seen.mtime) else None)
  {
    match seen
    case Missing => TickResult(last, false)
    case Present(m) =>
      if last.None? then TickResult(Some(m), false)
      else if m > last.value then TickResult(Some(m), true)
      else TickResult(last, false)
  }

  /** The first time seen in a run of polls, if any. */
  function FirstSeen(polls: seq<Stat>): Option<int>
  {
    if polls == [] then None
    else if polls[0].Present? then Some(polls[0].mtime)
    else FirstSeen(polls[1..])
  }

  /** A run of polls from baseline `last`: `Tick` after `Tick`, counting the callbacks. */
  function Run(last: Option<int>, polls: seq<Stat>): (r: RunResult)
    ensures r.fired <= |polls|
    ensures last.Some? ==> r.baseline.Some? && last.value <= r.baseline.value
    decreases |polls|
  {
    if polls == [] then RunResult(last, 0)
    else
      var t := Tick(last, polls[0]);
      var rest := Run(t.baseline, polls[1..]);
      RunResult(rest.baseline, rest.fired + if t.fired then 1 else 0)
  }

  /**
   * After a run the baseline is the latest time seen (or the starting baseline when
   * that is later), it is one of those times, and there is none exactly when nothing
   * was ever seen; the callback fires at most once per poll.
   */
  lemma {:induction false} RunBaseline(last: Option<int>, polls: seq<Stat>)
    ensures var r := Run(last, polls);
      && r.fired <= |polls|
      && (r.baseline.None? <==> last.None? && forall i :: 0 <= i < |polls| ==> polls[i].Missing?)
      && (r.baseline.Some? && last.Some? ==> last.value <= r.baseline.value)
      && (r.baseline.Some? ==> forall i :: 0 <= i < |polls| && polls[i].Present? ==> polls[i].mtime <= r.baseline.value)
      && (r.baseline.Some? ==> r.baseline == last || Present(r.baseline.value) in polls)
    decreases |polls|
  {
    if polls != [] {
      var t := Tick(last, polls[0]);
      RunBaseline(t.baseline, polls[1..]);
      var r := Run(last, polls);
      if r.baseline.Some? {
        assert forall i :: 1 <= i < |polls| ==> polls[i] == polls[1..][i - 1];
      }
    }
  }

  /** One more poll at the end of a run is one more `Tick` from the run's baseline. */
  lemma {:induction false} RunSnoc(last: Option<int>, polls: seq<Stat>, seen: Stat)
    ensures var r := Run(last, polls);
      var t := Tick(r.baseline, seen);
      Run(last, polls + [seen]) == RunResult(t.baseline, r.fired + if t.fired then 1 else 0)
    decreases |polls|
  {
    if polls != [] {
      assert (polls + [seen])[1..] == polls[1..] + [seen];
      RunSnoc(Tick(last, polls[0]).baseline, polls[1..], seen);
    }
  }

  /** `n` copies of one invocation. */
  function Repeat(call: Invocation, n: nat): (calls: seq<Invocation>)
    ensures |calls| == n && forall i :: 0 <= i < n ==> calls[i] == call
  {
    if n == 0 then [] else Repeat(call, n - 1) + [call]
  }

  /** A file whose time never passes the baseline never fires and keeps the baseline. */
  lemma {:induction false} UnchangedFileNeverFires(m: int, polls: seq<Stat>)
    requires forall i :: 0 <= i < |polls| && polls[i].Present? ==> polls[i].mtime <= m
    ensures Run(Some(m), polls) == RunResult(Some(m), 0)
  {
    if polls != [] {
      UnchangedFileNeverFires(m, polls[1..]);
    }
  }

  /** Starting without a baseline, the first time seen is taken silently as the baseline. */
  lemma {:induction false} FirstSightPrimes(polls: seq<Stat>)
    ensures FirstSeen(polls).None? ==> Run(None, polls) == RunResult(None, 0)
    ensures FirstSeen(polls).Some? && polls[0].Present? ==>
      Run(None, polls) == Run(Some(polls[0].mtime), polls[1..])
  {
    if polls != [] && polls[0].Missing? {
      FirstSightPrimes(polls[1..]);
    }
  }

  /** Each strictly later time fires once: a file touched `n` times in a row fires `n` times. */
  lemma {:induction false} IncreasingTimesFireEachTime(m: int, polls: seq<Stat>)
    requires forall i :: 0 <= i < |polls| ==> polls[i].Present?
    requires |polls| > 0 ==> polls[0].mtime > m
    requires forall i :: 0 < i < |polls| ==> polls[i].mtime > polls[i - 1].mtime
    ensures Run(Some(m), polls).fired == |polls|
    decreases |polls|
  {
    if polls != [] {
      IncreasingTimesFireEachTime(polls[0].mtime, polls[1..]);
    }
  }

  class FileWatcher {
    var filePath: Path
    var callback: Callback
    var lastModified: Option<int>
    var watching: bool
    var calls: seq<Invocation>

    /** `__init__`: no baseline yet, and not watching. */
    constructor (filePath: Path, callback: Callback)
      ensures this.filePath == filePath && this.callback == callback
      ensures lastModified == None && !watching && calls == []
    {
      this.filePath := filePath;
      this.callback := callback;
      lastModified := None;
      watching := false;
      calls := [];
    }

    /** `watch`: one poll, as `Tick` specifies, invoking the callback when it fires. */
    method Watch(seen: Stat)
      modifies this
      ensures lastModified == Tick(old(lastModified), seen).baseline
      ensures calls == old(calls) + if Tick(old(lastModified), seen).fired then [Deliver(callback, filePath, "modified")] else []
      ensures filePath == old(filePath) && callback == old(callback) && watching == old(watching)
    {
      if seen.Missing? {
        return;
      }
      var current := seen.mtime;
      if lastModified.None? {
        lastModified := Some(current);
      } else if current > lastModified.value {
        lastModified := Some(current);
        calls := calls + [Deliver(callback, filePath, "modified")];
      }
    }

    /**
     * `start_watching`: sets `watching` and polls while it holds. `polls` are the
     * observations the loop makes before `stop_watching` is called from another
     * thread, which happens right after the last of them (or before the first check
     * when there are none).
     */
    method StartWatching(polls: seq<Stat>)
      modifies this
      ensures !watching
      ensures lastModified == Run(old(lastModified), polls).baseline
      ensures calls == old(calls) + Repeat(Deliver(callback, filePath, "modified"), Run(old(lastModified), polls).fired)
      ensures filePath == old(filePath) && callback == old(callback)
    {
      watching := true;
      if polls == [] {
        StopWatching();
      }
      var i := 0;
      ghost var start, startCalls := lastModified, calls;
      ghost var delivery := Deliver(callback, filePath, "modified");
      ghost var fired: nat := 0;
      while watching
        invariant 0 <= i <= |polls|
        invariant watching <==> i < |polls|
        invariant filePath == old(filePath) && callback == old(callback)
        invariant Run(start, polls[..i]) == RunResult(lastModified, fired)
        invariant calls == startCalls + Repeat(delivery, fired)
        decreases |polls| - i
      {
        RunSnoc(start, polls[..i], polls[i]);
        assert polls[..i + 1] == polls[..i] + [polls[i]];
        var fires := Tick(lastModified, polls[i]).fired;
        Watch(polls[i]);
        if fires {
          assert calls == startCalls + (Repeat(delivery, fired) + [delivery]);
          fired := fired + 1;
        }
        i := i + 1;
        if i == |polls| {
          StopWatching();
        }
      }
      assert polls[..i] == polls;
    }

    /** `stop_watching`: the polling loop ends at its next check. */
    method StopWatching()
      modifies this
      ensures !watching
      ensures filePath == old(filePath) && callback == old(callback)
      ensures lastModified == old(lastModified) && calls == old(calls)
    {
      watching := false;
    }

    /** `set_callback` (both definitions in the class do the same): later changes call `cb`. */
    method SetCallback(cb: Callback)
      modifies this
      ensures callback == cb
      ensures filePath == old(filePath) && lastModified == old(lastModified)
      ensures watching == old(watching) && calls == old(calls)
    {
      callback := cb;
    }

    /** `_on_file_change`: passes `(file_path, action)` to the callback unchanged; never raises. */
    method OnFileChange(path: Path, action: string)
      modifies this
      ensures calls == old(calls) + [Deliver(callback, path, action)]
      ensures filePath == old(filePath) && callback == old(callback)
      ensures lastModified == old(lastModified) && watching == old(watching)
    {
      calls := calls + [Deliver(callback, path, action)];
    }
  }
}
