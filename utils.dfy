/**
 * env_manager/utils.py: the result mapping of `run_command` and the
 * platform-dependent locations inside an environment directory.
 */
module Utils {

  import opened Values

  /** A file-system path as its sequence of components; `p / c` is `p + [c]`. */
  type Path = seq<string>

  /**
   * What happens when the operating system is asked to run a command: the process
   * exits with a status and its captured output, the executable is not found, or
   * starting it fails for another reason (a permission error, say).
   */
  datatype Launch =
    | Exited(rc: int, stdout: string, stderr: string)
    | ExecutableMissing
    | LaunchFailed

  /** The `(returncode, stdout, stderr)` triple `run_command` returns. */
  datatype Reply = Reply(rc: int, out: string, err: string)

  /**
   * `run_command`: a missing executable becomes exit status 1 with the message
   * "Command not found"; any other failure to start the process is not caught.
   */
  function RunCommand(launch: Launch): (r: Result<Reply>)
    ensures launch.Exited? ==> r == Ok(Reply(launch.rc, launch.stdout, launch.stderr))
    ensures launch.ExecutableMissing? ==> r == Ok(Reply(1, "", "Command not found"))
    ensures r.Raised? <==> launch.LaunchFailed?
  {
    match launch
    case Exited(rc, out, err) => Ok(Reply(rc, out, err))
    case ExecutableMissing => Ok(Reply(1, "", "Command not found"))
    case LaunchFailed => Raised(OSError)
  }

  /** `is_windows`, given the value of `os.name`. */
  predicate IsWindows(osName: string)
    ensures IsWindows(osName) <==> osName == "nt"
  {
    osName == "nt"
  }

  /** The directory of an environment that holds its executables. */
  function ScriptsDir(env: Path, osName: string): Path
  {
    if IsWindows(osName) then env + ["Scripts"] else env + ["bin"]
  }

  /** `get_python_executable`: the interpreter inside the environment. */
  function PythonExecutable(env: Path, osName: string): (p: Path)
    ensures |p| == |env| + 2 && p[..|env|] == env
    ensures IsWindows(osName) ==> p[|env|..] == ["Scripts", "python.exe"]
    ensures !IsWindows(osName) ==> p[|env|..] == ["bin", "python"]
  {
    ScriptsDir(env, osName) + [if IsWindows(osName) then "python.exe" else "python"]
  }

  /** `get_activate_script`: the activation script inside the environment. */
  function ActivateScript(env: Path, osName: string): (p: Path)
    ensures |p| == |env| + 2 && p[..|env|] == env
    ensures IsWindows(osName) ==> p[|env|..] == ["Scripts", "activate.bat"]
    ensures !IsWindows(osName) ==> p[|env|..] == ["bin", "activate"]
  {
    ScriptsDir(env, osName) + [if IsWindows(osName) then "activate.bat" else "activate"]
  }

  /** The interpreter and the activation script of one environment sit side by side. */
  lemma {:induction false} ExecutableBesideActivateScript(env: Path, osName: string)
    ensures PythonExecutable(env, osName)[..|env| + 1] == ActivateScript(env, osName)[..|env| + 1]
    ensures PythonExecutable(env, osName) != ActivateScript(env, osName)
  {
    var p, a := PythonExecutable(env, osName), ActivateScript(env, osName);
    assert p[|env| + 1] != a[|env| + 1];
  }
}
