/** Per-template virtual environments (dynamo_mcp/core/environment_manager.py): where a
    venv's interpreter lives, creating and deleting a venv, and running a module or pip
    with the venv's interpreter. Every failure surfaces as the repository's
    `EnvironmentError`, whose message carries the operation's prefix. */
module EnvironmentManager {
  import opened Outcomes
  import opened Text
  import opened Hosts

  /** `venv/Scripts/python.exe` on Windows, `venv/bin/python` elsewhere. */
  function PythonPath(venv: string, windows: bool): string {
    if windows then PathJoin(PathJoin(venv, "Scripts"), "python.exe")
    else PathJoin(PathJoin(venv, "bin"), "python")
  }

  /** The interpreter of a venv lies strictly inside the venv's directory. */
  lemma PythonPathInside(venv: string, windows: bool)
    requires venv != []
    ensures Under(PythonPath(venv, windows), venv) && PythonPath(venv, windows) != venv
  {
    var dir := if windows then "Scripts" else "bin";
    var exe := if windows then "python.exe" else "python";
    assert dir[..1][0] == dir[0] && exe[..1][0] == exe[0];
    JoinUnder(venv, dir);
    var py := PythonPath(venv, windows);
    assert py == PathJoin(PathJoin(venv, dir), exe);
    assert |py| > |venv|;
  }

  const MissingPythonPrefix := "Python executable not found in virtual environment: "

  /** `_get_python_path`: the interpreter's path when it exists, otherwise an error that
      names the venv. */
  function GetPythonPath(paths: set<string>, windows: bool, venv: string): (r: Result<string>)
    ensures r.Ok? <==> Present(paths, PythonPath(venv, windows))
    ensures r.Ok? ==> r.value == PythonPath(venv, windows)
    ensures r.Err? ==> r.error == Error(Environment, MissingPythonPrefix + venv)
  {
    var py := PythonPath(venv, windows);
    if Present(paths, py) then Ok(py) else Err(Error(Environment, MissingPythonPrefix + venv))
  }

  /** A venv whose directory is gone has no interpreter, so nothing can run in it. */
  lemma NoVenvNoPython(paths: set<string>, windows: bool, venv: string)
    requires venv != [] && !Present(paths, venv)
    ensures GetPythonPath(paths, windows, venv).Err?
  {
    PythonPathInside(venv, windows);
    AbsentBelow(paths, PythonPath(venv, windows), venv);
  }

  const CreatePrefix := "Failed to create virtual environment: "

  /** The command line `create_venv` runs. */
  function VenvArgv(systemPython: string, venv: string): seq<string> {
    [systemPython, "-m", "venv", venv]
  }

  /** `create_venv`: make the directory, then run `python -m venv` with the server's own
      interpreter. A successful run leaves the venv's interpreter on disk; every failure
      (the directory, the spawn, a non-zero exit with its stderr) becomes an
      `EnvironmentError` with the same prefix. Nothing is removed on failure. */
  method CreateVenv(host: Host, venv: string, run: Runner) returns (r: Result<()>)
    modifies host
    ensures old(host.paths) <= host.paths
    ensures host.paths <= old(host.paths) + {venv, PythonPath(venv, host.windows)}
    ensures r.Err? ==> r.error.kind == Environment && StartsWith(r.error.message, CreatePrefix)
    ensures r.Ok? <==> (Present(old(host.paths), venv) || venv !in host.unwritable)
                       && run(VenvArgv(host.systemPython, venv)).Exited?
                       && run(VenvArgv(host.systemPython, venv)).code == 0
    ensures r.Ok? ==> host.Exists(venv) && GetPythonPath(host.paths, host.windows, venv).Ok?
    ensures (match run(VenvArgv(host.systemPython, venv))
             case Exited(c, _, err) => c != 0 && host.Exists(venv) ==> r == Err(Error(Environment, CreatePrefix + err))
             case SpawnFailed(_, m) => host.Exists(venv) ==> r == Err(Error(Environment, CreatePrefix + m)))
  {
    var made := host.MakeDirs(venv);
    if made.Err? {
      return Err(Error(Environment, CreatePrefix + made.error.message));
    }
    var proc := run(VenvArgv(host.systemPython, venv));
    match proc {
      case SpawnFailed(_, m) =>
        return Err(Error(Environment, CreatePrefix + m));
      case Exited(c, _, err) =>
        if c != 0 {
          return Err(Error(Environment, CreatePrefix + err));
        }
        var py := PythonPath(venv, host.windows);
        host.Record({py});
        assert Under(py, py);
        assert host.Exists(venv);
        return Ok(());
    }
  }

  const CleanupPrefix := "Failed to clean up virtual environment: "

  /** `cleanup_venv`: delete the venv's directory when it exists; a deletion that fails
      becomes an `EnvironmentError`. After success the venv, and so its interpreter, is
      gone. */
  method CleanupVenv(host: Host, venv: string) returns (r: Result<()>)
    modifies host
    ensures !Present(old(host.paths), venv) ==> r.Ok? && host.paths == old(host.paths)
    ensures Present(old(host.paths), venv) && Tree(old(host.paths), venv) * host.undeletable == {} ==>
              r.Ok? && host.paths == old(host.paths) - Tree(old(host.paths), venv)
    ensures Present(old(host.paths), venv) && Tree(old(host.paths), venv) * host.undeletable != {} ==>
              (exists q :: q in Tree(old(host.paths), venv) && q in host.undeletable
                           && r == Err(Error(Environment, CleanupPrefix + Denied(q).message)))
              && old(host.paths) - Tree(old(host.paths), venv) <= host.paths <= old(host.paths)
    ensures r.Ok? ==> !host.Exists(venv)
  {
    if host.Exists(venv) {
      var removed := host.RemoveTree(venv);
      if removed.Err? {
        return Err(Error(Environment, CleanupPrefix + removed.error.message));
      }
    }
    return Ok(());
  }

  const RunPrefix := "Failed to run command in virtual environment: "

  /** The command line `run_in_venv` runs: `python -m command args...`. */
  function ModuleArgv(py: string, command: string, args: seq<string>): seq<string> {
    [py, "-m", command] + args
  }

  /** `run_in_venv`: run a module with the venv's interpreter and return its stdout. A
      missing interpreter, a failed spawn and a non-zero exit (reported with its stderr)
      are all `EnvironmentError`s under one prefix. */
  function RunInVenv(paths: set<string>, windows: bool, venv: string, command: string,
                     args: seq<string>, run: Runner): (r: Result<string>)
    ensures r.Ok? <==> Present(paths, PythonPath(venv, windows))
                       && run(ModuleArgv(PythonPath(venv, windows), command, args)).Exited?
                       && run(ModuleArgv(PythonPath(venv, windows), command, args)).code == 0
    ensures r.Ok? ==> r.value == run(ModuleArgv(PythonPath(venv, windows), command, args)).stdout
    ensures r.Err? ==> r.error.kind == Environment && StartsWith(r.error.message, RunPrefix)
    ensures !Present(paths, PythonPath(venv, windows)) ==>
              r == Err(Error(Environment, RunPrefix + MissingPythonPrefix + venv))
  {
    match GetPythonPath(paths, windows, venv)
    case Err(e) => Err(Error(Environment, RunPrefix + e.message))
    case Ok(py) =>
      match run(ModuleArgv(py, command, args))
      case SpawnFailed(_, m) => Err(Error(Environment, RunPrefix + m))
      case Exited(c, out, err) =>
        if c != 0 then Err(Error(Environment, RunPrefix + "Command failed: " + err)) else Ok(out)
  }

  const InstallPrefix := "Failed to install package: "

  /** The command line `install_package` runs. */
  function PipInstallArgv(py: string, package: string): seq<string> {
    [py, "-m", "pip", "install", package]
  }

  /** `install_package`: `pip install` with the venv's interpreter. A non-zero exit is
      raised inside the `try` and re-wrapped, so its message carries the prefix twice. */
  function InstallPackage(paths: set<string>, windows: bool, venv: string, package: string,
                          run: Runner): (r: Result<()>)
    ensures r.Ok? <==> Present(paths, PythonPath(venv, windows))
                       && run(PipInstallArgv(PythonPath(venv, windows), package)).Exited?
                       && run(PipInstallArgv(PythonPath(venv, windows), package)).code == 0
    ensures r.Err? ==> r.error.kind == Environment && StartsWith(r.error.message, InstallPrefix)
    ensures Present(paths, PythonPath(venv, windows)) ==>
              match run(PipInstallArgv(PythonPath(venv, windows), package))
              case Exited(c, _, err) => c != 0 ==> r == Err(Error(Environment, InstallPrefix + InstallPrefix + err))
              case SpawnFailed(_, m) => r == Err(Error(Environment, InstallPrefix + m))
  {
    match GetPythonPath(paths, windows, venv)
    case Err(e) => Err(Error(Environment, InstallPrefix + e.message))
    case Ok(py) =>
      match run(PipInstallArgv(py, package))
      case SpawnFailed(_, m) => Err(Error(Environment, InstallPrefix + m))
      case Exited(c, _, err) =>
        if c != 0 then Err(Error(Environment, InstallPrefix + InstallPrefix + err)) else Ok(())
  }

  /** Once a venv's directory has been cleaned up, neither a module nor pip can run in
      it: both fail with the missing-interpreter message. */
  lemma CleanedVenvIsUnusable(paths: set<string>, windows: bool, venv: string, command: string,
                              args: seq<string>, package: string, run: Runner)
    requires venv != [] && !Present(paths, venv)
    ensures RunInVenv(paths, windows, venv, command, args, run)
            == Err(Error(Environment, RunPrefix + MissingPythonPrefix + venv))
    ensures InstallPackage(paths, windows, venv, package, run)
            == Err(Error(Environment, InstallPrefix + MissingPythonPrefix + venv))
  {
    NoVenvNoPython(paths, windows, venv);
  }
}
