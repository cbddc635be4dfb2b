/** The post-generation hook (hooks/post_gen_project.py): in the freshly rendered
    project directory, delete the files the answers switched off, then try `git init`
    and a virtual environment with the project installed into it, warning rather than
    failing when those commands exit with an error. */
module PostGen {
  import opened Outcomes
  import opened Text
  import opened Hosts

  /** The rendered answers the hook reads. */
  datatype Answers = Answers(usePytest: string, useBlack: string, license: string)

  const PytestConfig := "pytest.ini"
  const PytestExample := "tests/test_basic.py"
  const PreCommitConfig := ".pre-commit-config.yaml"
  const LicenseFile := "LICENSE"
  const ClosedLicense := "Not open source"

  /** The files the test answer removes: both pytest files unless it is exactly `y`. */
  function PytestTargets(a: Answers): seq<string> {
    if a.usePytest != "y" then [PytestConfig, PytestExample] else []
  }

  /** The files the remaining answers remove, in the order `main` removes them. */
  function LaterTargets(a: Answers): seq<string> {
    (if a.useBlack != "y" then [PreCommitConfig] else [])
    + (if a.license == ClosedLicense then [LicenseFile] else [])
  }

  /** The files `main` removes, relative to the project directory, in order: the pytest
      files when the answer is not `y`, the pre-commit configuration when the black
      answer is not `y`, the licence for a closed-source project, and nothing else. */
  function Targets(a: Answers): (fs: seq<string>)
    ensures PytestConfig in fs <==> a.usePytest != "y"
    ensures PytestExample in fs <==> a.usePytest != "y"
    ensures PreCommitConfig in fs <==> a.useBlack != "y"
    ensures LicenseFile in fs <==> a.license == ClosedLicense
    ensures forall f :: f in fs ==> f in {PytestConfig, PytestExample, PreCommitConfig, LicenseFile}
    ensures forall i, j :: 0 <= i < j < |fs| ==> fs[i] != fs[j]
  {
    PytestTargets(a) + LaterTargets(a)
  }

  /** Removing the files `fs` of directory `project` one after another with `os.remove`,
      stopping at the first removal that raises: that error, or success, and the paths
      left afterwards. */
  function Removal(paths: set<string>, undeletable: set<string>, project: string, fs: seq<string>)
    : (Result<()>, set<string>)
    decreases |fs|
  {
    if fs == [] then (Ok(()), paths)
    else
      var p := PathJoin(project, fs[0]);
      if p !in paths then (Err(NotFound(p)), paths)
      else if p in undeletable then (Err(Denied(p)), paths)
      else Removal(paths - {p}, undeletable, project, fs[1..])
  }

  /** One removal, then the rest. */
  lemma RemovalStep(paths: set<string>, undeletable: set<string>, project: string, f: string, fs: seq<string>)
    ensures var p := PathJoin(project, f);
            Removal(paths, undeletable, project, [f] + fs)
            == if p !in paths then (Err(NotFound(p)), paths)
               else if p in undeletable then (Err(Denied(p)), paths)
               else Removal(paths - {p}, undeletable, project, fs)
  {
    assert ([f] + fs)[1..] == fs;
  }

  /** Removing `a + b` is removing `a`, then, if that succeeded, removing `b` from what
      is left. */
  lemma {:induction false} RemovalAppend(paths: set<string>, undeletable: set<string>, project: string,
                                        a: seq<string>, b: seq<string>)
    ensures var (ra, left) := Removal(paths, undeletable, project, a);
            Removal(paths, undeletable, project, a + b)
            == if ra.Err? then (ra, left) else Removal(left, undeletable, project, b)
    decreases |a|
  {
    if a == [] {
      assert a + b == b;
    } else {
      var p := PathJoin(project, a[0]);
      assert (a + b)[0] == a[0] && (a + b)[1..] == a[1..] + b;
      if p in paths && p !in undeletable {
        RemovalAppend(paths - {p}, undeletable, project, a[1..], b);
      }
    }
  }

  /** Removal deletes only the listed files, and only on success can all of them be gone. */
  lemma {:induction false} RemovalOnlyTargets(paths: set<string>, undeletable: set<string>, project: string,
                                             fs: seq<string>)
    ensures var (r, left) := Removal(paths, undeletable, project, fs);
            left <= paths && forall q :: q in paths - left ==> exists f :: f in fs && q == PathJoin(project, f)
    decreases |fs|
  {
    if fs != [] {
      var p := PathJoin(project, fs[0]);
      if p in paths && p !in undeletable {
        RemovalOnlyTargets(paths - {p}, undeletable, project, fs[1..]);
        var left := Removal(paths, undeletable, project, fs).1;
        assert left == Removal(paths - {p}, undeletable, project, fs[1..]).1;
        forall q | q in paths - left ensures exists f :: f in fs && q == PathJoin(project, f) {
          if q != p {
            assert q in (paths - {p}) - left;
            var f :| f in fs[1..] && q == PathJoin(project, f);
            assert f in fs;
          } else {
            assert fs[0] in fs;
          }
        }
      }
    }
  }

  /** When every listed file exists and may be deleted, and no two name the same path,
      all of them go and nothing else does. */
  lemma {:induction false} RemovalAll(paths: set<string>, undeletable: set<string>, project: string,
                                     fs: seq<string>)
    requires forall f :: f in fs ==> PathJoin(project, f) in paths && PathJoin(project, f) !in undeletable
    requires forall i, j :: 0 <= i < j < |fs| ==> PathJoin(project, fs[i]) != PathJoin(project, fs[j])
    ensures Removal(paths, undeletable, project, fs)
            == (Ok(()), paths - set f | f in fs :: PathJoin(project, f))
    decreases |fs|
  {
    if fs == [] {
      assert (set f | f in fs :: PathJoin(project, f)) == {};
      assert paths - {} == paths;
    } else {
      var p := PathJoin(project, fs[0]);
      var rest := fs[1..];
      forall f | f in rest ensures PathJoin(project, f) in paths - {p} {
        var k :| 0 <= k < |rest| && rest[k] == f;
        assert fs[k + 1] == f;
      }
      forall i, j | 0 <= i < j < |rest| ensures PathJoin(project, rest[i]) != PathJoin(project, rest[j]) {
        assert rest[i] == fs[i + 1] && rest[j] == fs[j + 1];
      }
      RemovalAll(paths - {p}, undeletable, project, rest);
      assert fs[0] in fs;
      assert Removal(paths, undeletable, project, fs) == Removal(paths - {p}, undeletable, project, rest);
      var all := set f | f in fs :: PathJoin(project, f);
      var later := set f | f in rest :: PathJoin(project, f);
      JoinedFirst(project, fs);
      assert paths - all == (paths - {p}) - later;
    }
  }

  /** The paths of a non-empty list of files are the first one's and the rest's. */
  lemma JoinedFirst(project: string, fs: seq<string>)
    requires fs != []
    ensures (set f | f in fs :: PathJoin(project, f))
            == {PathJoin(project, fs[0])} + set f | f in fs[1..] :: PathJoin(project, f)
  {
    var all := set f | f in fs :: PathJoin(project, f);
    var later := set f | f in fs[1..] :: PathJoin(project, f);
    assert fs == [fs[0]] + fs[1..];
    forall q | q in all ensures q in {PathJoin(project, fs[0])} + later {
      var f :| f in fs && q == PathJoin(project, f);
      if f != fs[0] {
        assert f in fs[1..];
      }
    }
  }

  /** A listed file that is missing to begin with makes the hook fail: the removals
      before it cannot bring it back. */
  lemma {:induction false} RemovalMissing(paths: set<string>, undeletable: set<string>, project: string,
                                         fs: seq<string>, f: string)
    requires f in fs && PathJoin(project, f) !in paths
    ensures Removal(paths, undeletable, project, fs).0.Err?
    decreases |fs|
  {
    if fs[0] != f {
      var p := PathJoin(project, fs[0]);
      if p in paths && p !in undeletable {
        assert f in fs[1..];
        RemovalMissing(paths - {p}, undeletable, project, fs[1..], f);
      }
    }
  }

  /** `remove_file`: `os.remove` of the file inside the project directory. */
  method RemoveFile(host: Host, project: string, file: string) returns (r: Result<()>)
    modifies host
    ensures (r, host.paths) == Removal(old(host.paths), host.undeletable, project, [file])
  {
    assert [file] + [] == [file];
    RemovalStep(host.paths, host.undeletable, project, file, []);
    r := host.Unlink(PathJoin(project, file));
  }

  const GitReady := "✅ Git repository initialized"
  const GitWarning := "⚠️ Could not initialize git repository"
  const VenvReady := "✅ Virtual environment created"
  const DepsReady := "✅ Dependencies installed"
  const VenvWarning := "⚠️ Could not set up virtual environment"

  const GitInitArgv: seq<string> := ["git", "init"]

  /** What `initialize_git` does when `git init` turns out as `p`: a zero exit is
      reported as success; a non-zero exit and a missing `git` both end in the warning;
      any other failure to start `git` (a `PermissionError`, say) is not caught and
      escapes, printing nothing. */
  predicate GitReport(p: Proc, r: Result<()>, lines: seq<string>) {
    if p.SpawnFailed? && !p.missing then r == Err(Error(OsFailure, p.reason)) && lines == []
    else r == Ok(()) && lines == [if p.Exited? && p.code == 0 then GitReady else GitWarning]
  }

  /** `initialize_git`: `git init` in the project. */
  method InitializeGit(run: Runner) returns (r: Result<()>, lines: seq<string>)
    ensures GitReport(run(GitInitArgv), r, lines)
    ensures r.Ok? <==> !(run(GitInitArgv).SpawnFailed? && !run(GitInitArgv).missing)
    ensures GitReady in lines <==> run(GitInitArgv).Exited? && run(GitInitArgv).code == 0
  {
    var p := run(GitInitArgv);
    match p {
      case SpawnFailed(missing, why) =>
        if missing {
          r, lines := Ok(()), [GitWarning];
        } else {
          r, lines := Err(Error(OsFailure, why)), [];
        }
      case Exited(code, _, _) =>
        r, lines := Ok(()), [if code == 0 then GitReady else GitWarning];
    }
  }

  /** `venv/Scripts/pip` below the project on Windows, `venv/bin/pip` elsewhere. */
  function PipPath(project: string, windows: bool): string {
    PathJoin(PathJoin(PathJoin(project, "venv"), if windows then "Scripts" else "bin"), "pip")
  }

  /** The pip path is the project's directory followed by the platform's relative path. */
  lemma PipPathRule(project: string, windows: bool)
    requires project != []
    ensures PipPath(project, windows)
            == DirPrefix(project) + (if windows then "venv/Scripts/pip" else "venv/bin/pip")
  {
    var dir := if windows then "Scripts" else "bin";
    var v := PathJoin(project, "venv");
    Relative("venv");
    Relative(dir);
    Relative("pip");
    assert v == DirPrefix(project) + "venv";
    assert DirPrefix(v) == v + "/";
    var vd := PathJoin(v, dir);
    assert vd == v + "/" + dir;
    assert DirPrefix(vd) == vd + "/";
  }

  /** A name that does not start with `/` is relative. */
  lemma Relative(s: string)
    requires s != [] && s[0] != '/'
    ensures !StartsWith(s, "/")
  {
  }

  function CreateVenvArgv(python: string): seq<string> {
    [python, "-m", "venv", "venv"]
  }

  function InstallArgv(pip: string): seq<string> {
    [pip, "install", "-e", "."]
  }

  /** What `setup_virtual_environment` does when creating the venv turns out as `venv`
      and the installation as `pip`: a non-zero exit of either command ends in the
      warning; a command that cannot be started at all raises its `OSError`, which the
      hook does not catch. The lines are what it printed. */
  predicate VenvReport(venv: Proc, pip: Proc, r: Result<()>, lines: seq<string>) {
    (r.Err? <==> venv.SpawnFailed? || (venv.Exited? && venv.code == 0 && pip.SpawnFailed?))
    && (r.Err? ==> r.error.kind == OsFailure)
    && (venv.SpawnFailed? ==> lines == [])
    && (venv.Exited? && venv.code != 0 ==> lines == [VenvWarning])
    && (venv.Exited? && venv.code == 0 ==>
          lines == [VenvReady] + (if pip.SpawnFailed? then []
                                  else if pip.code == 0 then [DepsReady] else [VenvWarning]))
  }

  /** `setup_virtual_environment`: create `venv` with the running interpreter, then
      install the project into it with that venv's pip. */
  method SetupVirtualEnvironment(python: string, project: string, windows: bool, run: Runner)
    returns (r: Result<()>, lines: seq<string>)
    ensures VenvReport(run(CreateVenvArgv(python)), run(InstallArgv(PipPath(project, windows))), r, lines)
    ensures DepsReady in lines <==> run(CreateVenvArgv(python)).Exited? && run(CreateVenvArgv(python)).code == 0
                                    && run(InstallArgv(PipPath(project, windows))).Exited?
                                    && run(InstallArgv(PipPath(project, windows))).code == 0
  {
    var venv := run(CreateVenvArgv(python));
    match venv {
      case SpawnFailed(_, why) =>
        return Err(Error(OsFailure, why)), [];
      case Exited(code, _, _) =>
        if code != 0 {
          return Ok(()), [VenvWarning];
        }
    }
    lines := [VenvReady];
    var pip := run(InstallArgv(PipPath(project, windows)));
    match pip {
      case SpawnFailed(_, why) =>
        r := Err(Error(OsFailure, why));
      case Exited(code, _, _) =>
        r := Ok(());
        lines := lines + (if code == 0 then [DepsReady] else [VenvWarning]);
    }
  }

  /** The first half of `main`: the removals the answers call for, in order, stopping
      at the first that raises. */
  method RemoveUnwantedFiles(host: Host, project: string, answers: Answers) returns (r: Result<()>)
    modifies host
    ensures (r, host.paths) == Removal(old(host.paths), host.undeletable, project, Targets(answers))
  {
    ghost var start := host.paths;
    ghost var und := host.undeletable;
    RemovalAppend(start, und, project, PytestTargets(answers), LaterTargets(answers));
    r := Ok(());
    if answers.usePytest != "y" {
      RemovalAppend(start, und, project, [PytestConfig], [PytestExample]);
      r := RemoveFile(host, project, PytestConfig);
      if r.Err? {
        return;
      }
      r := RemoveFile(host, project, PytestExample);
      if r.Err? {
        return;
      }
    } else {
      assert Removal(start, und, project, []) == (Ok(()), start);
    }
    ghost var mid := host.paths;
    var black := if answers.useBlack != "y" then [PreCommitConfig] else [];
    var closed := if answers.license == ClosedLicense then [LicenseFile] else [];
    RemovalAppend(mid, und, project, black, closed);
    if answers.useBlack != "y" {
      r := RemoveFile(host, project, PreCommitConfig);
      if r.Err? {
        return;
      }
    } else {
      assert Removal(mid, und, project, []) == (Ok(()), mid);
    }
    if answers.license == ClosedLicense {
      r := RemoveFile(host, project, LicenseFile);
    } else {
      assert Removal(host.paths, und, project, []) == (Ok(()), host.paths);
    }
  }

  /** `main` in the project directory `project` (`PROJECT_DIRECTORY`): the removals the
      answers call for, stopping the hook at the first that raises; then `git init`, and
      the virtual environment unless `git init` raised. `log` holds the status lines of
      those two steps. */
  method PostGenerate(host: Host, project: string, answers: Answers, run: Runner)
    returns (r: Result<()>, log: seq<string>)
    modifies host
    ensures var (removed, left) := Removal(old(host.paths), host.undeletable, project, Targets(answers));
            host.paths == left
            && (removed.Err? ==> r == removed && log == [])
            && (removed.Ok? ==>
                  var git := run(GitInitArgv);
                  if git.SpawnFailed? && !git.missing then GitReport(git, r, log)
                  else |log| >= 1 && GitReport(git, Ok(()), log[..1])
                       && VenvReport(run(CreateVenvArgv(host.systemPython)),
                                     run(InstallArgv(PipPath(project, host.windows))), r, log[1..]))
  {
    r := RemoveUnwantedFiles(host, project, answers);
    if r.Err? {
      return r, [];
    }
    var gitLines;
    r, gitLines := InitializeGit(run);
    if r.Err? {
      return r, gitLines;
    }
    var venvLines;
    r, venvLines := SetupVirtualEnvironment(host.systemPython, project, host.windows, run);
    log := gitLines + venvLines;
    assert log[..1] == gitLines && log[1..] == venvLines;
  }
}
