/** The project generator (dynamo_mcp/core/project_generator.py): run the templating
    engine, `cookiecutter`, with a template's venv interpreter, falling back to the
    server's own interpreter, and report where the new project landed. */
module ProjectGenerator {
  import opened Outcomes
  import opened Text
  import opened Models
  import opened Hosts
  import opened EnvironmentManager
  import opened Registry

  const GeneratePrefix := "Failed to generate project: "
  const SystemPrefix := "Failed to generate project with system Python: "
  const EnginePackage := "cookiecutter"
  const CreatedMarker := "Created project at "
  const SlugKey := "project_slug"

  /** `python -m pip list`: how the generator asks whether the engine is installed. */
  function PipListArgv(py: string): seq<string> {
    [py, "-m", "pip", "list"]
  }

  /** The engine's command line: the template, no prompts, the output directory and the
      answers file. */
  function EngineArgv(py: string, templatePath: string, outputDir: string, configFile: string): seq<string> {
    [py, "-m", EnginePackage, templatePath, "--no-input", "--output-dir", outputDir, "--config-file", configFile]
  }

  /** Lines 75-88: list the venv's packages; when the listing does not mention the engine,
      install it. The exit status of the listing is not looked at. A listing that cannot
      be spawned, or a first installation that fails, leads to one more installation,
      whose failure escapes. */
  function EnsureEngine(paths: set<string>, windows: bool, venv: string, py: string, run: Runner): (r: Result<()>)
    ensures r.Err? ==> r.error.kind == Environment && StartsWith(r.error.message, InstallPrefix)
  {
    var listing := run(PipListArgv(py));
    if listing.Exited? && Contains(listing.stdout, EnginePackage) then Ok(())
    else if listing.Exited? then
      var first := InstallPackage(paths, windows, venv, EnginePackage, run);
      if first.Ok? then first else InstallPackage(paths, windows, venv, EnginePackage, run)
    else InstallPackage(paths, windows, venv, EnginePackage, run)
  }

  /** The engine is installed on demand, exactly once in effect: the generator goes on
      when the listing names it, and otherwise succeeds or fails as one installation does,
      because a repeated installation meets the same outcome. */
  lemma EngineInstalledOnDemand(paths: set<string>, windows: bool, venv: string, py: string, run: Runner)
    ensures var listing := run(PipListArgv(py));
      EnsureEngine(paths, windows, venv, py, run)
      == if listing.Exited? && Contains(listing.stdout, EnginePackage) then Ok(())
         else InstallPackage(paths, windows, venv, EnginePackage, run)
  {
  }

  /** Lines 107-118: the engine run with the server's own interpreter; its stdout on
      success, a `ProjectGenerationError` naming the system interpreter on a non-zero exit,
      and the `OSError` of a spawn that fails. */
  function SystemEngine(systemPython: string, info: TemplateInfo, outputDir: string,
                        configFile: string, run: Runner): (r: Result<string>)
    ensures var proc := run(EngineArgv(systemPython, info.path, outputDir, configFile));
      (r.Ok? <==> proc.Exited? && proc.code == 0)
      && (r.Ok? ==> r.value == proc.stdout)
      && (proc.Exited? && proc.code != 0 ==> r == Err(Error(ProjectGeneration, SystemPrefix + proc.stderr)))
      && (proc.SpawnFailed? ==> r == Err(Error(OsFailure, proc.reason)))
  {
    match run(EngineArgv(systemPython, info.path, outputDir, configFile))
    case SpawnFailed(_, m) => Err(Error(OsFailure, m))
    case Exited(c, out, err) => if c != 0 then Err(Error(ProjectGeneration, SystemPrefix + err)) else Ok(out)
  }

  /** The run with the venv's interpreter, once it has been found and the engine is in
      place: a spawn that fails (an `OSError`) switches to the system interpreter; a
      non-zero exit is a `ProjectGenerationError` with the engine's stderr. */
  function VenvEngine(py: string, systemPython: string, info: TemplateInfo, outputDir: string,
                      configFile: string, run: Runner): (r: Result<string>)
    ensures var proc := run(EngineArgv(py, info.path, outputDir, configFile));
      (proc.SpawnFailed? ==> r == SystemEngine(systemPython, info, outputDir, configFile, run))
      && (proc.Exited? && proc.code == 0 ==> r == Ok(proc.stdout))
      && (proc.Exited? && proc.code != 0 ==> r == Err(Error(ProjectGeneration, GeneratePrefix + proc.stderr)))
  {
    match run(EngineArgv(py, info.path, outputDir, configFile))
    case SpawnFailed(_, _) => SystemEngine(systemPython, info, outputDir, configFile, run)
    case Exited(c, out, err) => if c != 0 then Err(Error(ProjectGeneration, GeneratePrefix + err)) else Ok(out)
  }

  /** Lines 70-118 as written: the `except EnvironmentError` there names Python's builtin
      alias of `OSError`, not the repository's `EnvironmentError`, so a venv without an
      interpreter, or an engine that cannot be installed, escapes instead of falling back. */
  function RunEngineAsWritten(paths: set<string>, windows: bool, systemPython: string, info: TemplateInfo,
                              outputDir: string, configFile: string, run: Runner): (r: Result<string>)
    ensures r.Err? ==> r.error.kind in {Environment, ProjectGeneration, OsFailure}
  {
    match GetPythonPath(paths, windows, info.venvPath)
    case Err(e) => Err(e)
    case Ok(py) =>
      match EnsureEngine(paths, windows, info.venvPath, py, run)
      case Err(e) => Err(e)
      case Ok(_) => VenvEngine(py, systemPython, info, outputDir, configFile, run)
  }

  /** Lines 70-118 as evidently intended: any trouble with the venv, the repository's
      `EnvironmentError` included, switches to the system interpreter. */
  function RunEngine(paths: set<string>, windows: bool, systemPython: string, info: TemplateInfo,
                     outputDir: string, configFile: string, run: Runner): (r: Result<string>)
    ensures r.Err? ==> r.error.kind in {ProjectGeneration, OsFailure}
  {
    match GetPythonPath(paths, windows, info.venvPath)
    case Err(_) => SystemEngine(systemPython, info, outputDir, configFile, run)
    case Ok(py) =>
      match EnsureEngine(paths, windows, info.venvPath, py, run)
      case Err(_) => SystemEngine(systemPython, info, outputDir, configFile, run)
      case Ok(_) => VenvEngine(py, systemPython, info, outputDir, configFile, run)
  }

  /** The `TypeError` `os.path.join` raises for a slug that is not a string. */
  function JoinTypeError(slug: Json): Error {
    Error(TypeFailure, "join() argument must be str, bytes, or os.PathLike object, not '" + slug.TypeName() + "'")
  }

  /** Lines 121-134: a truthy `project_slug` answer names the project directory inside
      the output directory; without one, the first stdout line that starts with the
      engine's "Created project at " marker gives the path, and failing that the output
      directory itself. */
  function ProjectPath(variables: map<string, Json>, stdout: string, outputDir: string): (r: Result<string>)
  {
    if SlugKey in variables && variables[SlugKey].Truthy() then
      match variables[SlugKey]
      case JStr(slug) => Ok(PathJoin(outputDir, slug))
      case other => Err(JoinTypeError(other))
    else
      match FirstValue(SplitLines(stdout), CreatedMarker)
      case Some(p) => Ok(p)
      case None => Ok(outputDir)
  }

  /** A relative slug always puts the project inside the output directory; a slug of
      another type is the only way to fail. */
  lemma SlugPath(variables: map<string, Json>, stdout: string, outputDir: string)
    requires SlugKey in variables && variables[SlugKey].Truthy()
    ensures ProjectPath(variables, stdout, outputDir).Err? <==> !variables[SlugKey].JStr?
    ensures variables[SlugKey].JStr? && outputDir != [] && !StartsWith(variables[SlugKey].str, "/") ==>
              var p := ProjectPath(variables, stdout, outputDir).value;
              Under(p, outputDir) && p != outputDir
  {
    if variables[SlugKey].JStr? && outputDir != [] && !StartsWith(variables[SlugKey].str, "/") {
      var slug := variables[SlugKey].str;
      assert slug != [];
      JoinUnder(outputDir, slug);
      assert |PathJoin(outputDir, slug)| > |outputDir|;
    }
  }

  /** Without a usable slug, and with no stdout line carrying the engine's marker, the
      project is taken to be the output directory itself. */
  lemma NoMarkerPath(variables: map<string, Json>, stdout: string, outputDir: string)
    requires !(SlugKey in variables && variables[SlugKey].Truthy())
    requires forall l :: l in SplitLines(stdout) ==> !StartsWith(l, CreatedMarker)
    ensures ProjectPath(variables, stdout, outputDir) == Ok(outputDir)
  {
    FirstValueFound(SplitLines(stdout), CreatedMarker);
  }

  /** Without a usable slug, the path is read off the first stdout line that carries the
      engine's marker: what follows the marker on that line. */
  lemma MarkerPath(variables: map<string, Json>, stdout: string, outputDir: string, i: nat)
    requires !(SlugKey in variables && variables[SlugKey].Truthy())
    requires i < |SplitLines(stdout)| && StartsWith(SplitLines(stdout)[i], CreatedMarker)
    requires forall j :: 0 <= j < i ==> !StartsWith(SplitLines(stdout)[j], CreatedMarker)
    ensures ProjectPath(variables, stdout, outputDir) == Ok(AfterMarker(SplitLines(stdout)[i], CreatedMarker))
  {
    var lines := SplitLines(stdout);
    FirstValueFound(lines, CreatedMarker);
    var k :| 0 <= k < |lines| && StartsWith(lines[k], CreatedMarker)
             && (forall j :: 0 <= j < k ==> !StartsWith(lines[j], CreatedMarker))
             && FirstValue(lines, CreatedMarker).value == AfterMarker(lines[k], CreatedMarker);
  }

  /** Lines 66-140: everything that goes wrong once the answers file exists is reported
      as a `ProjectGenerationError` under one prefix, and success is exactly an engine
      run that succeeded followed by a path that could be formed. */
  function Outcome(engine: Result<string>, variables: map<string, Json>, outputDir: string): (r: Result<string>)
    ensures r.Err? ==> r.error.kind == ProjectGeneration && StartsWith(r.error.message, GeneratePrefix)
    ensures r.Ok? <==> engine.Ok? && ProjectPath(variables, engine.value, outputDir).Ok?
    ensures r.Ok? ==> r == ProjectPath(variables, engine.value, outputDir)
    ensures engine.Err? ==> r == Err(Error(ProjectGeneration, GeneratePrefix + engine.error.message))
  {
    match engine
    case Err(e) => Err(Error(ProjectGeneration, GeneratePrefix + e.message))
    case Ok(stdout) =>
      match ProjectPath(variables, stdout, outputDir)
      case Err(e) => Err(Error(ProjectGeneration, GeneratePrefix + e.message))
      case Ok(p) => Ok(p)
  }

  /** As written, a venv that lost its interpreter makes generation fail outright, even
      when the system interpreter would have rendered the project. */
  lemma MissingInterpreterFailsAsWritten(paths: set<string>, windows: bool, systemPython: string,
                                         info: TemplateInfo, request: CreateProjectRequest,
                                         configFile: string, run: Runner)
    requires !Present(paths, PythonPath(info.venvPath, windows))
    ensures Outcome(RunEngineAsWritten(paths, windows, systemPython, info, request.outputDir, configFile, run),
                    request.variables, request.outputDir)
            == Err(Error(ProjectGeneration, GeneratePrefix + MissingPythonPrefix + info.venvPath))
  {
  }

  /** As intended, a venv that lost its interpreter hands the run to the system
      interpreter, and the project is generated when that run succeeds. */
  lemma MissingInterpreterFallsBack(paths: set<string>, windows: bool, systemPython: string,
                                    info: TemplateInfo, request: CreateProjectRequest,
                                    configFile: string, run: Runner)
    requires !Present(paths, PythonPath(info.venvPath, windows))
    ensures RunEngine(paths, windows, systemPython, info, request.outputDir, configFile, run)
            == SystemEngine(systemPython, info, request.outputDir, configFile, run)
    ensures var proc := run(EngineArgv(systemPython, info.path, request.outputDir, configFile));
      proc.Exited? && proc.code == 0 && ProjectPath(request.variables, proc.stdout, request.outputDir).Ok? ==>
        Outcome(RunEngine(paths, windows, systemPython, info, request.outputDir, configFile, run),
                request.variables, request.outputDir).Ok?
  {
  }

  /** The correction changes nothing for a healthy venv: with the interpreter found and
      the engine in place, both versions run the same commands to the same result. */
  lemma HealthyVenvUnaffected(paths: set<string>, windows: bool, systemPython: string,
                              info: TemplateInfo, outputDir: string, configFile: string, run: Runner)
    requires Present(paths, PythonPath(info.venvPath, windows))
    requires EnsureEngine(paths, windows, info.venvPath, PythonPath(info.venvPath, windows), run).Ok?
    ensures RunEngine(paths, windows, systemPython, info, outputDir, configFile, run)
            == RunEngineAsWritten(paths, windows, systemPython, info, outputDir, configFile, run)
    ensures RunEngine(paths, windows, systemPython, info, outputDir, configFile, run)
            == VenvEngine(PythonPath(info.venvPath, windows), systemPython, info, outputDir, configFile, run)
  {
  }

  /** The paths on disk once the output directory has been made if absent. */
  function WithOutput(paths: set<string>, outputDir: string): set<string> {
    if Present(paths, outputDir) then paths else paths + {outputDir}
  }

  /** The paths on disk while the engine runs: the output directory and the answers file. */
  function Staged(paths: set<string>, outputDir: string, configFile: string): set<string> {
    WithOutput(paths, outputDir) + {configFile}
  }

  /** `create_project`. An unknown template is refused before anything is touched. The
      output directory is made and the answers file written before the `try`, so their
      `OSError`s escape as they are. Then the engine runs as the code is written (so a
      venv without its interpreter makes generation fail, see
      `MissingInterpreterFailsAsWritten`), and the answers file is unlinked whatever
      happened, a failing unlink being ignored. `configFile` is the name `tempfile`
      picks. */
  method CreateProject(registry: TemplateRegistry, host: Host, request: CreateProjectRequest,
                       configFile: string, run: Runner) returns (r: Result<string>)
    modifies host
    ensures request.templateName !in registry.templates.items ==>
              r == Err(NotFoundError(request.templateName)) && host.paths == old(host.paths)
    ensures request.templateName in registry.templates.items && !Present(old(host.paths), request.outputDir)
            && request.outputDir in host.unwritable ==>
              r == Err(Denied(request.outputDir)) && host.paths == old(host.paths)
    ensures request.templateName in registry.templates.items
            && (Present(old(host.paths), request.outputDir) || request.outputDir !in host.unwritable) ==>
              if configFile in host.unwritable then
                r == Err(Denied(configFile))
                && host.paths == WithOutput(old(host.paths), request.outputDir)
              else
                r == Outcome(RunEngineAsWritten(Staged(old(host.paths), request.outputDir, configFile), host.windows,
                                                host.systemPython, registry.templates.items[request.templateName],
                                                request.outputDir, configFile, run),
                             request.variables, request.outputDir)
                && host.paths == Staged(old(host.paths), request.outputDir, configFile)
                                 - (if configFile in host.undeletable then {} else {configFile})
    ensures r.Err? ==> r.error.kind in {TemplateNotFound, ProjectGeneration, OsFailure}
    ensures configFile !in old(host.paths) && configFile !in host.undeletable ==> configFile !in host.paths
  {
    if request.templateName !in registry.templates.items {
      return Err(NotFoundError(request.templateName));
    }
    var info := registry.templates.items[request.templateName];
    var made := host.MakeDirs(request.outputDir);
    if made.Err? {
      return Err(made.error);
    }
    var written := host.CreateFile(configFile);
    if written.Err? {
      return Err(written.error);
    }
    r := Outcome(RunEngineAsWritten(host.paths, host.windows, host.systemPython, info, request.outputDir, configFile, run),
                 request.variables, request.outputDir);
    var unlinked := host.Unlink(configFile);
  }
}
