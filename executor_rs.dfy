/**
 * The Rust script executor: a JSON configuration lists Python and
 * PowerShell scripts; the tool runs one of them by name, with extra
 * arguments, or all of them in order. Reading and parsing the JSON file,
 * the filesystem's `pathExists` and the running of child processes are
 * parameters.
 */
module RustExecutor {
  import opened Wrappers
  import opened Text
  import RustPath
  import opened Process

  datatype ScriptConfig = ScriptConfig(
    name: string,
    scriptType: string,
    scriptPath: string,
    pythonDeps: seq<string>,
    psModules: seq<string>,
    workingDir: Option<string>,
    args: seq<string>)

  /** The top-level configuration as deserialized, before serde supplies defaults for absent fields. */
  datatype RawConfig = RawConfig(
    pythonPath: Option<string>,
    pythonEnv: Option<string>,
    powershellPath: Option<string>,
    scripts: seq<ScriptConfig>)

  datatype ExecutorConfig = ExecutorConfig(
    pythonPath: string,
    pythonEnv: Option<string>,
    powershellPath: string,
    scripts: seq<ScriptConfig>)

  datatype ExecError =
    | ScriptNotFound(name: string)
    | UnknownScriptType(scriptType: string)
    | SpawnFailed
    | ExitFailure(name: string, code: Option<int>)
    | ConfigUnreadable

  datatype ScriptKind = Python | PowerShell

  /** What running one script did: the command started, if any, and the result. */
  datatype Execution = Execution(launched: Option<Command>, result: Result<(), ExecError>)

  const DefaultPythonPath: string := "python3"
  const DefaultPowershellPath: string := "pwsh"

  /**
   * `#[serde(default = ...)]`: an absent `python_path` becomes "python3" and an
   * absent `powershell_path` becomes "pwsh"; a present value, even "", is kept.
   */
  function WithDefaults(raw: RawConfig): (c: ExecutorConfig)
    ensures raw.pythonPath.None? ==> c.pythonPath == "python3"
    ensures raw.pythonPath.Some? ==> c.pythonPath == raw.pythonPath.value
    ensures raw.powershellPath.None? ==> c.powershellPath == "pwsh"
    ensures raw.powershellPath.Some? ==> c.powershellPath == raw.powershellPath.value
    ensures c.pythonEnv == raw.pythonEnv && c.scripts == raw.scripts
  {
    ExecutorConfig(
      raw.pythonPath.GetOr(DefaultPythonPath),
      raw.pythonEnv,
      raw.powershellPath.GetOr(DefaultPowershellPath),
      raw.scripts)
  }

  /**
   * The working directory exactly as written: `working_dir` when set, else
   * the `Path::parent` of the script path, and "." only when there is no parent.
   * Without `working_dir` it is "." or a proper prefix of the script path.
   */
  function WorkingDir(script: ScriptConfig): (d: string)
    ensures script.workingDir.Some? ==> d == script.workingDir.value
    ensures script.workingDir.None? && d != "." ==>
      |d| < |script.scriptPath| && d == script.scriptPath[..|d|]
  {
    match script.workingDir
    case Some(d) => d
    case None => RustPath.Parent(script.scriptPath).GetOr(".")
  }

  /**
   * With no `working_dir`, "." is used exactly when the script path is empty
   * or only the root; otherwise the parent path is used.
   */
  lemma WorkingDirFallback(script: ScriptConfig)
    requires script.workingDir.None?
    ensures var cs := RustPath.Components(script.scriptPath);
      cs == [] || cs == [RustPath.RootDir] ==> WorkingDir(script) == "."
    ensures var cs := RustPath.Components(script.scriptPath);
      !(cs == [] || cs == [RustPath.RootDir]) ==>
        RustPath.Parent(script.scriptPath).Some? && WorkingDir(script) == RustPath.Parent(script.scriptPath).value
  {
    RustPath.ParentNoneIff(script.scriptPath);
  }

  /** For a script given by a bare file name, as written, the working directory is the empty path. */
  lemma BareScriptNameGivesEmptyDir(script: ScriptConfig)
    requires script.workingDir.None?
    requires script.scriptPath != [] && script.scriptPath != "." && '/' !in script.scriptPath
    ensures WorkingDir(script) == []
  {
    RustPath.ParentOfPlainName(script.scriptPath);
  }

  /**
   * The working directory as evidently intended: as written, except that an
   * empty parent (a script named without a directory) means ".".
   */
  function IntendedWorkingDir(script: ScriptConfig): (d: string)
    ensures script.workingDir.Some? ==> d == script.workingDir.value
    ensures script.workingDir.None? ==> d != []
    ensures WorkingDir(script) != [] ==> d == WorkingDir(script)
  {
    var d := WorkingDir(script);
    if script.workingDir.None? && d == [] then "." else d
  }

  /** "run.py" with no `working_dir` runs in "."; "jobs/run.py" runs in "jobs". */
  lemma IntendedWorkingDirExamples(script: ScriptConfig, dir: string, name: string)
    requires script.workingDir.None?
    requires dir != [] && dir != "." && '/' !in dir
    requires name != [] && name != "." && '/' !in name
    ensures IntendedWorkingDir(script.(scriptPath := name)) == "."
    ensures IntendedWorkingDir(script.(scriptPath := dir + "/" + name)) == dir
  {
    RustPath.ParentOfPlainName(name);
    RustPath.ParentOfDirAndName(dir, name);
  }

  /**
   * `script_type.to_lowercase()` matched against "python" and "powershell".
   * Lower-casing is ASCII-only here: no other character lower-cases to a
   * letter of these two words, so the outcome is the same.
   */
  function KindOf(scriptType: string): (k: Option<ScriptKind>)
    ensures k == Some(Python) <==> EqIgnoreAsciiCase(scriptType, "python")
    ensures k == Some(PowerShell) <==> EqIgnoreAsciiCase(scriptType, "powershell")
  {
    var t := AsciiLower(scriptType);
    assert AsciiLower("python") == "python";
    assert AsciiLower("powershell") == "powershell";
    if t == "python" then Some(Python)
    else if t == "powershell" then Some(PowerShell)
    else None
  }

  /** Dispatch ignores case: "Python" and "POWERSHELL" are accepted, "bash" is not. */
  lemma KindOfExamples()
    ensures KindOf("Python") == Some(Python)
    ensures KindOf("POWERSHELL") == Some(PowerShell)
    ensures KindOf("bash") == None
  {
    assert AsciiLower("Python") == "python";
    assert AsciiLower("POWERSHELL") == "powershell";
    assert AsciiLower("bash") == "bash";
  }

  function WindowsVenvPython(env: string): string {
    RustPath.JoinRelative(RustPath.JoinRelative(env, "Scripts"), "python.exe")
  }

  function UnixVenvPython(env: string): string {
    RustPath.JoinRelative(RustPath.JoinRelative(env, "bin"), "python")
  }

  /**
   * The interpreter: with `python_env`, `<env>/Scripts/python.exe` if it pathExists,
   * else `<env>/bin/python` if it pathExists, else `python_path`; without it, `python_path`.
   */
  function PythonExe(config: ExecutorConfig, pathExists: string -> bool): (exe: string)
    ensures config.pythonEnv.None? ==> exe == config.pythonPath
    ensures config.pythonEnv.Some? && pathExists(WindowsVenvPython(config.pythonEnv.value)) ==>
      exe == WindowsVenvPython(config.pythonEnv.value)
    ensures config.pythonEnv.Some? && !pathExists(WindowsVenvPython(config.pythonEnv.value)) ==>
      exe == (if pathExists(UnixVenvPython(config.pythonEnv.value)) then UnixVenvPython(config.pythonEnv.value) else config.pythonPath)
    ensures exe == config.pythonPath || pathExists(exe)
  {
    match config.pythonEnv
    case None => config.pythonPath
    case Some(env) =>
      var win := WindowsVenvPython(env);
      if pathExists(win) then win
      else
        var unix := UnixVenvPython(env);
        if pathExists(unix) then unix else config.pythonPath
  }

  /** `build_python_command`: the interpreter, then the script path, the configured arguments and the extra arguments. */
  method BuildPythonCommand(config: ExecutorConfig, script: ScriptConfig, args: seq<string>, pathExists: string -> bool)
    returns (cmd: Command)
    ensures cmd.program == PythonExe(config, pathExists) && cmd.dir == None
    ensures cmd.args == [script.scriptPath] + script.args + args
  {
    cmd := Command(PythonExe(config, pathExists), [], None);
    cmd := Arg(cmd, script.scriptPath);
    for i := 0 to |script.args|
      invariant cmd == Command(PythonExe(config, pathExists), [script.scriptPath] + script.args[..i], None)
    {
      cmd := Arg(cmd, script.args[i]);
      assert script.args[..i + 1] == script.args[..i] + [script.args[i]];
    }
    assert script.args[..|script.args|] == script.args;
    for i := 0 to |args|
      invariant cmd == Command(PythonExe(config, pathExists), [script.scriptPath] + script.args + args[..i], None)
    {
      cmd := Arg(cmd, args[i]);
      assert args[..i + 1] == args[..i] + [args[i]];
    }
    assert args[..|args|] == args;
  }

  /** `build_powershell_command`: `powershell_path -File <script> <configured args> <extra args>`. */
  method BuildPowershellCommand(config: ExecutorConfig, script: ScriptConfig, args: seq<string>)
    returns (cmd: Command)
    ensures cmd.program == config.powershellPath && cmd.dir == None
    ensures cmd.args == ["-File", script.scriptPath] + script.args + args
  {
    cmd := Command(config.powershellPath, [], None);
    cmd := Arg(cmd, "-File");
    cmd := Arg(cmd, script.scriptPath);
    for i := 0 to |script.args|
      invariant cmd == Command(config.powershellPath, ["-File", script.scriptPath] + script.args[..i], None)
    {
      cmd := Arg(cmd, script.args[i]);
      assert script.args[..i + 1] == script.args[..i] + [script.args[i]];
    }
    assert script.args[..|script.args|] == script.args;
    for i := 0 to |args|
      invariant cmd == Command(config.powershellPath, ["-File", script.scriptPath] + script.args + args[..i], None)
    {
      cmd := Arg(cmd, args[i]);
      assert args[..i + 1] == args[..i] + [args[i]];
    }
    assert args[..|args|] == args;
  }

  /**
   * The command `execute_script` starts for a script, or the error it
   * returns before starting anything: an unknown type fails before any
   * process is built; otherwise the command runs in the working directory
   * as written, the script path comes first (after "-File" for PowerShell)
   * and the extra arguments come last, after the configured ones.
   */
  function Planned(config: ExecutorConfig, script: ScriptConfig, args: seq<string>, pathExists: string -> bool): (r: Result<Command, ExecError>)
    ensures r.Err? <==> KindOf(script.scriptType).None?
    ensures r.Err? ==> r.error == UnknownScriptType(script.scriptType)
    ensures r.Ok? ==>
      && r.value.dir == Some(WorkingDir(script))
      && |r.value.args| >= |args| + 1
      && r.value.args[|r.value.args| - |args|..] == args
      && (KindOf(script.scriptType) == Some(Python) ==> r.value.program == PythonExe(config, pathExists) && r.value.args[0] == script.scriptPath)
      && (KindOf(script.scriptType) == Some(PowerShell) ==> r.value.program == config.powershellPath && |r.value.args| >= 2 && r.value.args[..2] == ["-File", script.scriptPath])
  {
    var dir := Some(WorkingDir(script));
    match KindOf(script.scriptType)
    case None => Err(UnknownScriptType(script.scriptType))
    case Some(Python) =>
      var a := [script.scriptPath] + script.args + args;
      assert a[|a| - |args|..] == args;
      Ok(Command(PythonExe(config, pathExists), a, dir))
    case Some(PowerShell) =>
      var a := ["-File", script.scriptPath] + script.args + args;
      assert a[|a| - |args|..] == args;
      Ok(Command(config.powershellPath, a, dir))
  }

  /**
   * A script named without a directory and without `working_dir` is planned
   * to start in the empty path, which the operating system refuses as a
   * directory to start in.
   */
  lemma BareScriptPlannedInEmptyDir(config: ExecutorConfig, script: ScriptConfig, args: seq<string>, pathExists: string -> bool)
    requires script.workingDir.None? && KindOf(script.scriptType).Some?
    requires script.scriptPath != [] && script.scriptPath != "." && '/' !in script.scriptPath
    ensures Planned(config, script, args, pathExists).Ok?
    ensures Planned(config, script, args, pathExists).value.dir == Some("")
  {
    BareScriptNameGivesEmptyDir(script);
  }

  /** A started command succeeds only when it exits with a success status. */
  function Outcome(script: ScriptConfig, r: RunResult): Result<(), ExecError> {
    match r
    case StartFailed => Err(SpawnFailed)
    case Exited(success, code) => if success then Ok(()) else Err(ExitFailure(script.name, code))
  }

  /**
   * Running one script: the planned command is started, or nothing is when
   * planning fails; the script succeeds exactly when its command was
   * started and exited with a success status.
   */
  function Execute(config: ExecutorConfig, script: ScriptConfig, args: seq<string>, pathExists: string -> bool, run: Command -> RunResult): (e: Execution)
    ensures e.launched.None? <==> KindOf(script.scriptType).None?
    ensures e.launched.None? ==> e.result == Err(UnknownScriptType(script.scriptType))
    ensures e.launched.Some? ==> Planned(config, script, args, pathExists) == Ok(e.launched.value)
    ensures e.result.Ok? <==> e.launched.Some? && run(e.launched.value).Exited? && run(e.launched.value).success
    ensures e.launched.Some? && run(e.launched.value).StartFailed? ==> e.result == Err(SpawnFailed)
    ensures e.launched.Some? && run(e.launched.value).Exited? && !run(e.launched.value).success ==>
      e.result == Err(ExitFailure(script.name, run(e.launched.value).code))
  {
    match Planned(config, script, args, pathExists)
    case Err(e) => Execution(None, Err(e))
    case Ok(cmd) => Execution(Some(cmd), Outcome(script, run(cmd)))
  }

  /** `execute_script`. */
  method ExecuteScript(config: ExecutorConfig, script: ScriptConfig, args: seq<string>, pathExists: string -> bool, run: Command -> RunResult)
    returns (e: Execution)
    ensures e == Execute(config, script, args, pathExists, run)
  {
    var dir := WorkingDir(script);
    var cmd: Command;
    match KindOf(script.scriptType) {
      case None =>
        return Execution(None, Err(UnknownScriptType(script.scriptType)));
      case Some(Python) =>
        cmd := BuildPythonCommand(config, script, args, pathExists);
      case Some(PowerShell) =>
        cmd := BuildPowershellCommand(config, script, args);
    }
    cmd := cmd.(dir := Some(dir));
    var status := run(cmd);
    match status
    case StartFailed =>
      return Execution(Some(cmd), Err(SpawnFailed));
    case Exited(success, code) =>
      if !success {
        return Execution(Some(cmd), Err(ExitFailure(script.name, code)));
      }
      return Execution(Some(cmd), Ok(()));
  }

  /** The index of the first script with exactly the given name. */
  predicate IsFirstNamed(scripts: seq<ScriptConfig>, name: string, i: int) {
    0 <= i < |scripts| && scripts[i].name == name && forall j :: 0 <= j < i ==> scripts[j].name != name
  }

  /** The position of the first script named `name`, if any. */
  function FirstNamed(scripts: seq<ScriptConfig>, name: string): (r: Option<nat>)
    ensures r.Some? ==> IsFirstNamed(scripts, name, r.value)
    ensures r.None? ==> forall i :: 0 <= i < |scripts| ==> scripts[i].name != name
  {
    if scripts == [] then None
    else if scripts[0].name == name then Some(0)
    else match FirstNamed(scripts[1..], name)
      case None => None
      case Some(i) => Some(i + 1)
  }

  /**
   * `run_script`: the first script whose name equals `name` exactly is
   * executed; when there is none, nothing runs and the error is "not found".
   */
  method RunScript(config: ExecutorConfig, name: string, args: seq<string>, pathExists: string -> bool, run: Command -> RunResult)
    returns (e: Execution)
    ensures (forall i :: 0 <= i < |config.scripts| ==> config.scripts[i].name != name) ==>
      e == Execution(None, Err(ScriptNotFound(name)))
    ensures forall i :: IsFirstNamed(config.scripts, name, i) ==>
      e == Execute(config, config.scripts[i], args, pathExists, run)
  {
    for i := 0 to |config.scripts|
      invariant forall j :: 0 <= j < i ==> config.scripts[j].name != name
    {
      if config.scripts[i].name == name {
        e := ExecuteScript(config, config.scripts[i], args, pathExists, run);
        forall k | IsFirstNamed(config.scripts, name, k)
          ensures k == i
        {
        }
        return;
      }
    }
    e := Execution(None, Err(ScriptNotFound(name)));
    assert forall k :: !IsFirstNamed(config.scripts, name, k);
  }

  /** The commands started for the first `n` scripts when each of them succeeds. */
  function LaunchedAll(config: ExecutorConfig, pathExists: string -> bool, run: Command -> RunResult, n: nat): seq<Command>
    requires n <= |config.scripts|
  {
    if n == 0 then []
    else
      var e := Execute(config, config.scripts[n - 1], [], pathExists, run);
      LaunchedAll(config, pathExists, run, n - 1) + (if e.launched.Some? then [e.launched.value] else [])
  }

  /** Whether script `i`, run with no extra arguments, succeeds. */
  function ScriptOk(config: ExecutorConfig, pathExists: string -> bool, run: Command -> RunResult): nat -> bool {
    (i: nat) => i < |config.scripts| && Execute(config, config.scripts[i], [], pathExists, run).result.Ok?
  }

  /** The first `n` scripts, run with no extra arguments, all succeed. */
  predicate AllOk(config: ExecutorConfig, pathExists: string -> bool, run: Command -> RunResult, n: nat) {
    AllSucceed(ScriptOk(config, pathExists, run), n)
  }

  lemma AllOkMeans(config: ExecutorConfig, pathExists: string -> bool, run: Command -> RunResult, n: nat)
    requires n <= |config.scripts|
    ensures AllOk(config, pathExists, run, n) <==>
      forall i :: 0 <= i < n ==> Execute(config, config.scripts[i], [], pathExists, run).result.Ok?
  {
    var ok := ScriptOk(config, pathExists, run);
    AllSucceedMeans(ok, n);
    forall i | 0 <= i < n
      ensures ok(i) == Execute(config, config.scripts[i], [], pathExists, run).result.Ok?
    {
    }
  }

  /**
   * The loop of `main` without a script name: scripts run in configuration
   * order with no extra arguments, and the first failure (an unknown type,
   * a start failure or an unsuccessful exit) ends the run with that error.
   */
  method RunAll(config: ExecutorConfig, pathExists: string -> bool, run: Command -> RunResult)
    returns (launched: seq<Command>, result: Result<(), ExecError>)
    ensures result.Ok? <==> AllOk(config, pathExists, run, |config.scripts|)
    ensures result.Ok? ==> launched == LaunchedAll(config, pathExists, run, |config.scripts|)
    ensures result.Err? ==> exists k :: (0 <= k < |config.scripts|
      && AllOk(config, pathExists, run, k)
      && result == Execute(config, config.scripts[k], [], pathExists, run).result
      && launched == LaunchedAll(config, pathExists, run, k + 1))
  {
    launched := [];
    for i := 0 to |config.scripts|
      invariant AllOk(config, pathExists, run, i)
      invariant launched == LaunchedAll(config, pathExists, run, i)
    {
      var e := ExecuteScript(config, config.scripts[i], [], pathExists, run);
      assert LaunchedAll(config, pathExists, run, i + 1) == launched + (if e.launched.Some? then [e.launched.value] else []);
      if e.launched.Some? {
        launched := launched + [e.launched.value];
      }
      if e.result.Err? {
        AllSucceedPrefix(ScriptOk(config, pathExists, run), i + 1, |config.scripts|);
        return launched, e.result;
      }
    }
    result := Ok(());
  }

  /** The command line of the executor, after the program name. */
  datatype Invocation =
    | Usage
    | RunNamed(configPath: string, name: string, extra: seq<string>)
    | RunEvery(configPath: string)

  /** `main`'s reading of `env::args()`: fewer than two is a usage error, a third names a script. */
  function ParseInvocation(argv: seq<string>): (inv: Invocation)
    ensures inv.Usage? <==> |argv| < 2
    ensures inv.RunNamed? <==> |argv| >= 3
    ensures inv.RunNamed? ==> inv.configPath == argv[1] && inv.name == argv[2] && argv == argv[..3] + inv.extra
    ensures inv.RunEvery? ==> argv == argv[..1] + [inv.configPath]
  {
    if |argv| < 2 then Usage
    else if |argv| >= 3 then
      assert argv == argv[..3] + argv[3..];
      RunNamed(argv[1], argv[2], argv[3..])
    else RunEvery(argv[1])
  }

  /**
   * `main`: the configuration is what reading and deserializing the file
   * gave (None when either failed). Every error ends with status 1.
   */
  method RunExecutor(argv: seq<string>, loaded: Option<RawConfig>, pathExists: string -> bool, run: Command -> RunResult)
    returns (launched: seq<Command>, status: ExitStatus)
    ensures |argv| < 2 || loaded.None? ==> launched == [] && status == Failure
    ensures |argv| >= 3 && loaded.Some? ==>
      var config := WithDefaults(loaded.value);
      var first := FirstNamed(config.scripts, argv[2]);
      (status == Success <==>
        first.Some? && Execute(config, config.scripts[first.value], argv[3..], pathExists, run).result.Ok?)
    ensures |argv| == 2 && loaded.Some? ==>
      var config := WithDefaults(loaded.value);
      (status == Success <==>
        AllOk(config, pathExists, run, |config.scripts|))
  {
    launched := [];
    var inv := ParseInvocation(argv);
    if inv.Usage? || loaded.None? {
      return [], Failure;
    }
    var config := WithDefaults(loaded.value);
    match inv
    case RunNamed(_, name, extra) =>
      var e := RunScript(config, name, extra, pathExists, run);
      launched := if e.launched.Some? then [e.launched.value] else [];
      status := if e.result.Ok? then Success else Failure;
    case RunEvery(_) =>
      var result;
      launched, result := RunAll(config, pathExists, run);
      status := if result.Ok? then Success else Failure;
  }
}
