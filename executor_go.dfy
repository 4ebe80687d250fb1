/**
 * The Go script executor: the same job as the Rust one, with Go's
 * conventions — unset configuration strings are empty, the working
 * directory falls back to `filepath.Dir` of the script, and the virtual
 * environment is used only when its directory exists. Reading and decoding
 * the JSON file, `os.Stat` and the running of child processes are
 * parameters.
 */
module GoExecutor {
  import opened Wrappers
  import opened Text
  import GoPath
  import opened Process

  datatype ScriptConfig = ScriptConfig(
    name: string,
    scriptType: string,
    scriptPath: string,
    pythonDeps: seq<string>,
    psModules: seq<string>,
    workingDir: string,
    args: seq<string>)

  datatype ExecutorConfig = ExecutorConfig(
    pythonPath: string,
    pythonEnv: string,
    powerShellPath: string,
    scripts: seq<ScriptConfig>)

  datatype ExecError =
    | ScriptNotFound(name: string)
    | UnknownScriptType(scriptType: string)
    | RunFailed(code: Option<int>)

  datatype ScriptKind = Python | PowerShell

  /** What running one script did: the command started, if any, and the result. */
  datatype Execution = Execution(launched: Option<Command>, result: Result<(), ExecError>)

  /**
   * The defaults `loadConfig` applies after decoding: an empty `PythonPath`
   * becomes "python3" and an empty `PowerShellPath` becomes "pwsh"; every
   * other field, and a non-empty value, is kept.
   */
  function WithDefaults(c: ExecutorConfig): (r: ExecutorConfig)
    ensures r.pythonPath == (if c.pythonPath == "" then "python3" else c.pythonPath)
    ensures r.powerShellPath == (if c.powerShellPath == "" then "pwsh" else c.powerShellPath)
    ensures r.pythonEnv == c.pythonEnv && r.scripts == c.scripts
  {
    c.(pythonPath := if c.pythonPath == "" then "python3" else c.pythonPath,
       powerShellPath := if c.powerShellPath == "" then "pwsh" else c.powerShellPath)
  }

  /** Applying the defaults leaves both interpreter paths set, and a second application changes nothing. */
  lemma WithDefaultsSettles(c: ExecutorConfig)
    ensures WithDefaults(c).pythonPath != "" && WithDefaults(c).powerShellPath != ""
    ensures WithDefaults(WithDefaults(c)) == WithDefaults(c)
  {
  }

  /** `loadConfig` after decoding (None when reading or decoding failed), field by field. */
  method LoadConfig(decoded: Option<ExecutorConfig>) returns (r: Option<ExecutorConfig>)
    ensures r.None? <==> decoded.None?
    ensures r.Some? ==> r.value == WithDefaults(decoded.value)
  {
    if decoded.None? {
      return None;
    }
    var config := decoded.value;
    if config.pythonPath == "" {
      config := config.(pythonPath := "python3");
    }
    if config.powerShellPath == "" {
      config := config.(powerShellPath := "pwsh");
    }
    return Some(config);
  }

  /** `WorkingDir` when non-empty, otherwise `filepath.Dir(ScriptPath)`; never empty. */
  function WorkingDir(script: ScriptConfig): (d: string)
    ensures d != []
    ensures script.workingDir != [] ==> d == script.workingDir
    ensures script.workingDir == [] ==> d == GoPath.Dir(script.scriptPath)
  {
    if script.workingDir == [] then GoPath.Dir(script.scriptPath) else script.workingDir
  }

  /** A script given by a bare file name runs in ".". */
  lemma WorkingDirOfBareName(script: ScriptConfig)
    requires script.workingDir == [] && '/' !in script.scriptPath
    ensures WorkingDir(script) == "."
  {
    GoPath.DirOfPlainName(script.scriptPath);
  }

  /**
   * `strings.ToLower(Type)` matched against "python" and "powershell".
   * Lower-casing is ASCII-only here: no other rune lower-cases to a letter
   * of these two words, so the outcome is the same.
   */
  function KindOf(scriptType: string): (k: Option<ScriptKind>)
    ensures k == Some(Python) <==> EqIgnoreAsciiCase(scriptType, "python")
    ensures k == Some(PowerShell) <==> EqIgnoreAsciiCase(scriptType, "powershell")
  {
    var t := AsciiLower(scriptType);
    assert AsciiLower("python") == "python";
    assert AsciiLower("powershell") == "powershell";
    if t == "python" then Some(Python)
    else if t == "powershell" then Some(PowerShell)
    else None
  }

  function WindowsVenvPython(env: string): string {
    GoPath.Join([env, "Scripts", "python.exe"])
  }

  function UnixVenvPython(env: string): string {
    GoPath.Join([env, "bin", "python"])
  }

  /**
   * The interpreter: the virtual environment is consulted only when
   * `PythonEnv` is set and exists; there `Scripts/python.exe` is preferred
   * over `bin/python`; otherwise, and when neither exists, `PythonPath`.
   */
  function PythonExe(config: ExecutorConfig, pathExists: string -> bool): (exe: string)
    ensures config.pythonEnv == [] || !pathExists(config.pythonEnv) ==> exe == config.pythonPath
    ensures config.pythonEnv != [] && pathExists(config.pythonEnv) && pathExists(WindowsVenvPython(config.pythonEnv)) ==>
      exe == WindowsVenvPython(config.pythonEnv)
    ensures config.pythonEnv != [] && pathExists(config.pythonEnv) && !pathExists(WindowsVenvPython(config.pythonEnv)) ==>
      exe == (if pathExists(UnixVenvPython(config.pythonEnv)) then UnixVenvPython(config.pythonEnv) else config.pythonPath)
    ensures exe == config.pythonPath || pathExists(exe)
  {
    var env := config.pythonEnv;
    if env != [] && pathExists(env) then
      if pathExists(WindowsVenvPython(env)) then WindowsVenvPython(env)
      else if pathExists(UnixVenvPython(env)) then UnixVenvPython(env)
      else config.pythonPath
    else config.pythonPath
  }

  /** The joined venv paths are never empty, so an empty `pythonExe` always means "no venv interpreter". */
  lemma VenvPathsNonEmpty(env: string)
    requires env != []
    ensures WindowsVenvPython(env) != [] && UnixVenvPython(env) != []
  {
  }

  /** `buildPythonCommand`: `pythonExe` is settled step by step, then the argument slice is appended to. */
  method BuildPythonCommand(config: ExecutorConfig, script: ScriptConfig, args: seq<string>, pathExists: string -> bool)
    returns (cmd: Command)
    ensures cmd.program == PythonExe(config, pathExists) && cmd.dir == None
    ensures cmd.args == [script.scriptPath] + script.args + args
  {
    var pythonExe := "";
    if config.pythonEnv != "" {
      if pathExists(config.pythonEnv) {
        VenvPathsNonEmpty(config.pythonEnv);
        if pathExists(WindowsVenvPython(config.pythonEnv)) {
          pythonExe := WindowsVenvPython(config.pythonEnv);
        } else if pathExists(UnixVenvPython(config.pythonEnv)) {
          pythonExe := UnixVenvPython(config.pythonEnv);
        }
      }
    }
    if pythonExe == "" {
      pythonExe := config.pythonPath;
    }
    var cmdArgs := [script.scriptPath];
    if |script.args| > 0 {
      cmdArgs := cmdArgs + script.args;
    }
    if |args| > 0 {
      cmdArgs := cmdArgs + args;
    }
    cmd := Command(pythonExe, cmdArgs, None);
  }

  /** `buildPowerShellCommand`: `PowerShellPath -File <script> <configured args> <extra args>`. */
  method BuildPowerShellCommand(config: ExecutorConfig, script: ScriptConfig, args: seq<string>)
    returns (cmd: Command)
    ensures cmd.program == config.powerShellPath && cmd.dir == None
    ensures cmd.args == ["-File", script.scriptPath] + script.args + args
  {
    var cmdArgs := ["-File", script.scriptPath];
    if |script.args| > 0 {
      cmdArgs := cmdArgs + script.args;
    }
    if |args| > 0 {
      cmdArgs := cmdArgs + args;
    }
    cmd := Command(config.powerShellPath, cmdArgs, None);
  }

  /**
   * The command `executeScript` runs for a script, or the error it returns
   * before running anything: an unknown type fails before any command is
   * built; otherwise the command runs in the working directory, the script
   * path comes first (after "-File" for PowerShell) and the extra arguments
   * come last, after the configured ones.
   */
  function Planned(config: ExecutorConfig, script: ScriptConfig, args: seq<string>, pathExists: string -> bool): (r: Result<Command, ExecError>)
    ensures r.Err? <==> KindOf(script.scriptType).None?
    ensures r.Err? ==> r.error == UnknownScriptType(script.scriptType)
    ensures r.Ok? ==>
      && r.value.dir.Some? && r.value.dir.value != []
      && |r.value.args| >= |args| + 1
      && r.value.args[|r.value.args| - |args|..] == args
      && (KindOf(script.scriptType) == Some(Python) ==> r.value.program == PythonExe(config, pathExists) && r.value.args[0] == script.scriptPath)
      && (KindOf(script.scriptType) == Some(PowerShell) ==> r.value.program == config.powerShellPath && |r.value.args| >= 2 && r.value.args[..2] == ["-File", script.scriptPath])
  {
    var dir := Some(WorkingDir(script));
    match KindOf(script.scriptType)
    case None => Err(UnknownScriptType(script.scriptType))
    case Some(Python) =>
      var a := [script.scriptPath] + script.args + args;
      assert a[|a| - |args|..] == args;
      Ok(Command(PythonExe(config, pathExists), a, dir))
    case Some(PowerShell) =>
      var a := ["-File", script.scriptPath] + script.args + args;
      assert a[|a| - |args|..] == args;
      Ok(Command(config.powerShellPath, a, dir))
  }

  /** `cmd.Run()` reports an error when the command cannot start or exits unsuccessfully. */
  function Outcome(r: RunResult): Result<(), ExecError> {
    match r
    case StartFailed => Err(RunFailed(None))
    case Exited(success, code) => if success then Ok(()) else Err(RunFailed(code))
  }

  /**
   * Running one script: the planned command is run, or nothing is when
   * planning fails; the script succeeds exactly when its command started
   * and exited with a success status.
   */
  function Execute(config: ExecutorConfig, script: ScriptConfig, args: seq<string>, pathExists: string -> bool, run: Command -> RunResult): (e: Execution)
    ensures e.launched.None? <==> KindOf(script.scriptType).None?
    ensures e.launched.None? ==> e.result == Err(UnknownScriptType(script.scriptType))
    ensures e.launched.Some? ==> Planned(config, script, args, pathExists) == Ok(e.launched.value)
    ensures e.result.Ok? <==> e.launched.Some? && run(e.launched.value).Exited? && run(e.launched.value).success
    ensures e.launched.Some? && run(e.launched.value).StartFailed? ==> e.result == Err(RunFailed(None))
    ensures e.launched.Some? && run(e.launched.value).Exited? && !run(e.launched.value).success ==>
      e.result == Err(RunFailed(run(e.launched.value).code))
  {
    match Planned(config, script, args, pathExists)
    case Err(e) => Execution(None, Err(e))
    case Ok(cmd) => Execution(Some(cmd), Outcome(run(cmd)))
  }

  /** `executeScript`. */
  method ExecuteScript(config: ExecutorConfig, script: ScriptConfig, args: seq<string>, pathExists: string -> bool, run: Command -> RunResult)
    returns (e: Execution)
    ensures e == Execute(config, script, args, pathExists, run)
  {
    var workingDir := script.workingDir;
    if workingDir == "" {
      workingDir := GoPath.Dir(script.scriptPath);
    }
    var cmd: Command;
    match KindOf(script.scriptType) {
      case Some(Python) =>
        cmd := BuildPythonCommand(config, script, args, pathExists);
      case Some(PowerShell) =>
        cmd := BuildPowerShellCommand(config, script, args);
      case None =>
        return Execution(None, Err(UnknownScriptType(script.scriptType)));
    }
    cmd := cmd.(dir := Some(workingDir));
    return Execution(Some(cmd), Outcome(run(cmd)));
  }

  predicate IsFirstNamed(scripts: seq<ScriptConfig>, name: string, i: int) {
    0 <= i < |scripts| && scripts[i].name == name && forall j :: 0 <= j < i ==> scripts[j].name != name
  }

  /** The position of the first script named `name`, if any. */
  function FirstNamed(scripts: seq<ScriptConfig>, name: string): (r: Option<nat>)
    ensures r.Some? ==> IsFirstNamed(scripts, name, r.value)
    ensures r.None? ==> forall i :: 0 <= i < |scripts| ==> scripts[i].name != name
  {
    if scripts == [] then None
    else if scripts[0].name == name then Some(0)
    else match FirstNamed(scripts[1..], name)
      case None => None
      case Some(i) => Some(i + 1)
  }

  /**
   * `runScript`: the first script whose name equals `name` exactly is
   * executed; when there is none, nothing runs and the error is "not found".
   */
  method RunScript(config: ExecutorConfig, name: string, args: seq<string>, pathExists: string -> bool, run: Command -> RunResult)
    returns (e: Execution)
    ensures (forall i :: 0 <= i < |config.scripts| ==> config.scripts[i].name != name) ==>
      e == Execution(None, Err(ScriptNotFound(name)))
    ensures forall i :: IsFirstNamed(config.scripts, name, i) ==>
      e == Execute(config, config.scripts[i], args, pathExists, run)
  {
    for i := 0 to |config.scripts|
      invariant forall j :: 0 <= j < i ==> config.scripts[j].name != name
    {
      if config.scripts[i].name == name {
        e := ExecuteScript(config, config.scripts[i], args, pathExists, run);
        forall k | IsFirstNamed(config.scripts, name, k)
          ensures k == i
        {
        }
        return;
      }
    }
    e := Execution(None, Err(ScriptNotFound(name)));
    assert forall k :: !IsFirstNamed(config.scripts, name, k);
  }

  /** The commands run for the first `n` scripts when each of them succeeds. */
  function LaunchedAll(config: ExecutorConfig, pathExists: string -> bool, run: Command -> RunResult, n: nat): seq<Command>
    requires n <= |config.scripts|
  {
    if n == 0 then []
    else
      var e := Execute(config, config.scripts[n - 1], [], pathExists, run);
      LaunchedAll(config, pathExists, run, n - 1) + (if e.launched.Some? then [e.launched.value] else [])
  }

  /** Whether script `i`, run with no extra arguments, succeeds. */
  function ScriptOk(config: ExecutorConfig, pathExists: string -> bool, run: Command -> RunResult): nat -> bool {
    (i: nat) => i < |config.scripts| && Execute(config, config.scripts[i], [], pathExists, run).result.Ok?
  }

  /** The first `n` scripts, run with no extra arguments, all succeed. */
  predicate AllOk(config: ExecutorConfig, pathExists: string -> bool, run: Command -> RunResult, n: nat) {
    AllSucceed(ScriptOk(config, pathExists, run), n)
  }

  lemma AllOkMeans(config: ExecutorConfig, pathExists: string -> bool, run: Command -> RunResult, n: nat)
    requires n <= |config.scripts|
    ensures AllOk(config, pathExists, run, n) <==>
      forall i :: 0 <= i < n ==> Execute(config, config.scripts[i], [], pathExists, run).result.Ok?
  {
    var ok := ScriptOk(config, pathExists, run);
    AllSucceedMeans(ok, n);
    forall i | 0 <= i < n
      ensures ok(i) == Execute(config, config.scripts[i], [], pathExists, run).result.Ok?
    {
    }
  }

  /**
   * The loop of `main` without a script name: scripts run in configuration
   * order with no extra arguments, and the first error ends the run.
   */
  method RunAll(config: ExecutorConfig, pathExists: string -> bool, run: Command -> RunResult)
    returns (launched: seq<Command>, result: Result<(), ExecError>)
    ensures result.Ok? <==> AllOk(config, pathExists, run, |config.scripts|)
    ensures result.Ok? ==> launched == LaunchedAll(config, pathExists, run, |config.scripts|)
    ensures result.Err? ==> exists k :: (0 <= k < |config.scripts|
      && AllOk(config, pathExists, run, k)
      && result == Execute(config, config.scripts[k], [], pathExists, run).result
      && launched == LaunchedAll(config, pathExists, run, k + 1))
  {
    launched := [];
    for i := 0 to |config.scripts|
      invariant AllOk(config, pathExists, run, i)
      invariant launched == LaunchedAll(config, pathExists, run, i)
    {
      var e := ExecuteScript(config, config.scripts[i], [], pathExists, run);
      assert LaunchedAll(config, pathExists, run, i + 1) == launched + (if e.launched.Some? then [e.launched.value] else []);
      if e.launched.Some? {
        launched := launched + [e.launched.value];
      }
      if e.result.Err? {
        AllSucceedPrefix(ScriptOk(config, pathExists, run), i + 1, |config.scripts|);
        return launched, e.result;
      }
    }
    result := Ok(());
  }

  /**
   * `main`: fewer than two arguments or a configuration that cannot be
   * loaded exit with status 1 before anything runs; a third argument names
   * the script to run with the rest as extra arguments; otherwise every
   * script runs. Any error exits with status 1.
   */
  method RunExecutor(argv: seq<string>, decoded: Option<ExecutorConfig>, pathExists: string -> bool, run: Command -> RunResult)
    returns (launched: seq<Command>, status: ExitStatus)
    ensures |argv| < 2 || decoded.None? ==> launched == [] && status == Failure
    ensures |argv| >= 3 && decoded.Some? ==>
      var config := WithDefaults(decoded.value);
      var first := FirstNamed(config.scripts, argv[2]);
      (status == Success <==>
        first.Some? && Execute(config, config.scripts[first.value], argv[3..], pathExists, run).result.Ok?)
    ensures |argv| == 2 && decoded.Some? ==>
      var config := WithDefaults(decoded.value);
      (status == Success <==> AllOk(config, pathExists, run, |config.scripts|))
  {
    if |argv| < 2 {
      return [], Failure;
    }
    var loaded := LoadConfig(decoded);
    if loaded.None? {
      return [], Failure;
    }
    var config := loaded.value;
    if |argv| >= 3 {
      var e := RunScript(config, argv[2], argv[3..], pathExists, run);
      match FirstNamed(config.scripts, argv[2]) {
        case Some(k) => assert IsFirstNamed(config.scripts, argv[2], k);
        case None =>
      }
      launched := if e.launched.Some? then [e.launched.value] else [];
      status := if e.result.Ok? then Success else Failure;
      return;
    }
    var result;
    launched, result := RunAll(config, pathExists, run);
    status := if result.Ok? then Success else Failure;
  }
}
