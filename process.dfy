/** Child processes as values: what a tool asks the operating system to run, and what comes back. */
module Process {
  import opened Wrappers

  /** A command line: the program, the arguments after the program name, and the directory to start in (None: inherit). */
  datatype Command = Command(program: string, args: seq<string>, dir: Option<string>)

  /** The fate of a command, supplied by the caller in place of really starting it. */
  datatype RunResult = StartFailed | Exited(success: bool, code: Option<int>)

  /** `cmd.arg(a)`: one more argument at the end. */
  function Arg(cmd: Command, a: string): (r: Command)
    ensures r.program == cmd.program && r.dir == cmd.dir
    ensures r.args == cmd.args + [a]
  {
    cmd.(args := cmd.args + [a])
  }

  /** The exit status of a tool's process: 0 for success, 1 for every reported failure. */
  datatype ExitStatus = Success | Failure {
    function Code(): int {
      if Success? then 0 else 1
    }
  }

  /** The first `n` steps of a run, numbered from 0, all succeeded; defined step by step, as a run proceeds. */
  predicate AllSucceed(ok: nat -> bool, n: nat) {
    n == 0 || (AllSucceed(ok, n - 1) && ok(n - 1))
  }

  lemma {:induction false} AllSucceedMeans(ok: nat -> bool, n: nat)
    ensures AllSucceed(ok, n) <==> forall i: nat :: i < n ==> ok(i)
  {
    if n > 0 {
      AllSucceedMeans(ok, n - 1);
    }
  }

  /** A run that succeeds through step `n` also succeeded through every earlier step. */
  lemma {:induction false} AllSucceedPrefix(ok: nat -> bool, k: nat, n: nat)
    requires k <= n
    ensures AllSucceed(ok, n) ==> AllSucceed(ok, k)
    decreases n
  {
    if k < n {
      AllSucceedPrefix(ok, k, n - 1);
    }
  }
}
