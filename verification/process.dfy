/**
 Running the target command (senv/main.go, lines 80-116): building the
 command from the argument list and the composed environment, recording the
 child's exit status, and formatting the report of the captured output.

 Spawning the process, duplicating its output streams and decoding the wait
 status happen outside the model: what the run produced comes in as a
 `RunOutcome` and two captured strings.
 */
module Process {
  import opened Strings
  import opened Environment

  /** The command the code builds: the program, its arguments, and the
      `Env` slice of `NAME=value` entries it hands to the launch. */
  datatype Command = Command(program: String, args: seq<String>, env: seq<String>)

  /** How the run ended, as the code tells the cases apart.
      - Finished: the run reported no error; `status` is the exit status the
        process state reports.
      - ExitFailure: the run failed with an exit error; `status` is the exit
        status of its wait status (-1 when the child did not exit normally,
        for instance when a signal ended it).
      - RunFailed: any other error, such as a program that cannot be found or
        started. */
  datatype RunOutcome = Finished(status: int) | ExitFailure(status: int) | RunFailed

  /** The outcomes a run can actually have on Unix-like systems: a run
      without error exited with status 0, and an exit error carries a
      non-zero status, either an exit code 1..255 or -1 for a child that did
      not exit normally. (On Windows an exit status is a 32-bit exit code
      and is not covered.) */
  predicate Reachable(outcome: RunOutcome) {
    match outcome
    case Finished(status) => status == 0
    case ExitFailure(status) => status == -1 || 1 <= status <= 255
    case RunFailed => true
  }

  /** The result of one run: the command launched, the exit-code variable
      after the run, and the report printed after it. */
  datatype RunResult = RunResult(command: Command, errExitCode: int, report: String)

  /** The command built from `args`: the first argument names the program,
      the rest are its arguments, and the argument vector is `args` again. */
  function NewCommand(args: seq<String>, env: seq<String>): (c: Command)
    requires |args| > 0
    ensures [c.program] + c.args == args
    ensures c.env == env
  {
    Command(args[0], args[1..], env)
  }

  /** The exit-code variable after a run that started from `prior`: a run
      that produced an exit status records it, any other failure keeps the
      earlier value. */
  function ExitCodeAfter(prior: int, outcome: RunOutcome): (code: int)
    ensures outcome.RunFailed? ==> code == prior
    ensures !outcome.RunFailed? ==> code == outcome.status
  {
    match outcome
    case Finished(status) => status
    case ExitFailure(status) => status
    case RunFailed => prior
  }

  /** On Unix-like systems, a successful run leaves the exit-code variable
      at 0, and any run that records a status records one in -1..255. */
  lemma ExitCodeAfterReachable(prior: int, outcome: RunOutcome)
    requires Reachable(outcome)
    ensures outcome.Finished? ==> ExitCodeAfter(prior, outcome) == 0
    ensures outcome.ExitFailure? ==> ExitCodeAfter(prior, outcome) != 0
    ensures !outcome.RunFailed? ==> -1 <= ExitCodeAfter(prior, outcome) <= 255
  {
  }

  /** The report of the captured standard output and standard error. Both
      captures appear in it verbatim, each after its own header line. */
  function Report(out: String, err: String): (r: String)
    ensures |r| == |out| + |err| + 13
    ensures r[..6] == "\nout:\n" && r[6..6 + |out|] == out
    ensures r[6 + |out|..12 + |out|] == "\nerr:\n" && r[12 + |out|..12 + |out| + |err|] == err
    ensures r[|r| - 1] == '\n'
  {
    "\nout:\n" + out + "\nerr:\n" + err + "\n"
  }

  /** One run of the target command. The arguments must name a program;
      the run itself cannot fail from the caller's point of view. */
  function RunCommand(args: seq<String>, props: seq<Property>, noSysEnv: bool, sanitize: bool,
                      inherited: seq<String>, outcome: RunOutcome, out: String, err: String,
                      prior: int): (r: RunResult)
    requires |args| > 0
    ensures [r.command.program] + r.command.args == args
    ensures r.command.env == ComposeEnv(inherited, props, noSysEnv, sanitize)
    ensures outcome.RunFailed? ==> r.errExitCode == prior
    ensures !outcome.RunFailed? ==> r.errExitCode == outcome.status
    ensures r.report == Report(out, err)
  {
    var command := NewCommand(args, ComposeEnv(inherited, props, noSysEnv, sanitize));
    RunResult(command, ExitCodeAfter(prior, outcome), Report(out, err))
  }
}
