/**
 The `env` subcommand and the program's exit decision (senv/main.go, lines
 29-37 and 68-77). Fetching and processing the configuration are done by a
 library outside the model; only whether they failed, and the properties
 they produced, come in as a `ConfigOutcome`.
 */
module Cli {
  import opened Strings
  import opened Environment
  import opened Process

  /** What the configuration client produced. */
  datatype ConfigOutcome = FetchFailed | ProcessFailed | Loaded(props: seq<Property>)

  /** What the `env` subcommand did: it returned the client's error before
      launching anything, or it ran the command. */
  datatype EnvOutcome = Aborted | Ran(run: RunResult)

  /** The `env` subcommand, starting from exit-code variable `prior`. The
      argument list is indexed only once the configuration has loaded. */
  function EnvCommand(config: ConfigOutcome, args: seq<String>, inherited: seq<String>,
                      noSysEnv: bool, sanitize: bool, outcome: RunOutcome,
                      out: String, err: String, prior: int): (r: EnvOutcome)
    requires config.Loaded? ==> |args| > 0
    ensures r.Aborted? <==> !config.Loaded?
    ensures r.Ran? ==> r.run == RunCommand(args, config.props, noSysEnv, sanitize, inherited, outcome, out, err, prior)
  {
    match config
    case FetchFailed => Aborted
    case ProcessFailed => Aborted
    case Loaded(props) => Ran(RunCommand(args, props, noSysEnv, sanitize, inherited, outcome, out, err, prior))
  }

  /** The exit code the program ends with: 1 when the command returned an
      error, the exit-code variable when it is positive, 0 otherwise. */
  function MainExitCode(commandFailed: bool, errExitCode: int): (code: nat)
    ensures commandFailed ==> code == 1
    ensures !commandFailed ==> (code == 0 <==> errExitCode <= 0)
    ensures !commandFailed && code != 0 ==> code == errExitCode
  {
    if commandFailed then 1
    else if errExitCode > 0 then errExitCode
    else 0
  }

  /** The exit-code variable before any command runs. */
  const InitialErrExitCode := 0

  /** The exit code of one whole invocation of `senv env`, with the
      exit-code variable starting at its initial value: 1 when the
      configuration failed, otherwise either 0 or the status the run
      recorded. */
  function ProgramExitCode(config: ConfigOutcome, args: seq<String>, inherited: seq<String>,
                           noSysEnv: bool, sanitize: bool, outcome: RunOutcome,
                           out: String, err: String): (code: nat)
    requires config.Loaded? ==> |args| > 0
    ensures !config.Loaded? ==> code == 1
    ensures config.Loaded? ==> code == 0 || (!outcome.RunFailed? && code == outcome.status)
  {
    match EnvCommand(config, args, inherited, noSysEnv, sanitize, outcome, out, err, InitialErrExitCode)
    case Aborted => MainExitCode(true, InitialErrExitCode)
    case Ran(run) => MainExitCode(false, run.errExitCode)
  }

  /** The exit code of an invocation, case by case: 1 when the configuration
      could not be loaded, 0 when the run produced no exit status, and the
      child's status clamped below at 0 otherwise. */
  lemma ProgramExitCodeCases(config: ConfigOutcome, args: seq<String>, inherited: seq<String>,
                             noSysEnv: bool, sanitize: bool, outcome: RunOutcome,
                             out: String, err: String)
    requires config.Loaded? ==> |args| > 0
    ensures !config.Loaded? ==> ProgramExitCode(config, args, inherited, noSysEnv, sanitize, outcome, out, err) == 1
    ensures config.Loaded? && outcome.RunFailed? ==>
              ProgramExitCode(config, args, inherited, noSysEnv, sanitize, outcome, out, err) == 0
    ensures config.Loaded? && !outcome.RunFailed? ==>
              ProgramExitCode(config, args, inherited, noSysEnv, sanitize, outcome, out, err)
              == (if outcome.status > 0 then outcome.status else 0)
  {
  }

  /** The program exits 0 exactly when the configuration loaded and the run
      produced no positive exit status. */
  lemma ExitsZeroIff(config: ConfigOutcome, args: seq<String>, inherited: seq<String>,
                     noSysEnv: bool, sanitize: bool, outcome: RunOutcome,
                     out: String, err: String)
    requires config.Loaded? ==> |args| > 0
    ensures ProgramExitCode(config, args, inherited, noSysEnv, sanitize, outcome, out, err) == 0
            <==> config.Loaded? && (outcome.RunFailed? || outcome.status <= 0)
  {
  }

  /** A child that exits with a non-negative status passes that status on
      as the program's own exit code, whether the run reported it as a
      success or as an exit error. */
  lemma ChildStatusPropagates(props: seq<Property>, args: seq<String>, inherited: seq<String>,
                              noSysEnv: bool, sanitize: bool, n: nat, out: String, err: String)
    requires |args| > 0
    ensures ProgramExitCode(Loaded(props), args, inherited, noSysEnv, sanitize, Finished(n), out, err) == n
    ensures ProgramExitCode(Loaded(props), args, inherited, noSysEnv, sanitize, ExitFailure(n), out, err) == n
  {
  }

  /** A program that cannot be launched, and a child whose status is
      reported as -1 because a signal ended it, both leave the program
      exiting 0. */
  lemma UnreportedFailuresExitZero(props: seq<Property>, args: seq<String>, inherited: seq<String>,
                                   noSysEnv: bool, sanitize: bool, out: String, err: String)
    requires |args| > 0
    ensures ProgramExitCode(Loaded(props), args, inherited, noSysEnv, sanitize, RunFailed, out, err) == 0
    ensures ProgramExitCode(Loaded(props), args, inherited, noSysEnv, sanitize, ExitFailure(-1), out, err) == 0
  {
  }

  /** Over the outcomes a run can have on Unix-like systems, the program's
      exit code is a byte:
      0 after a successful run, the child's exit code after an exit error
      with a positive status, and never above 255. */
  lemma ExitCodeIsByte(config: ConfigOutcome, args: seq<String>, inherited: seq<String>,
                       noSysEnv: bool, sanitize: bool, outcome: RunOutcome,
                       out: String, err: String)
    requires config.Loaded? ==> |args| > 0
    requires Reachable(outcome)
    ensures ProgramExitCode(config, args, inherited, noSysEnv, sanitize, outcome, out, err) <= 255
    ensures config.Loaded? && outcome.Finished? ==>
              ProgramExitCode(config, args, inherited, noSysEnv, sanitize, outcome, out, err) == 0
    ensures config.Loaded? && outcome.ExitFailure? && outcome.status > 0 ==>
              ProgramExitCode(config, args, inherited, noSysEnv, sanitize, outcome, out, err) == outcome.status
  {
  }
}
