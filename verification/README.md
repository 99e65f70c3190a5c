# senv `env` core in Dafny

senv is a command-line client for a Spring Cloud Config server. Its `env`
subcommand fetches the configuration properties of an application. It turns
each property into an environment variable, runs the target command with that
environment, prints what the command wrote, and exits with the command's
status. This project models the pure logic of that subcommand
(`runCommand` and `main` in `senv/main.go`):

- **Key sanitization** (module `Sanitize`, built on `Strings`). This is how a
  property key becomes a variable name.
- **Environment composition** (module `Environment`). The inherited
  environment is optional and comes first. After it comes one `name=value`
  entry per property.
- **The run and its exit code** (module `Process`). This covers building the
  command from the argument list, recording the child's exit status, and the
  report of the captured output.
- **The subcommand and the exit decision** (module `Cli`). The subcommand
  aborts on a configuration error. Otherwise it runs the command. The
  program's final exit code follows from that.

Spawning the process, the inherited environment, and the configuration client
are outside the model. They come in as parameters: `inherited`, a
`RunOutcome`, the two captured strings, and a `ConfigOutcome`. The exit-code
variable is global in the code (`errExitCode`, initially 0). Here it is
threaded through explicitly as `prior` and `InitialErrExitCode`.

Three behaviours of the code are worth stating outright, because the model
reproduces them as written:

- **Sanitization keeps dots.** Line 88 computes a dot-replaced key, but
  line 89 overwrites it with a replacement on the original `key`. So with
  sanitization on, a name is the key with `-` turned into `_` and then
  upper-cased, and dots survive: `a.b-c` becomes `A.B_C`
  (`Sanitize.SanitizeKeepsDots`).
- **A launch failure exits 0.** A run error that is not an
  `*exec.ExitError` leaves `errExitCode` at its initial 0, and `runCommand`
  returns `nil`, so `main` exits 0 (`Cli.UnreportedFailuresExitZero`).
- **An empty argument list is a precondition.** Line 81 indexes `args[0]`
  with no check, so a non-empty argument list is a precondition here
  (`|args| > 0`).

## Model

| member | source | states |
|---|---|---|
| `Strings.ReplaceChar` | senv/main.go:89 | Replacing every `-` by `_` keeps the length and changes exactly the positions that held the pattern character. |
| `Strings.ToUpper` | senv/main.go:90 | Upper-casing keeps the length and maps every character through the ASCII upper-case mapping. |
| `Sanitize.EnvVarName` | senv/main.go:86-91 | With sanitization off the name is the key unchanged. With it on, every position of the name is the key's character with `-` made `_` and then upper-cased, and the length is the key's. |
| `Sanitize.SanitizedShape` | senv/main.go:88-90 | A sanitized name has the key's length, no `-`, no lower-case letter, a `.` wherever the key had one, and is ASCII when the key is. |
| `Sanitize.SanitizeFixedPoint` | senv/main.go:88-90 | Sanitization leaves a name unchanged if and only if the name has no `-` and no lower-case letter. |
| `Sanitize.SanitizeIdempotent` | senv/main.go:88-90 | Sanitizing a sanitized name changes nothing. |
| `Sanitize.SanitizeKeepsDots` | senv/main.go:88-89 | Because the dot replacement is discarded, `a.b-c` becomes `A.B_C`: the dash is replaced, the dot is kept. |
| `Sanitize.SanitizeMergesKeys` | senv/main.go:89-90 | Sanitization is not injective: the distinct keys `a-b` and `A_B` get the same name. |
| `Environment.Entry` | senv/main.go:92 | The `%s=%s` entry is one character longer than the name and value together, with the `=` right after the name. |
| `Environment.PropertyEntry` | senv/main.go:86-92 | A property's entry has the key's length plus one plus the value's length, with the `=` right after as many characters as the key has, whether or not the key is sanitized. |
| `Environment.EntrySplits` | senv/main.go:92 | An entry is the name, `=`, then the value, each verbatim. When the name holds no `=`, splitting at the first `=` gives back the name and the value. |
| `Environment.PropertyEntries` | senv/main.go:85-93 | The loop produces exactly one entry per property. |
| `Environment.PropertyEntriesAt` | senv/main.go:85-93 | The property entries have one entry per property, and entry `i` is exactly property `i`'s `name=value`. |
| `Environment.ComposeEnv` | senv/main.go:82-93 | With the system environment on, the inherited entries are an unchanged prefix and the length is the inherited length plus one per property. With it off, the length is one per property. `Environment.ComposeEnvLayout` gives the full layout. |
| `Environment.ComposeEnvLayout` | senv/main.go:82-93 | With the system environment on, the inherited entries are an unchanged prefix in their original order, and the property entries follow in order. With it off, only property entries are present, and no properties means an empty environment. The length is that of the inherited entries, when included, plus one per property. |
| `Environment.BuildEnv` | senv/main.go:82-93 | The code's loop, which starts from the inherited entries or from nothing and appends one entry per property, computes exactly the composed environment. |
| `Environment.EntryOfSomeProperty` | senv/main.go:85-92 | A string is a property entry if and only if some property contributes it. |
| `Environment.NothingDropped` | senv/main.go:82-93 | Every property's entry, and with the system environment on every inherited entry, is in the composed environment. |
| `Environment.ComposeAppends` | senv/main.go:92 | Adding a property appends exactly its entry and leaves the earlier environment as an unchanged prefix. |
| `Environment.EntriesOrderIndependent` | senv/main.go:85 | Property sequences with the same members give environments with the same members, whatever their order. |
| `Environment.PropertyEntriesConcat` | senv/main.go:85-92 | The entries of two property sequences one after the other are the entries of their concatenation. |
| `Environment.PropertyEntriesSplit` | senv/main.go:85-92 | The entries of a property sequence are those of the properties before property `j`, then property `j`'s own entry, then those of the properties after it. |
| `Environment.PropertyEntriesPermute` | senv/main.go:85-92 | Reordering the properties reorders their entries and nothing more: the same entries, each as often. |
| `Environment.ComposeEnvPermute` | senv/main.go:82-93 | The order in which the property map is iterated does not change the composed environment beyond its order: the same entries, each as often. |
| `Environment.UnsanitizedNamesDistinct` | senv/main.go:86 | With sanitization off, distinct keys give distinct variable names (with it on they need not, see `Sanitize.SanitizeMergesKeys`). |
| `Process.NewCommand` | senv/main.go:81 | The program is the first argument, and the program followed by its arguments is the argument list again. |
| `Process.ExitCodeAfter` | senv/main.go:100-110 | A run that returns an exit status, either with no error or with an exit error, records that status. Any other failure keeps the earlier exit code. |
| `Process.ExitCodeAfterReachable` | senv/main.go:106-109 | On Unix-like systems, for the outcomes a run can have, a successful run sets the exit code to 0, an exit error records a non-zero status, and every recorded status lies in -1..255. |
| `Process.Report` | senv/main.go:112-113 | The report holds the `out:` header, the captured standard output verbatim, the `err:` header, the captured standard error verbatim, and a final newline, at fixed offsets. |
| `Process.RunCommand` | senv/main.go:80-116 | A run launches the argument list with the composed environment, records the exit code as above, and produces the report. It has no error result. |
| `Cli.EnvCommand` | senv/main.go:68-77 | The subcommand returns an error if and only if fetching or processing the configuration failed. Otherwise it is one run of the command with the loaded properties. |
| `Cli.MainExitCode` | senv/main.go:31-37 | A command error exits 1. Otherwise the exit code is 0 exactly when the exit-code variable is not positive, and the variable itself when it is. |
| `Cli.ProgramExitCode` | senv/main.go:29-37 | With the exit-code variable starting at 0 (`Cli.InitialErrExitCode`), an invocation exits 1 when the configuration failed, and otherwise exits 0 or the status the run recorded. |
| `Cli.ProgramExitCodeCases` | senv/main.go:29-37 | The exit code is 1 on a configuration error, 0 when the run produced no exit status, and otherwise the child's status clamped below at 0. |
| `Cli.ExitsZeroIff` | senv/main.go:29-37 | The program exits 0 if and only if the configuration loaded and the run produced no positive exit status. |
| `Cli.ExitCodeIsByte` | senv/main.go:31-37 | On Unix-like systems, for the outcomes a run can have, the program's exit code is at most 255; it is 0 after a successful run and the child's status after an exit error with a positive status. |
| `Cli.ChildStatusPropagates` | senv/main.go:100-110 | A non-negative child status becomes the program's exit code, whether the run reported it as a success or as an exit error. |
| `Cli.UnreportedFailuresExitZero` | senv/main.go:100-105 | A command that cannot be launched, and a child reported with status -1 after a signal, both leave the program exiting 0. |

## Left out

- Cobra command definitions, flag registration and defaults, the version banner and the default-name warning (senv/main.go:16-27, 39-66, 118-130). They are command-line plumbing over an external library. The flags appear only as the parameters `noSysEnv` and `sanitize`.
- Other errors from cobra's `Execute`, such as an unknown flag. They take the same branch of `main` as a configuration error (exit 1), and `Cli.MainExitCode` covers that branch. The model does not enumerate them.
- The configuration client (`senv.NewConfig`, `Fetch`, `Process`). That package does HTTP and JSON and is not part of this model. Only its outcome is modelled: fetch failed, processing failed, or the loaded properties.
- Spawning the process, the `io.MultiWriter` duplication of its output, and the byte buffers. These are operating-system I/O with concurrent pipe draining. The captured output comes in as two strings, and printing the report to standard output is not modelled.
- Reading `os.Environ()` and decoding `syscall.WaitStatus`. The inherited environment is a parameter. The run's outcome, with its status integer, is an abstract input.
- The iteration order of the Go property map, which is randomised. Properties are a sequence in whatever order the map yielded. No ordering among property entries is claimed beyond that sequence, and `Environment.ComposeEnvPermute` shows that the environment holds the same entries, each as often, whatever the order.
- Go's rule that a nil `cmd.Env` means "inherit the parent's environment". With the system environment off and no properties, the model's environment is empty. That library rule is not modelled.
- Go's rule that when `cmd.Env` holds several entries for one name, only the last is used. The model describes the `Env` slice the code builds, not the environment the child ends up seeing. For example, a `path` property sanitized to `PATH` hides the inherited `PATH`. Likewise, of two keys that sanitize to the same name (`Sanitize.SanitizeMergesKeys`), the random map order decides which one the child sees.
- Strings.ToUpper: only ASCII letters are mapped. Go's `strings.ToUpper` also maps non-ASCII letters, which can change the byte length, so the model agrees with the code for ASCII keys only.
- Strings.ReplaceChar: it models `strings.ReplaceAll` only for a one-character pattern and replacement, which is the only way the code uses it.
- Keys and values are modelled as sequences of characters, not as Go's byte strings.
- The Go runtime panic on an empty argument list. It is not modelled as an outcome. Instead `Process.NewCommand`, `Process.RunCommand` and `Cli.EnvCommand` (once the configuration has loaded) require a non-empty argument list.
- Process.Reachable: it describes the statuses a wait status reports on Unix-like systems (0 for success, 1..255 or -1 for an exit error). On those systems, `Cli.ExitCodeIsByte` shows the program never exits with more than 255, so 8-bit truncation of the exit code never applies. The 32-bit exit code Windows reports, which `os.Exit` passes on unchanged, is not covered.
