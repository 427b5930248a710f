# dotty-mcp session driver, modelled in Dafny

dotty-mcp is a server that exposes two tools over MCP: `scalac`, which compiles one Scala file
with the development Scala 3 compiler, and `testCompilation`, which runs the compiler's
compilation test suite. Both tools go through a single long-running `sbt` console. The core of
the server is `src/dotty_mcp/main.py`. It has two classes:

- `SBTProcess` checks the project root and starts `sbt -no-colors` under pexpect. It sends a
  command line, waits for the `sbt:<name>>` prompt, cleans up the text captured before that
  prompt and guesses a status code from it. It also shuts the child down.
- `DottyProject` creates an `SBTProcess` the first time it is needed and keeps it. It builds the
  command lines for the two tools and turns each reply into the report text the tool returns.

The model keeps that split:

- `PyText` (pytext.dfy) models the Python string built-ins the code relies on:
  `split('\n')`, `'\n'.join`, `strip()`, `lower()`, the substring test `in`, and `str(int)`.
  Each comes with its partner: join undoes split, `strip()` is characterised as the unique
  whitespace-free infix, and parsing a number undoes `str`.
- `Errors` (errors.dfy) has `ValueError`/`RuntimeError`, and the two shapes of a step that may
  raise.
- `Execution` (execution.dfy) covers what `execute_command` does after the command is sent:
  drop the echoed line, rejoin, strip, classify on `[error]`, and the fixed replies for TIMEOUT,
  EOF and other exceptions. The wait itself is an input, `ExpectOutcome`.
- `Startup` (startup.dfy) covers the decision in `_start_process`. The two file-system checks
  come in order, then the spawn, then the index test on the first prompt wait. Either the spawn
  or the wait may raise. The file system and the child are inputs (`Environment`).
- `Commands` (commands.dfy) holds the command lines and the report templates of `scalac` and
  `testCompilation`, with parsers that read each report back.
- `Session` (session.dfy) has the classes. `SbtProcess` (field `process`) and `DottyProject`
  (field `sbtProcess`) update their fields in place. `Child` stands for the pexpect handle: an
  `alive` flag for `isalive()` and the list of lines sent with `sendline`. Each method is
  proved against the functions above. The client methods at the end of the file
  (`EnsureTwiceReusesProcess`, `MissingBuildFileSpawnsNothing`, `DeadProcessIsNotReplaced`,
  `StartupTimeoutStillRuns`, `WaitFailureKeepsChild`, `TwoCallsShareOneProcess`,
  `FailedStartupIsRetried`, `CloseTwice`) show what a caller can conclude from the contracts
  alone.

Python's `lower()` is modelled on ASCII letters only. For the `[error]` test this gives the
same answer as full Unicode lowering. The only non-ASCII characters that lower to ASCII are the
Kelvin sign (to `k`) and `İ` (to `i` followed by a combining dot), and none of these is a
character of `[error]`. That argument is not itself proved. The call to `strip()` uses the full
set of characters Python's `str.isspace()` accepts, not only the ASCII ones.

## Behaviour worth knowing

The model follows the code in each of these cases:

- The echo test is a substring test (`command in lines[0]`), not a prefix test. It looks only at
  the first line. `Execution.EchoAfterBlankLineSurvives` shows that the output can still start
  with the echoed command once a blank line comes first. So the cleaned output can start with
  the echoed command.
- The startup index test is `index >= 3`, although the comment beside it says "TIMEOUT or EOF".
  A startup wait that times out (index 2) therefore counts as started
  (`Startup.StartupTimeoutCountsAsStarted`, and the client method `StartupTimeoutStillRuns`).
  The comment suggests that `index >= 2` was meant. The session class still keeps the rule as
  written.
- Once an `SBTProcess` is held, it is never replaced, even after its child has died.
  `ensure_sbt_running` only tests for `None` (`DeadProcessIsNotReplaced`).
- `DottyProject.close` does not clear its reference (`Session.DottyProject.Close` ensures
  `sbtProcess == old(sbtProcess)`).
- After a command times out there is no resynchronisation. Nothing in the state records the
  abandoned wait.

## Model

| member | source | states |
|---|---|---|
| PyText.Split | src/dotty_mcp/main.py:101 | `split('\n')` always returns at least one part, and no part contains the separator |
| PyText.JoinSplit | src/dotty_mcp/main.py:101-104 | joining the parts of a split with the separator gives back exactly the original text |
| PyText.Join | src/dotty_mcp/main.py:104 | `sep.join(parts)`, used with `'\n'` here and with `' '` at line 173, starts with its first part; `JoinSplit` and `SplitJoin` make it the inverse of `split` |
| PyText.SplitJoin | src/dotty_mcp/main.py:173 | splitting a join gives back the parts, when no part contains the separator |
| PyText.StripLeft | src/dotty_mcp/main.py:104 | the result is a suffix of the input, everything removed is whitespace, and the result does not start with whitespace |
| PyText.StripRight | src/dotty_mcp/main.py:104 | the result is a prefix of the input, everything removed is whitespace, and the result does not end with whitespace |
| PyText.Strip | src/dotty_mcp/main.py:104 | `strip()` neither starts nor ends with whitespace, and it is an infix of its input with only whitespace before and after it |
| PyText.StripUnique | src/dotty_mcp/main.py:104 | any infix that has only whitespace around it and no whitespace at its ends is exactly what `strip()` returns |
| PyText.StripIdempotent | src/dotty_mcp/main.py:104 | stripping twice gives the same as stripping once |
| PyText.Lower | src/dotty_mcp/main.py:108 | `lower()` keeps the length and lowers each character in place |
| PyText.LowerSlice | src/dotty_mcp/main.py:108 | lowering commutes with taking a slice |
| PyText.ContainsIff | src/dotty_mcp/main.py:102-108 | `sub in s`, used for the echo test at line 102 and the `[error]` test at line 108, holds exactly when `sub` occurs at some position of `s` |
| PyText.NatString | src/dotty_mcp/main.py:113 | `str(n)` is a non-empty run of digits with no leading zero unless `n` is 0 |
| PyText.IntString | src/dotty_mcp/main.py:56 | `str(n)` inside an f-string, here the prompt index and at line 113 the timeout, starts with `-` exactly when `n` is negative and is digits otherwise |
| PyText.IntStringRoundTrip | src/dotty_mcp/main.py:113 | reading `str(n)` back as a number gives `n`, for negative `n` as well |
| Execution.CleanOutput | src/dotty_mcp/main.py:101-104 | the cleaned output neither starts nor ends with whitespace |
| Execution.SingleLineOutput | src/dotty_mcp/main.py:101-104 | captured text without a newline is dropped entirely when it contains the command, and is otherwise only stripped |
| Execution.MultiLineOutput | src/dotty_mcp/main.py:101-104 | the first line is dropped exactly when it contains the command; otherwise every line is kept; nothing else is removed before the strip |
| Execution.OutputIsInfix | src/dotty_mcp/main.py:101-104 | the output is a contiguous piece of the captured text, so interior lines come through unchanged |
| Execution.FirstNewline | src/dotty_mcp/main.py:101 | the first line ends at the first newline |
| Execution.EchoAfterBlankLineSurvives | src/dotty_mcp/main.py:102-103 | when the first line is blank, the echoed command on the second line comes through as the output |
| Execution.ExitCode | src/dotty_mcp/main.py:108 | the status is 0 or 1 |
| Execution.ExitCodeIff | src/dotty_mcp/main.py:108 | the status is 1 exactly when some seven characters of the output read `[error]` once lowered, whatever their case |
| Execution.ExitCodeIgnoresCase | src/dotty_mcp/main.py:108 | lowering the output first does not change the status |
| Execution.ExitCodeExamples | src/dotty_mcp/main.py:108 | `[ERROR] x` and `[error] x` give 1, and `ok, done` gives 0 |
| Execution.NoMarker | src/dotty_mcp/main.py:108 | output without a `[` gives status 0 |
| Execution.Execute | src/dotty_mcp/main.py:98-117 | the status is always 0 or 1, and every outcome other than a matched prompt has status 1 |
| Execution.TimeoutMessage | src/dotty_mcp/main.py:112-113 | the timeout reply reads `Command timed out after <n> seconds`, and the number in it parses back to the timeout |
| Execution.OneLineReply | src/dotty_mcp/main.py:98-110 | one clean line followed by a newline that does not contain the command comes back as that line, with status 0 when it has no `[` |
| Execution.CleanOneLine | src/dotty_mcp/main.py:101-104 | one clean line followed by a newline that does not contain the command is cleaned to that line |
| Execution.StripLine | src/dotty_mcp/main.py:104 | stripping a clean line followed by a newline gives that line |
| Startup.Index | src/dotty_mcp/main.py:48-53 | the startup wait reports one of the four indices 0 to 3 |
| Startup.StartupOutcome | src/dotty_mcp/main.py:29-73 | startup passes exactly when both checks pass, neither the spawn nor the wait raises, and the wait does not end in EOF; a `ValueError` is raised exactly when a check fails; a missing root is reported before a missing `build.sbt` |
| Startup.StartupTimeoutCountsAsStarted | src/dotty_mcp/main.py:55 | a startup wait that times out leaves the process started |
| Startup.StartupEofMessage | src/dotty_mcp/main.py:55-73 | EOF at startup raises `RuntimeError("Failed to start SBT process: Failed to match prompt. Index: 3")` |
| Commands.ScalacCommand | src/dotty_mcp/main.py:170-174 | the command starts with `scalac <file> -color:never`, so `-color:never` is always the first option |
| Commands.ScalacCommandWords | src/dotty_mcp/main.py:170-174 | when neither the file nor any option contains a space, the command splits back into `scalac`, the file, `-color:never` and the options in order |
| Commands.TestCompilationCommand | src/dotty_mcp/main.py:208-211 | the command is `testCompilation` exactly when the pattern is empty, and the pattern can be read back from it |
| Commands.TestCompilationCommandInjective | src/dotty_mcp/main.py:208-211 | different patterns give different commands |
| Commands.ScalacReport | src/dotty_mcp/main.py:180-185 | the report starts with `Successfully compiled <file>` exactly when the status is 0, and it ends with the output |
| Commands.ScalacReportRoundTrip | src/dotty_mcp/main.py:180-185 | both the status and the whole output can be read back from a `scalac` report |
| Commands.TestCompilationReport | src/dotty_mcp/main.py:217-220 | the report starts with `Test compilation succeeded` exactly when the status is 0, and it ends with the output |
| Commands.TestCompilationReportRoundTrip | src/dotty_mcp/main.py:217-220 | both the status and the whole output can be read back from a `testCompilation` report |
| Commands.ErrorReport | src/dotty_mcp/main.py:187-190 | a raised `ValueError` or `RuntimeError` becomes `Error: ` followed by its message |
| Commands.ScalacToolReport | src/dotty_mcp/main.py:179-190 | the `scalac` tool result starts with `Error: ` exactly when a `ValueError` or `RuntimeError` was caught; its message, or the status and output of the reply, can be read back from it |
| Commands.TestCompilationToolReport | src/dotty_mcp/main.py:216-225 | the `testCompilation` tool result starts with `Error: ` exactly when a `ValueError` or `RuntimeError` was caught; its message, or the status and output of the reply, can be read back from it |
| Session.SbtProcess.constructor | src/dotty_mcp/main.py:18-26 | a new process object has its root set and no child yet |
| Session.SbtProcess.StartProcess | src/dotty_mcp/main.py:29-73 | the result is `StartupOutcome`; a fresh, live child with nothing sent is spawned exactly when both checks pass and the spawn does not raise, and it is kept even when the wait then raises or ends in EOF; otherwise `process` is unchanged |
| Session.SbtProcess.ExecuteCommand | src/dotty_mcp/main.py:75-117 | with no child, or a dead one, it raises `SBT process is not running` and sends nothing; otherwise it records the command as sent once and returns `Execute` of the outcome; liveness is unchanged either way |
| Session.SbtProcess.Close | src/dotty_mcp/main.py:119-126 | only a live child is acted on: it is sent `exit` and is no longer alive afterwards; otherwise nothing is sent |
| Session.DottyProject.constructor | src/dotty_mcp/main.py:136-144 | a new project holds no process |
| Session.DottyProject.EnsureSbtRunning | src/dotty_mcp/main.py:146-149 | a held process is reused even when its child is dead; with none held, startup runs and its process is kept exactly when startup passes |
| Session.DottyProject.Submit | src/dotty_mcp/main.py:166-177 | ensuring a process and then executing gives the result `Submission` predicts from the prior state; the command is logged exactly when it ran; a held process is never replaced |
| Session.DottyProject.Scalac | src/dotty_mcp/main.py:151-192 | the report is the error text or the formatted `scalac` reply for what `Submission` predicts; the `scalac` command is sent exactly when it runs; with no process held, a new one is kept, fresh with a fresh child, exactly when startup passes, so a failed startup is retried by the next call |
| Session.DottyProject.TestCompilation | src/dotty_mcp/main.py:194-227 | the report is the error text or the formatted `testCompilation` reply for what `Submission` predicts; the test command is sent exactly when it runs; with no process held, a new one is kept, fresh with a fresh child, exactly when startup passes, so a failed startup is retried by the next call |
| Session.DottyProject.Close | src/dotty_mcp/main.py:229-232 | closes the held process when its child is alive, and keeps the reference |

## Left out

- pexpect I/O is not modelled byte by byte: spawning, `sendline`, the `expect` reading loop,
  `terminate` and `isalive`. The handle is `Session.Child`, which has an `alive` flag and a list
  of lines sent. What each wait reports is an input (`Startup.Prompt`,
  `Execution.ExpectOutcome`).
- The prompt regular expressions `sbt:\w+>\s*` and `>\s*$` are matched inside pexpect. The model
  is given "matched, with this text before the prompt".
- The spawn options are not modelled: `-no-colors`, the working directory, UTF-8, the 300-second
  spawn timeout and the 120-second startup wait. They only affect the child, which is an input.
- `Path.exists()` for the root and for `build.sbt` is taken as two booleans (`Startup.Environment`).
- The text of foreign exceptions is not computed. It is an opaque message: `Spawn.SpawnRaised`,
  `Spawn.WaitRaised`, `ExpectOutcome.Raised`.
- The `Unexpected error:` branches of `scalac` and `testCompilation` are left out. They catch
  what `ensure_sbt_running` and `execute_command` raise outside their own handlers: an `OSError`
  from the `Path.exists()` checks, or an exception from `isalive()` (which runs before the try
  of `execute_command` and raises when `waitpid` fails). The model's file-system checks and
  `Child.alive` never raise.
- The `except pexpect.exceptions.TIMEOUT` and `except pexpect.exceptions.EOF` branches of
  `_start_process` are left out. They cannot be reached, because TIMEOUT and EOF are in the list
  passed to `expect`, which then returns index 2 or 3 instead of raising.
- The MCP tool functions, the `PROJECT` global, argparse, `atexit` and `__del__` are left out.
  These are entry-point and host-framework plumbing.
- Session.SbtProcess.StartProcess: a child spawned by a startup that fails after the spawn
  (EOF, index 3, or a wait that raises) stays marked alive. In the source it has usually closed
  its terminal already, so `isalive()` soon reports False; the model, as for `ExecuteCommand`,
  leaves that change to the environment (`Child.Exit`).
- Session.SbtProcess.Close: does not distinguish the graceful `exit` from the
  `terminate(force=True)` fallback. It also ignores a `sendline` that raises before `exit` was
  written. Both paths end with the child not alive.
- Session.SbtProcess.ExecuteCommand: an EOF reply does not mark the child dead. pexpect reports
  the death later through `isalive()`, which the environment models with `Child.Exit`. A
  `Raised` outcome stands for any exception inside the try, including one from `sendline`
  itself; the model still records the command as sent then, whereas a `sendline` that raises
  writes nothing. The reply, `Error executing command: ...` with status 1, is the same.
- `str.lower()` is modelled on ASCII letters only (see above).
