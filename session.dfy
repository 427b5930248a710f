/** The two stateful classes: `SBTProcess`, which owns one pexpect child, and `DottyProject`,
    which creates an `SBTProcess` on first use and runs the two tool commands through it. */
module Session {
  import opened Errors
  import opened Execution
  import opened Startup
  import opened Commands

  /** The timeout `execute_command` uses when its caller gives none. */
  const CommandTimeout: int := 300

  const NotRunningMessage: string := "SBT process is not running"

  /** A pexpect child seen from the driver: whether `isalive()` holds, and the lines written to
      its terminal so far. */
  class Child {
    var alive: bool
    var sent: seq<string>

    constructor ()
      ensures alive && sent == []
    {
      alive := true;
      sent := [];
    }

    /** `sendline`. */
    method SendLine(line: string)
      modifies this
      ensures alive == old(alive) && sent == old(sent) + [line]
    {
      sent := sent + [line];
    }

    /** The child process ends. */
    method Exit()
      modifies this
      ensures !alive && sent == old(sent)
    {
      alive := false;
    }
  }

  class SbtProcess {
    const root: string
    var process: Child?

    /** `__init__` up to its call of `_start_process`. */
    constructor (root: string)
      ensures this.root == root && process == null
    {
      this.root := root;
      process := null;
    }

    /** `process is not None and process.isalive()`. */
    ghost predicate Running()
      reads this, process
    {
      process != null && process.alive
    }

    /** `_start_process`: both checks come before the spawn; a child, once spawned, stays in
        `process` whatever the wait then reports. */
    method StartProcess(env: Environment) returns (r: Outcome)
      modifies this
      ensures r == StartupOutcome(root, env)
      ensures Spawns(env) ==> process != null && fresh(process) && process.alive && process.sent == []
      ensures !Spawns(env) ==> process == old(process)
    {
      r := StartupOutcome(root, env);
      if Spawns(env) {
        process := new Child();
      }
    }

    /** `execute_command`: a missing or dead child raises before anything is sent; otherwise the
        command line is sent and the reply is what `Execute` makes of the wait's outcome. */
    method ExecuteCommand(command: string, timeout: int, outcome: ExpectOutcome) returns (r: Result<Reply>)
      modifies process
      ensures !old(Running()) ==> r == Failure(RuntimeError(NotRunningMessage))
      ensures !old(Running()) && process != null ==> process.sent == old(process.sent)
      ensures old(Running()) ==> r == Success(Execute(command, timeout, outcome))
      ensures old(Running()) ==> process.sent == old(process.sent) + [command]
      ensures process != null ==> process.alive == old(process.alive)
    {
      if process == null || !process.alive {
        return Failure(RuntimeError(NotRunningMessage));
      }
      process.SendLine(command);
      r := Success(Execute(command, timeout, outcome));
    }

    /** `close`: only a running child is told to exit; afterwards it is gone, whether it left
        on its own within the wait or was killed. */
    method Close()
      modifies process
      ensures !Running()
      ensures old(Running()) ==> process.sent == old(process.sent) + ["exit"]
      ensures !old(Running()) && process != null ==> process.sent == old(process.sent)
    {
      if process != null && process.alive {
        process.SendLine("exit");
        process.Exit();
      }
    }
  }

  class DottyProject {
    const root: string
    var sbtProcess: SbtProcess?

    constructor (root: string)
      ensures this.root == root && sbtProcess == null
    {
      this.root := root;
      sbtProcess := null;
    }

    /** The child of the held `SbtProcess`, if any. */
    ghost function Handle(): Child?
      reads this, sbtProcess
    {
      if sbtProcess == null then null else sbtProcess.process
    }

    ghost predicate Running()
      reads this, sbtProcess, Handle()
    {
      sbtProcess != null && sbtProcess.Running()
    }

    /** The lines sent to the held child so far. */
    ghost function Log(): seq<string>
      reads this, sbtProcess, Handle()
    {
      if Handle() == null then [] else Handle().sent
    }

    /** `ensure_sbt_running`: a new `SbtProcess` is made only while none is held, and it is kept
        only when its startup did not raise. A held one is reused even when its child is dead. */
    method EnsureSbtRunning(env: Environment) returns (r: Outcome)
      modifies this
      ensures old(sbtProcess) != null ==> r == Pass && sbtProcess == old(sbtProcess)
      ensures old(sbtProcess) == null ==> r == StartupOutcome(root, env)
      ensures old(sbtProcess) == null && r.Pass? ==>
                sbtProcess != null && fresh(sbtProcess) && sbtProcess.root == root
                && Handle() != null && fresh(Handle()) && Running() && Log() == []
      ensures old(sbtProcess) == null && r.Fail? ==> sbtProcess == null
    {
      if sbtProcess == null {
        var p := new SbtProcess(root);
        r := p.StartProcess(env);
        if r.Pass? {
          sbtProcess := p;
        }
      } else {
        r := Pass;
      }
    }

    /** What `ensure_sbt_running` followed by `execute_command` yields in the current state. */
    ghost function Submission(command: string, env: Environment, outcome: ExpectOutcome): Result<Reply>
      reads this, sbtProcess, Handle()
    {
      if sbtProcess == null then
        match StartupOutcome(root, env)
        case Fail(e) => Failure(e)
        case Pass => Success(Execute(command, CommandTimeout, outcome))
      else if !Running() then Failure(RuntimeError(NotRunningMessage))
      else Success(Execute(command, CommandTimeout, outcome))
    }

    /** The part shared by `scalac` and `testCompilation`: make sure a process is held, then run
        the command on it with the default timeout. */
    method Submit(command: string, env: Environment, outcome: ExpectOutcome) returns (r: Result<Reply>)
      modifies this, Handle()
      ensures r == old(Submission(command, env, outcome))
      ensures old(sbtProcess) != null ==> sbtProcess == old(sbtProcess)
      ensures old(sbtProcess) == null ==> (sbtProcess == null <==> r.Failure?)
      ensures old(sbtProcess) == null && sbtProcess != null ==> fresh(sbtProcess) && fresh(Handle())
      ensures r.Success? ==> Running() && Log() == old(Log()) + [command]
      ensures r.Failure? ==> Log() == old(Log()) && !Running()
    {
      var started := EnsureSbtRunning(env);
      if started.Fail? {
        return Failure(started.error);
      }
      r := sbtProcess.ExecuteCommand(command, CommandTimeout, outcome);
    }

    /** `scalac`: compile one file with the given options. */
    method Scalac(file: string, options: seq<string>, env: Environment, outcome: ExpectOutcome)
      returns (report: string)
      modifies this, Handle()
      ensures report == ScalacToolReport(file, old(Submission(ScalacCommand(file, options), env, outcome)))
      ensures old(sbtProcess) != null ==> sbtProcess == old(sbtProcess)
      ensures old(sbtProcess) == null ==>
                (sbtProcess == null <==> old(Submission(ScalacCommand(file, options), env, outcome)).Failure?)
      ensures old(sbtProcess) == null && sbtProcess != null ==> fresh(sbtProcess) && fresh(Handle())
      ensures Running() <==> old(Submission(ScalacCommand(file, options), env, outcome)).Success?
      ensures Log() == old(Log()) + (if Running() then [ScalacCommand(file, options)] else [])
    {
      var command := ScalacCommand(file, options);
      var r := Submit(command, env, outcome);
      report := ScalacToolReport(file, r);
    }

    /** `testCompilation`: run the compilation test suite, filtered by `pattern` when given. */
    method TestCompilation(pattern: string, env: Environment, outcome: ExpectOutcome)
      returns (report: string)
      modifies this, Handle()
      ensures report == TestCompilationToolReport(old(Submission(TestCompilationCommand(pattern), env, outcome)))
      ensures old(sbtProcess) != null ==> sbtProcess == old(sbtProcess)
      ensures old(sbtProcess) == null ==>
                (sbtProcess == null <==> old(Submission(TestCompilationCommand(pattern), env, outcome)).Failure?)
      ensures old(sbtProcess) == null && sbtProcess != null ==> fresh(sbtProcess) && fresh(Handle())
      ensures Running() <==> old(Submission(TestCompilationCommand(pattern), env, outcome)).Success?
      ensures Log() == old(Log()) + (if Running() then [TestCompilationCommand(pattern)] else [])
    {
      var command := TestCompilationCommand(pattern);
      var r := Submit(command, env, outcome);
      report := TestCompilationToolReport(r);
    }

    /** `close`: forwards to the held process and keeps the reference. */
    method Close()
      modifies Handle()
      ensures sbtProcess == old(sbtProcess)
      ensures !Running()
      ensures old(Running()) ==> Log() == old(Log()) + ["exit"]
      ensures !old(Running()) ==> Log() == old(Log())
    {
      if sbtProcess != null {
        sbtProcess.Close();
      }
    }
  }

  // ---------------------------------------------------------------------
  // Client scenarios: what a caller can conclude from the contracts alone
  // ---------------------------------------------------------------------

  /** A second `ensure_sbt_running` after a successful one reuses the same process, whatever
      the environment would now do. */
  method EnsureTwiceReusesProcess(root: string, later: Environment)
  {
    var project := new DottyProject(root);
    var first := project.EnsureSbtRunning(Environment(true, true, Spawned(StandardPrompt)));
    assert first == Pass;
    var held := project.sbtProcess;
    var second := project.EnsureSbtRunning(later);
    assert second == Pass && project.sbtProcess == held;
  }

  /** A root without `build.sbt` is refused with a message naming the root, and no process is
      kept; the next call tries again. */
  method MissingBuildFileSpawnsNothing(root: string, spawn: Spawn)
  {
    var project := new DottyProject(root);
    var r := project.EnsureSbtRunning(Environment(true, false, spawn));
    assert r == Fail(ValueError(MissingBuildMessage(root)));
    assert project.sbtProcess == null;
    var report := project.Scalac("A.scala", [], Environment(true, false, spawn), Eof);
    assert report == "Error: " + MissingBuildMessage(root);
  }

  /** A child that died is never replaced: later commands report that the process is not
      running, and nothing is sent. */
  method DeadProcessIsNotReplaced(root: string, outcome: ExpectOutcome)
  {
    var project := new DottyProject(root);
    var r := project.EnsureSbtRunning(Environment(true, true, Spawned(SimplePrompt)));
    var child := project.sbtProcess.process;
    child.Exit();
    var report := project.TestCompilation("pos", Environment(true, true, Spawned(StandardPrompt)), outcome);
    assert report == "Error: " + NotRunningMessage;
    assert project.Log() == [];
  }

  /** A startup wait that times out still counts as started, so the command is sent. */
  method StartupTimeoutStillRuns(root: string)
  {
    var project := new DottyProject(root);
    var report := project.TestCompilation("", Environment(true, true, Spawned(PromptTimeout)), Eof);
    assert project.Running();
    assert project.Log() == ["testCompilation"];
    assert report == TestCompilationReport(Reply("SBT process terminated unexpectedly", 1));
  }

  /** A startup wait that raises fails the startup, yet the spawned child stays held by the
      process object; the project does not keep that object. */
  method WaitFailureKeepsChild(root: string, message: string)
  {
    var env := Environment(true, true, WaitRaised(message));
    var p := new SbtProcess(root);
    var r := p.StartProcess(env);
    assert r == Fail(RuntimeError(StartFailure(message)));
    assert p.process != null && p.Running();
    var project := new DottyProject(root);
    var s := project.EnsureSbtRunning(env);
    assert s == r && project.sbtProcess == null;
  }

  /** Two tool calls in a row: the first starts the process and the second reuses it, so both
      commands go to the same child, in order. */
  method TwoCallsShareOneProcess(root: string, pattern: string, outcome: ExpectOutcome)
  {
    var project := new DottyProject(root);
    var good := Environment(true, true, Spawned(StandardPrompt));
    assert StartupOutcome(root, good) == Pass;
    var first := project.TestCompilation(pattern, good, outcome);
    assert project.Running() && project.Log() == [TestCompilationCommand(pattern)];
    var held := project.sbtProcess;
    var second := project.TestCompilation("", good, outcome);
    assert project.sbtProcess == held;
    assert project.Log() == [TestCompilationCommand(pattern), TestCompilationCommand("")];
  }

  /** A failed startup keeps no process, so the next tool call tries the startup again. */
  method FailedStartupIsRetried(root: string)
  {
    var project := new DottyProject(root);
    var missing := Environment(true, false, Spawned(StandardPrompt));
    var first := project.Scalac("A.scala", [], missing, Eof);
    assert project.sbtProcess == null;
    var second := project.Scalac("A.scala", [], missing, Eof);
    assert second == "Error: " + MissingBuildMessage(root);
    var third := project.Scalac("A.scala", [], Environment(true, true, Spawned(SimplePrompt)), Eof);
    assert project.Running() && project.Log() == [ScalacCommand("A.scala", [])];
  }

  /** Closing twice: the first close sends `exit`, the second does nothing. */
  method CloseTwice(root: string)
  {
    var project := new DottyProject(root);
    var r := project.EnsureSbtRunning(Environment(true, true, Spawned(StandardPrompt)));
    project.Close();
    assert project.Log() == ["exit"];
    project.Close();
    assert project.Log() == ["exit"] && project.sbtProcess != null;
  }
}
