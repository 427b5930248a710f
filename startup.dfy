/** The decision `SBTProcess._start_process` takes: the two checks on the project root, then
    the spawn of `sbt -no-colors` and the wait for its first prompt. */
module Startup {
  import opened PyText
  import opened Errors

  /** The four alternatives of the startup wait, in the order they are listed: the standard
      prompt `sbt:<name>>`, a bare `>` at the end of the text, TIMEOUT and EOF. */
  datatype Prompt = StandardPrompt | SimplePrompt | PromptTimeout | PromptEof

  /** The index `expect` returns for each alternative. */
  function Index(p: Prompt): (i: nat)
    ensures i < 4
  {
    match p
    case StandardPrompt => 0
    case SimplePrompt => 1
    case PromptTimeout => 2
    case PromptEof => 3
  }

  /** What spawning the child does: the spawn raises; or the child starts and the wait then
      raises something other than TIMEOUT or EOF; or the child starts and the wait reports an
      index. */
  datatype Spawn = SpawnRaised(message: string) | WaitRaised(message: string) | Spawned(prompt: Prompt)

  /** What the file system and the child will do when startup runs. */
  datatype Environment = Environment(rootExists: bool, buildSbtExists: bool, spawn: Spawn)

  function MissingRootMessage(root: string): (m: string)
  {
    "Project root " + root + " does not exist."
  }

  function MissingBuildMessage(root: string): (m: string)
  {
    "No build.sbt found in " + root + ". Not a valid SBT project."
  }

  /** Everything raised inside the spawn block is re-raised under this prefix. */
  function StartFailure(message: string): (m: string)
  {
    "Failed to start SBT process: " + message
  }

  function PromptFailure(index: nat): (m: string)
  {
    "Failed to match prompt. Index: " + IntString(index)
  }

  /** A child is created exactly when both checks pass and the spawn itself does not raise. */
  predicate Spawns(env: Environment)
  {
    env.rootExists && env.buildSbtExists && !env.spawn.SpawnRaised?
  }

  /** What `_start_process` raises, if anything. */
  function StartupOutcome(root: string, env: Environment): (r: Outcome)
    ensures r.Pass? <==> Spawns(env) && env.spawn.Spawned? && env.spawn.prompt != PromptEof
    ensures r.Fail? && r.error.ValueError? <==> !(env.rootExists && env.buildSbtExists)
    ensures !env.rootExists ==> r.error.message == MissingRootMessage(root)
    ensures env.rootExists && !env.buildSbtExists ==> r.error.message == MissingBuildMessage(root)
  {
    if !env.rootExists then Fail(ValueError(MissingRootMessage(root)))
    else if !env.buildSbtExists then Fail(ValueError(MissingBuildMessage(root)))
    else match env.spawn
      case SpawnRaised(message) => Fail(RuntimeError(StartFailure(message)))
      case WaitRaised(message) => Fail(RuntimeError(StartFailure(message)))
      case Spawned(prompt) =>
        var index := Index(prompt);
        if index >= 3 then Fail(RuntimeError(StartFailure(PromptFailure(index)))) else Pass
  }

  /** The comment at the index test says "TIMEOUT or EOF", yet the test is `index >= 3`: a
      startup wait that times out leaves the process counted as started. */
  lemma StartupTimeoutCountsAsStarted(root: string)
    ensures StartupOutcome(root, Environment(true, true, Spawned(PromptTimeout))) == Pass
  {
  }

  /** End of stream at startup is reported as a failed prompt match with index 3. */
  lemma StartupEofMessage(root: string)
    ensures StartupOutcome(root, Environment(true, true, Spawned(PromptEof)))
            == Fail(RuntimeError("Failed to start SBT process: Failed to match prompt. Index: 3"))
  {
    assert DigitChar(3) == '3';
    assert IntString(3) == "3";
    assert StartFailure(PromptFailure(3))
           == "Failed to start SBT process: Failed to match prompt. Index: 3";
  }
}
