/** The post-processing in `SBTProcess.execute_command`: what the method returns once the
    command line has been sent and pexpect has waited for the next prompt. */
module Execution {
  import opened PyText

  /** What the wait for the `sbt:<name>>` prompt reports after a command was sent. */
  datatype ExpectOutcome =
    | Matched(before: string)    // the prompt matched; `before` is the text read ahead of it
    | Timeout                    // pexpect raised TIMEOUT
    | Eof                        // pexpect raised EOF: the child closed its terminal
    | Raised(message: string)    // any other exception, with its text

  /** The pair `(output, exit_code)` that `execute_command` returns. */
  datatype Reply = Reply(output: string, exitCode: int)

  const ErrorMarker: string := "[error]"

  /** The captured text with the echoed command line dropped, rejoined and stripped. */
  function CleanOutput(command: string, before: string): (output: string)
    ensures output == [] || (!IsSpace(output[0]) && !IsSpace(output[|output| - 1]))
  {
    var lines := Split(before, '\n');
    var kept := if |lines| > 0 && Contains(lines[0], command) then lines[1..] else lines;
    Strip(Join(kept, "\n"))
  }

  /** The status guessed from the output: 1 when it mentions the error marker in any case. */
  function ExitCode(output: string): (code: int)
    ensures code == 0 || code == 1
  {
    if Contains(Lower(output), ErrorMarker) then 1 else 0
  }

  /** `execute_command` on a running child, given what the wait for the prompt reported. */
  function Execute(command: string, timeout: int, outcome: ExpectOutcome): (reply: Reply)
    ensures reply.exitCode == 0 || reply.exitCode == 1
    ensures !outcome.Matched? ==> reply.exitCode == 1
  {
    match outcome
    case Matched(before) =>
      var output := CleanOutput(command, before);
      Reply(output, ExitCode(output))
    case Timeout => Reply(TimeoutMessage(timeout), 1)
    case Eof => Reply("SBT process terminated unexpectedly", 1)
    case Raised(message) => Reply("Error executing command: " + message, 1)
  }

  /** The timeout reply names the timeout: reading the number back out of it gives `timeout`. */
  function TimeoutMessage(timeout: int): (m: string)
    ensures |m| > 32 && m[..24] == "Command timed out after " && m[|m| - 8..] == " seconds"
    ensures ParseInt(m[24..|m| - 8]) == timeout
  {
    var digits := IntString(timeout);
    var m := "Command timed out after " + digits + " seconds";
    assert m[24..|m| - 8] == digits;
    IntStringRoundTrip(timeout);
    m
  }

  // ---------------------------------------------------------------------
  // What the post-processing keeps
  // ---------------------------------------------------------------------

  /** Text without a newline is a single line: it is dropped whole when it contains the
      command, and otherwise only stripped. */
  lemma SingleLineOutput(command: string, before: string)
    requires '\n' !in before
    ensures CleanOutput(command, before)
            == if Contains(before, command) then "" else Strip(before)
  {
    SplitWhole(before, '\n');
  }

  /** With its first newline at `k`, the first line `before[..k]` is dropped exactly when it
      contains the command; no other text is ever removed before stripping. */
  lemma MultiLineOutput(command: string, before: string, k: nat)
    requires k < |before| && before[k] == '\n' && '\n' !in before[..k]
    ensures CleanOutput(command, before)
            == if Contains(before[..k], command) then Strip(before[k + 1..]) else Strip(before)
  {
    var first, rest := before[..k], before[k + 1..];
    assert before == first + ['\n'] + rest;
    SplitAtFirst(first, rest, '\n');
    JoinSplit(rest, '\n');
    JoinSplit(before, '\n');
  }

  /** The output of a matched command is an infix of the captured text: interior lines come
      through unchanged. */
  lemma OutputIsInfix(command: string, before: string)
    ensures exists i :: OccursAt(before, CleanOutput(command, before), i)
  {
    if '\n' in before {
      var k := FirstNewline(before);
      MultiLineOutput(command, before, k);
      if Contains(before[..k], command) {
        StripOccurs(before[k + 1..]);
        OccursInSuffix(before, k + 1, Strip(before[k + 1..]));
      } else {
        StripOccurs(before);
      }
    } else {
      SingleLineOutput(command, before);
      if Contains(before, command) {
        assert OccursAt(before, "", 0);
      } else {
        StripOccurs(before);
      }
    }
  }

  lemma StripOccurs(s: string)
    ensures exists i :: OccursAt(s, Strip(s), i)
  {
    var j :| StrippedAt(s, j, Strip(s));
    assert OccursAt(s, Strip(s), j);
  }

  lemma OccursInSuffix(s: string, k: nat, r: string)
    requires k <= |s| && exists i :: OccursAt(s[k..], r, i)
    ensures exists i :: OccursAt(s, r, i)
  {
    var i :| OccursAt(s[k..], r, i);
    assert s[k..][i..i + |r|] == s[k + i..k + i + |r|];
    assert OccursAt(s, r, k + i);
  }

  /** The position of the first newline, when there is one. */
  function FirstNewline(s: string): (k: nat)
    requires '\n' in s
    ensures k < |s| && s[k] == '\n' && '\n' !in s[..k]
  {
    if s[0] == '\n' then 0
    else
      var k := FirstNewline(s[1..]) + 1;
      assert s[..k] == [s[0]] + s[1..][..k - 1];
      k
  }

  /** One might expect the output never to start with the echoed command, but only the first
      line is ever tested: after a blank first line the echo comes through untouched. */
  lemma EchoAfterBlankLineSurvives(command: string)
    requires command != [] && !IsSpace(command[0]) && !IsSpace(command[|command| - 1])
    ensures CleanOutput(command, "\n" + command) == command
  {
    var before := "\n" + command;
    MultiLineOutput(command, before, 0);
    assert before[..0] == "";
    assert before[1..] == command;
    assert command[..0] == [] && command[|command|..] == [];
    StripUnique(command, 0, |command|);
    assert command[0..|command|] == command;
  }

  // ---------------------------------------------------------------------
  // How the status is classified
  // ---------------------------------------------------------------------

  /** The exit code is 1 exactly when some seven-character window of the output reads
      `[error]` once lowered, whatever the case of its letters. */
  lemma ExitCodeIff(output: string)
    ensures ExitCode(output) == 1
            <==> exists i :: MarkerAt(output, i)
  {
    var low := Lower(output);
    ContainsIff(low, ErrorMarker);
    if ExitCode(output) == 1 {
      var i :| OccursAt(low, ErrorMarker, i);
      LowerSlice(output, i, i + 7);
      assert MarkerAt(output, i);
    }
    if exists i :: MarkerAt(output, i) {
      var i :| MarkerAt(output, i);
      LowerSlice(output, i, i + 7);
      assert OccursAt(low, ErrorMarker, i);
    }
  }

  /** Seven characters of `output` from `i` on read `[error]` in lower case. */
  predicate MarkerAt(output: string, i: int)
  {
    0 <= i <= |output| - 7 && Lower(output[i..i + 7]) == ErrorMarker
  }

  /** Lowering first changes nothing: the test is case-insensitive. */
  lemma ExitCodeIgnoresCase(output: string)
    ensures ExitCode(Lower(output)) == ExitCode(output)
  {
    LowerIdempotent(output);
  }

  lemma LowerIdempotent(s: string)
    ensures Lower(Lower(s)) == Lower(s)
  {
  }

  /** Three examples of the classification. */
  lemma ExitCodeExamples()
    ensures ExitCode("[ERROR] x") == 1
    ensures ExitCode("[error] x") == 1
    ensures ExitCode("ok, done") == 0
  {
    assert Lower("[ERROR] x")[..7] == ErrorMarker;
    assert Lower("[error] x")[..7] == ErrorMarker;
    NoMarker("ok, done");
  }

  lemma NoMarker(s: string)
    requires '[' !in s
    ensures ExitCode(s) == 0
  {
    NotContains(Lower(s), ErrorMarker, '[');
  }

  /** Text without a character of `sub` cannot contain `sub`. */
  lemma NotContains(s: string, sub: string, c: char)
    requires c in sub && c !in s
    ensures !Contains(s, sub)
  {
    ContainsIff(s, sub);
    var k :| 0 <= k < |sub| && sub[k] == c;
    forall i | 0 <= i <= |s| - |sub| ensures !OccursAt(s, sub, i) {
      assert s[i..i + |sub|][k] == s[i + k];
    }
  }

  // ---------------------------------------------------------------------
  // Whole replies
  // ---------------------------------------------------------------------

  /** A reply of one clean line followed by a newline, and not holding the command, comes back
      as that line with status 0 when it has no `[`. */
  lemma OneLineReply(command: string, text: string, timeout: int)
    requires text != [] && '\n' !in text && '[' !in text
    requires !IsSpace(text[0]) && !IsSpace(text[|text| - 1])
    requires !Contains(text, command)
    ensures Execute(command, timeout, Matched(text + "\n")) == Reply(text, 0)
  {
    var before := text + "\n";
    CleanOneLine(command, text);
    NoMarker(text);
    assert CleanOutput(command, before) == text;
  }

  lemma CleanOneLine(command: string, text: string)
    requires text != [] && '\n' !in text
    requires !IsSpace(text[0]) && !IsSpace(text[|text| - 1])
    requires !Contains(text, command)
    ensures CleanOutput(command, text + "\n") == text
  {
    var before := text + "\n";
    assert before[|text|] == '\n' && before[..|text|] == text;
    MultiLineOutput(command, before, |text|);
    StripLine(text);
  }

  lemma StripLine(text: string)
    requires text != [] && !IsSpace(text[0]) && !IsSpace(text[|text| - 1])
    ensures Strip(text + "\n") == text
  {
    var before := text + "\n";
    assert before[|text|..] == "\n";
    assert AllSpace(before[|text|..]);
    assert before[..0] == [];
    assert before[0] == text[0] && before[|text| - 1] == text[|text| - 1];
    StripUnique(before, 0, |text|);
    assert before[0..|text|] == text;
  }
}
