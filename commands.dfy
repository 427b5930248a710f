/** The command lines `DottyProject` sends and the reports it builds from the replies. */
module Commands {
  import opened PyText
  import opened Errors
  import opened Execution

  const ColorOption: string := "-color:never"

  predicate IsPrefix(p: string, s: string)
  {
    |p| <= |s| && s[..|p|] == p
  }

  predicate IsSuffix(p: string, s: string)
  {
    |p| <= |s| && s[|s| - |p|..] == p
  }

  /** `scalac <file> <options>`, with `-color:never` always the first option. */
  function ScalacCommand(file: string, options: seq<string>): (command: string)
    ensures IsPrefix("scalac " + file + " " + ColorOption, command)
  {
    var command := "scalac " + file + " " + Join([ColorOption] + options, " ");
    assert IsPrefix(ColorOption, Join([ColorOption] + options, " ")) by {
      if options != [] { JoinCons(ColorOption, options, " "); }
    }
    command
  }

  /** When neither the file name nor any option holds a space, the command splits back into
      its words: `scalac`, the file, `-color:never`, then the options in order. */
  lemma ScalacCommandWords(file: string, options: seq<string>)
    requires ' ' !in file
    requires forall i :: 0 <= i < |options| ==> ' ' !in options[i]
    ensures Split(ScalacCommand(file, options), ' ') == ["scalac", file, ColorOption] + options
  {
    var words := ["scalac", file, ColorOption] + options;
    var all := [ColorOption] + options;
    assert words == ["scalac"] + ([file] + all);
    assert ([file] + all)[1..] == all;
    JoinCons(file, all, " ");
    JoinCons("scalac", [file] + all, " ");
    assert "scalac " + file + " " + Join(all, " ") == "scalac" + " " + (file + " " + Join(all, " "));
    SplitJoin(words, ' ');
  }

  /** `testCompilation`, followed by the pattern when there is one. */
  function TestCompilationCommand(pattern: string): (command: string)
    ensures IsPrefix("testCompilation", command)
    ensures command == "testCompilation" <==> pattern == []
    ensures TestPattern(command) == pattern
  {
    if pattern != [] then "testCompilation " + pattern else "testCompilation"
  }

  /** The pattern a test command carries (the partner of `TestCompilationCommand`). */
  function TestPattern(command: string): (pattern: string)
  {
    if |command| > 16 then command[16..] else ""
  }

  /** Distinct patterns give distinct test commands. */
  lemma TestCompilationCommandInjective(p: string, q: string)
    requires TestCompilationCommand(p) == TestCompilationCommand(q)
    ensures p == q
  {
  }

  // ---------------------------------------------------------------------
  // Reports
  // ---------------------------------------------------------------------

  /** The report of a `scalac` call whose command ran. */
  function ScalacReport(file: string, reply: Reply): (report: string)
    ensures IsPrefix("Successfully compiled " + file, report) <==> reply.exitCode == 0
    ensures IsSuffix(reply.output, report)
  {
    var ok := "Successfully compiled " + file;
    if reply.exitCode == 0 && reply.output == [] then ok
    else if reply.exitCode == 0 then ok + "\n\nOutput:\n" + reply.output
    else
      var failed := "Compilation failed for " + file + "\n\n";
      assert failed[0] != ok[0];
      failed + reply.output
  }

  /** Reads a `scalac` report back into its status and output (the partner of `ScalacReport`). */
  function ParseScalacReport(file: string, report: string): (bool, string)
  {
    var ok := "Successfully compiled " + file;
    var okOutput := ok + "\n\nOutput:\n";
    var failed := "Compilation failed for " + file + "\n\n";
    if report == ok then (true, "")
    else if IsPrefix(okOutput, report) then (true, report[|okOutput|..])
    else if IsPrefix(failed, report) then (false, report[|failed|..])
    else (false, report)
  }

  /** A `scalac` report keeps the whole status and the whole output of the reply. */
  lemma ScalacReportRoundTrip(file: string, reply: Reply)
    ensures ParseScalacReport(file, ScalacReport(file, reply)) == (reply.exitCode == 0, reply.output)
  {
  }

  /** The report of a `testCompilation` call whose command ran. */
  function TestCompilationReport(reply: Reply): (report: string)
    ensures IsPrefix("Test compilation succeeded", report) <==> reply.exitCode == 0
    ensures IsSuffix(reply.output, report)
  {
    var ok := "Test compilation succeeded";
    if reply.exitCode == 0 then (if reply.output != [] then ok + "\n\n" + reply.output else ok)
    else
      var failed := "Test compilation failed\n\n";
      var report := failed + reply.output;
      assert report[17] == 'f' && ok[17] == 's';
      report
  }

  /** Reads a `testCompilation` report back (the partner of `TestCompilationReport`). */
  function ParseTestCompilationReport(report: string): (bool, string)
  {
    var ok := "Test compilation succeeded";
    var failed := "Test compilation failed\n\n";
    if report == ok then (true, "")
    else if IsPrefix(ok + "\n\n", report) then (true, report[|ok| + 2..])
    else if IsPrefix(failed, report) then (false, report[|failed|..])
    else (false, report)
  }

  lemma TestCompilationReportRoundTrip(reply: Reply)
    ensures ParseTestCompilationReport(TestCompilationReport(reply)) == (reply.exitCode == 0, reply.output)
  {
  }

  /** A raised `ValueError` or `RuntimeError` becomes `Error: <message>`. */
  function ErrorReport(e: Error): (report: string)
    ensures IsPrefix("Error: ", report) && IsSuffix(e.message, report)
  {
    "Error: " + e.message
  }

  /** The string a `scalac` tool call returns: the error text, or the formatted reply. A caller
      can tell the two apart, and read back the message or the reply. */
  function ScalacToolReport(file: string, r: Result<Reply>): (report: string)
    ensures IsPrefix("Error: ", report) <==> r.Failure?
    ensures r.Failure? ==> report[7..] == r.error.message
    ensures r.Success? ==> ParseScalacReport(file, report) == (r.value.exitCode == 0, r.value.output)
  {
    match r
    case Failure(e) => ErrorReport(e)
    case Success(reply) =>
      ScalacReportRoundTrip(file, reply);
      var report := ScalacReport(file, reply);
      assert report[0] in "SC";
      assert |report| >= 7 ==> report[..7][0] == report[0];
      report
  }

  /** The string a `testCompilation` tool call returns, told apart and read back the same way. */
  function TestCompilationToolReport(r: Result<Reply>): (report: string)
    ensures IsPrefix("Error: ", report) <==> r.Failure?
    ensures r.Failure? ==> report[7..] == r.error.message
    ensures r.Success? ==> ParseTestCompilationReport(report) == (r.value.exitCode == 0, r.value.output)
  {
    match r
    case Failure(e) => ErrorReport(e)
    case Success(reply) =>
      TestCompilationReportRoundTrip(reply);
      var report := TestCompilationReport(reply);
      assert report[0] == 'T';
      assert |report| >= 7 ==> report[..7][0] == report[0];
      report
  }
}
