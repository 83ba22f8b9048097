/**
 * The executor that runs a submission in a local Docker container: it picks an
 * image by language, creates a locked-down container, waits for it to exit,
 * splits its log into standard output and standard error by line prefix, and
 * compares the output.
 *
 * The Docker daemon is a parameter: whether one of its calls throws, the states
 * the wait loop inspects, and the log text. Any exception becomes a
 * `RuntimeError` result worth no points.
 */
module Docker {
  import opened Wrappers
  import opened Text
  import opened Rounding
  import opened Models

  /** Images by lower-case language name. */
  const Images: map<string, string> := map[
    "csharp" := "mcr.microsoft.com/dotnet/sdk:8.0",
    "python" := "python:3.11-slim",
    "java" := "openjdk:17-slim",
    "javascript" := "node:18-slim"]

  /** `GetImageName`: a case-insensitive lookup; other languages throw. */
  function ImageName(language: string): (r: Result<string>)
    ensures r.Success? <==> ToLowerAscii(language) in Images
    ensures r.Success? ==> r.value == Images[ToLowerAscii(language)]
    ensures r.Failure? ==> r.error == "Unsupported language: " + language
  {
    var key := ToLowerAscii(language);
    if key in Images then Success(Images[key]) else Failure("Unsupported language: " + language)
  }

  /** Names that differ only in the case of ASCII letters run in the same image. */
  lemma ImageNameIgnoresCase(a: string, b: string)
    requires ToLowerAscii(a) == ToLowerAscii(b)
    ensures ImageName(a).Success? <==> ImageName(b).Success?
    ensures ImageName(a).Success? ==> ImageName(a).value == ImageName(b).value
  {
  }

  /** `GetExecutionCommand`: a placeholder that ignores both the program and its input. */
  function ExecutionCommand(code: string, input: string): seq<string> {
    ["echo", "Not implemented yet"]
  }

  /** Whatever the submission and the test input, the container runs the same command. */
  lemma CommandIgnoresSubmission(code1: string, input1: string, code2: string, input2: string)
    ensures ExecutionCommand(code1, input1) == ExecutionCommand(code2, input2)
    ensures |ExecutionCommand(code1, input1)| == 2
  {
  }

  datatype HostConfig = HostConfig(memory: int, memorySwap: int, readonlyRootfs: bool, securityOpt: seq<string>)

  datatype ContainerSpec = ContainerSpec(
    name: string,
    image: string,
    cmd: seq<string>,
    workingDir: string,
    hostConfig: HostConfig,
    networkDisabled: bool)

  /** `memoryLimit * 1024 * 1024` evaluated in 32-bit `int` arithmetic. */
  function MemoryBytes(memoryLimit: int): (r: int)
    ensures -0x8000_0000 <= r < 0x8000_0000
    ensures 0 <= memoryLimit <= 2047 ==> r == memoryLimit * 1048576
  {
    WrapInt32(WrapInt32(memoryLimit * 1024) * 1024)
  }

  /** Above the validated range the byte count wraps: 2048 MB becomes the most negative `int`. */
  lemma MemoryBytesWrapsAt2048()
    ensures MemoryBytes(2048) == -0x8000_0000
  {
  }

  /** `CreateContainerAsync` (lines 105-119): the container is created without network, swap or a writable root. */
  function ContainerFor(name: string, image: string, code: string, input: string, timeLimit: int, memoryLimit: int): (r: ContainerSpec)
    ensures r.name == name && r.image == image && r.workingDir == "/workspace"
    ensures r.networkDisabled && r.hostConfig.readonlyRootfs && "no-new-privileges" in r.hostConfig.securityOpt
    ensures r.hostConfig.memorySwap == r.hostConfig.memory
    ensures 1 <= memoryLimit <= 1024 ==> r.hostConfig.memory == memoryLimit * 1048576 > 0
  {
    var bytes := MemoryBytes(memoryLimit);
    ContainerSpec(name, image, ExecutionCommand(code, input), "/workspace",
      HostConfig(bytes, bytes, true, ["no-new-privileges"]), true)
  }

  /** One pass of the wait loop: elapsed milliseconds at the deadline check, then the inspected state and exit code. */
  datatype Inspection = Inspection(elapsedMs: int, state: string, exitCode: int)

  /** The wait deadline: the time limit plus five seconds. */
  function WaitDeadlineMs(timeLimit: int): int {
    (timeLimit + 5) * 1000
  }

  predicate EndsPastWaitDeadline(inspections: seq<Inspection>, timeLimit: int) {
    |inspections| > 0 && inspections[|inspections| - 1].elapsedMs >= WaitDeadlineMs(timeLimit)
  }

  /**
   * `WaitForCompletionAsync`: the exit code (truncated to `int`) of the first
   * inspection before the deadline that finds the container exited, or -1 once the
   * deadline passes (the container is then stopped).
   */
  function WaitForCompletion(inspections: seq<Inspection>, timeLimit: int): (r: int)
    requires EndsPastWaitDeadline(inspections, timeLimit)
    ensures (forall i :: 0 <= i < |inspections| && inspections[i].elapsedMs < WaitDeadlineMs(timeLimit) ==> inspections[i].state != "exited")
      ==> r == -1
    ensures r != -1 ==> exists i :: (0 <= i < |inspections| && inspections[i].elapsedMs < WaitDeadlineMs(timeLimit)
      && inspections[i].state == "exited" && r == WrapInt32(inspections[i].exitCode))
    decreases |inspections|
  {
    var p := inspections[0];
    if p.elapsedMs >= WaitDeadlineMs(timeLimit) then -1
    else if p.state == "exited" then WrapInt32(p.exitCode)
    else WaitForCompletion(inspections[1..], timeLimit)
  }

  const StdoutPrefix := "STDOUT:"
  const StderrPrefix := "STDERR:"

  /** Lines 164-174: lines tagged as standard output or standard error, prefix removed, in order; others dropped. */
  function Demux(lines: seq<string>): (r: (seq<string>, seq<string>))
    ensures |r.0| + |r.1| <= |lines|
  {
    if lines == [] then ([], [])
    else
      var rest := Demux(lines[1..]);
      var l := lines[0];
      if StartsWith(l, StdoutPrefix) then ([l[7..]] + rest.0, rest.1)
      else if StartsWith(l, StderrPrefix) then (rest.0, [l[7..]] + rest.1)
      else rest
  }

  /** `GetContainerLogsAsync`: the tagged lines of each stream joined with LF. */
  function ContainerLogs(log: string): (r: (string, string)) {
    var d := Demux(ReadLines(log));
    (Join("\n", d.0), Join("\n", d.1))
  }

  datatype Stream = Stdout | Stderr

  /** A line as the container writes it to the log. */
  function TagLine(s: Stream, text: string): string {
    (if s == Stdout then StdoutPrefix else StderrPrefix) + text
  }

  function Tagged(entries: seq<(Stream, string)>): (r: seq<string>)
    ensures |r| == |entries|
    ensures forall i :: 0 <= i < |entries| ==> r[i] == TagLine(entries[i].0, entries[i].1)
  {
    if entries == [] then [] else [TagLine(entries[0].0, entries[0].1)] + Tagged(entries[1..])
  }

  /** The texts written to one stream, in order. */
  function TextsOf(entries: seq<(Stream, string)>, s: Stream): seq<string> {
    if entries == [] then []
    else (if entries[0].0 == s then [entries[0].1] else []) + TextsOf(entries[1..], s)
  }

  /** Demultiplexing tagged lines recovers what was written to each stream. */
  lemma {:induction false} DemuxTagged(entries: seq<(Stream, string)>)
    ensures Demux(Tagged(entries)) == (TextsOf(entries, Stdout), TextsOf(entries, Stderr))
  {
    if entries != [] {
      var t := Tagged(entries);
      assert t[1..] == Tagged(entries[1..]);
      DemuxTagged(entries[1..]);
      var (s, text) := entries[0];
      assert t[0] == TagLine(s, text);
      if s == Stdout {
        assert StartsWith(t[0], StdoutPrefix) && t[0][7..] == text;
        assert TextsOf(entries, Stdout) == [text] + TextsOf(entries[1..], Stdout);
        assert TextsOf(entries, Stderr) == TextsOf(entries[1..], Stderr);
      } else {
        assert t[0][..7] == StderrPrefix;
        assert StderrPrefix[4] != StdoutPrefix[4];
        assert !StartsWith(t[0], StdoutPrefix);
        assert StartsWith(t[0], StderrPrefix) && t[0][7..] == text;
        assert TextsOf(entries, Stdout) == TextsOf(entries[1..], Stdout);
        assert TextsOf(entries, Stderr) == [text] + TextsOf(entries[1..], Stderr);
      }
    }
  }

  lemma TagLineKeepsLine(s: Stream, text: string)
    requires '\n' !in text && '\r' !in text
    ensures '\n' !in TagLine(s, text) && '\r' !in TagLine(s, text)
  {
    var p := if s == Stdout then StdoutPrefix else StderrPrefix;
    assert '\n' !in p && '\r' !in p;
    assert TagLine(s, text) == p + text;
  }

  /** A log written one tagged line per LF reads back as the LF-joined texts of each stream. */
  lemma LogsRoundTrip(entries: seq<(Stream, string)>)
    requires forall i :: 0 <= i < |entries| ==> '\n' !in entries[i].1 && '\r' !in entries[i].1
    ensures ContainerLogs(WriteLines(Tagged(entries))) == (Join("\n", TextsOf(entries, Stdout)), Join("\n", TextsOf(entries, Stderr)))
  {
    var t := Tagged(entries);
    forall i | 0 <= i < |t|
      ensures '\n' !in t[i] && '\r' !in t[i]
    {
      TagLineKeepsLine(entries[i].0, entries[i].1);
    }
    ReadWrittenLines(t);
    DemuxTagged(entries);
  }

  /** `DetermineStatus`: a runtime error exactly when the joined error text is non-empty; the limits are never consulted. */
  function DetermineStatus(error: string, timeLimit: int, memoryLimit: int): (r: ExecutionStatus)
    ensures r == ExecutionStatus.RuntimeError || r == Passed
    ensures r == Passed <==> error == []
  {
    if error != [] then ExecutionStatus.RuntimeError else Passed
  }

  /** What the daemon does for one test case: a thrown exception, if any, the inspected states and the log. */
  datatype DockerRun = DockerRun(fault: Option<string>, inspections: seq<Inspection>, log: string)

  function FaultResult(testCase: TestCase, message: string): (r: ExecutionResult)
    ensures r.status == ExecutionStatus.RuntimeError && !r.isCorrect && r.pointsEarned == 0 && r.errorMessage == Some(message)
  {
    ExecutionResult(None, testCase.input, testCase.expectedOutput, None, false, 0,
      None, Some(message), None, None, ExecutionStatus.RuntimeError, None)
  }

  /** `ExecuteCodeAsync`: the stored result for one test case. The wait's exit code is discarded. */
  function ExecuteCode(code: string, language: string, testCase: TestCase, timeLimit: int, memoryLimit: int, run: DockerRun): (r: ExecutionResult)
    requires EndsPastWaitDeadline(run.inspections, timeLimit)
    ensures r.testCase.None? && r.input == testCase.input && r.expectedOutput == testCase.expectedOutput
    ensures r.status == Passed || r.status == ExecutionStatus.RuntimeError
    ensures r.pointsEarned == (if r.isCorrect then testCase.points else 0)
    ensures r.isCorrect <==> r.actualOutput.Some? && Trim(r.actualOutput.value) == Trim(testCase.expectedOutput)
    ensures ToLowerAscii(language) !in Images ==>
      r.status == ExecutionStatus.RuntimeError && r.errorMessage == Some("Unsupported language: " + language)
    ensures run.fault.Some? ==> r.status == ExecutionStatus.RuntimeError && !r.isCorrect
    ensures ToLowerAscii(language) in Images && run.fault.None? ==>
      r.actualOutput == Some(ContainerLogs(run.log).0) && r.errorMessage == Some(ContainerLogs(run.log).1)
  {
    match ImageName(language)
    case Failure(e) => FaultResult(testCase, e)
    case Success(image) =>
      if run.fault.Some? then FaultResult(testCase, run.fault.value)
      else
        var _ := ContainerFor("code_exec", image, code, testCase.input, timeLimit, memoryLimit);
        var _ := WaitForCompletion(run.inspections, timeLimit);
        var (output, error) := ContainerLogs(run.log);
        var correct := Trim(output) == Trim(testCase.expectedOutput);
        ExecutionResult(None, testCase.input, testCase.expectedOutput, Some(output), correct,
          if correct then testCase.points else 0,
          None, Some(error), None, None, DetermineStatus(error, timeLimit, memoryLimit), None)
  }

  /** The exit code plays no part: runs that differ only in the inspected states store the same result. */
  lemma ExitCodeIgnored(code: string, language: string, testCase: TestCase, timeLimit: int, memoryLimit: int, run1: DockerRun, run2: DockerRun)
    requires EndsPastWaitDeadline(run1.inspections, timeLimit) && EndsPastWaitDeadline(run2.inspections, timeLimit)
    requires run1.fault == run2.fault && run1.log == run2.log
    ensures ExecuteCode(code, language, testCase, timeLimit, memoryLimit, run1) == ExecuteCode(code, language, testCase, timeLimit, memoryLimit, run2)
  {
  }

  /** `ExecuteAllTestCasesAsync`: every test case in order, the `i`-th answered by `runs[i]`; nothing stops the loop early. */
  method ExecuteAllTestCases(code: string, language: string, testCases: seq<TestCase>, timeLimit: int, memoryLimit: int, runs: seq<DockerRun>)
    returns (results: seq<ExecutionResult>)
    requires |runs| == |testCases|
    requires forall i :: 0 <= i < |runs| ==> EndsPastWaitDeadline(runs[i].inspections, timeLimit)
    ensures |results| == |testCases|
    ensures forall i :: 0 <= i < |results| ==> results[i] == ExecuteCode(code, language, testCases[i], timeLimit, memoryLimit, runs[i])
    ensures (forall i :: 0 <= i < |testCases| ==> testCases[i].points >= 0) ==>
      0 <= SumPointsEarned(results) <= SumPoints(testCases)
  {
    results := [];
    var i := 0;
    while i < |testCases|
      invariant 0 <= i <= |testCases| && |results| == i
      invariant forall k :: 0 <= k < i ==> results[k] == ExecuteCode(code, language, testCases[k], timeLimit, memoryLimit, runs[k])
    {
      results := results + [ExecuteCode(code, language, testCases[i], timeLimit, memoryLimit, runs[i])];
      i := i + 1;
    }
    if forall k :: 0 <= k < |testCases| ==> testCases[k].points >= 0 {
      EarnedWithinAvailable(results, testCases);
    }
  }
}
