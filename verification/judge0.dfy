/**
 * The executor that runs a submission against the hosted Judge0 CE service: it
 * creates a submission over HTTP, polls for the verdict until a deadline, maps
 * Judge0's status ids onto `ExecutionStatus` and compares the output.
 *
 * The service is a parameter: the reply to the create request and the trace of
 * poll replies, each stamped with the elapsed time at which the polling loop
 * checked its deadline. Any exception inside the try block becomes a
 * `SystemError` result worth no points.
 */
module Judge0 {
  import opened Wrappers
  import opened Text
  import opened Rounding
  import opened Models

  /** Judge0 CE language ids, keyed by lower-case language name. */
  const LanguageIds: map<string, int> := map[
    "csharp" := 51, "python" := 71, "java" := 62, "javascript" := 63, "cpp" := 54,
    "c" := 50, "php" := 68, "ruby" := 72, "go" := 60, "rust" := 73, "swift" := 83,
    "kotlin" := 78, "scala" := 81, "r" := 80, "dart" := 87]

  /** An exception: the name of its type and its message. */
  datatype Fault = Fault(typeName: string, message: string)

  /** A step that either produces a value or throws. */
  datatype Attempt<+T> = Done(value: T) | Thrown(fault: Fault)

  function UnsupportedLanguage(language: string): Fault {
    Fault("ArgumentException", "Unsupported language: " + language)
  }

  const TimedOut := Fault("TimeoutException", "Code execution timed out")
  const NoToken := Fault("Exception", "Failed to get submission token")

  /** `GetLanguageId`: a case-insensitive lookup in the language table. */
  function LanguageId(language: string): (r: Attempt<int>)
    ensures r.Done? <==> ToLowerAscii(language) in LanguageIds
    ensures r.Done? ==> r.value == LanguageIds[ToLowerAscii(language)] && 50 <= r.value <= 87
    ensures r.Thrown? ==> r.fault == UnsupportedLanguage(language)
  {
    var key := ToLowerAscii(language);
    if key in LanguageIds then Done(LanguageIds[key]) else Thrown(UnsupportedLanguage(language))
  }

  /** Names that differ only in the case of ASCII letters select the same compiler. */
  lemma LanguageIdIgnoresCase(a: string, b: string)
    requires ToLowerAscii(a) == ToLowerAscii(b)
    ensures LanguageId(a).Done? <==> LanguageId(b).Done?
    ensures LanguageId(a).Done? ==> LanguageId(a).value == LanguageId(b).value
  {
  }

  /** Distinct table entries name distinct Judge0 compilers. */
  lemma LanguageIdsDistinct(a: string, b: string)
    requires a in LanguageIds && b in LanguageIds && a != b
    ensures LanguageIds[a] != LanguageIds[b]
  {
  }

  /** The submission body sent to Judge0. `memoryLimit` is in kilobytes. */
  datatype Judge0Submission = Judge0Submission(
    sourceCode: string,
    languageId: int,
    stdin: string,
    cpuTimeLimit: int,
    memoryLimit: int)

  /** `IsNullOrWhiteSpace(s) ? "" : s.Trim()`: the guard is redundant, the result is the trimmed text. */
  function Clean(s: string): (r: string)
    ensures r == Trim(s)
    ensures Trim(r) == r
  {
    BlankIffTrimEmpty(s);
    TrimIdempotent(s);
    if AllWhiteSpace(s) then "" else Trim(s)
  }

  /** Lines 49-61: the request built from the test case, or the language lookup's exception. */
  function BuildSubmission(code: string, language: string, testCase: TestCase, timeLimit: int, memoryLimit: int): (r: Attempt<Judge0Submission>)
    ensures r.Thrown? <==> ToLowerAscii(language) !in LanguageIds
    ensures r.Thrown? ==> r.fault == UnsupportedLanguage(language)
    ensures r.Done? ==> (r.value.sourceCode == code && r.value.stdin == Trim(testCase.input)
      && r.value.languageId == LanguageIds[ToLowerAscii(language)] && r.value.cpuTimeLimit == timeLimit)
    ensures r.Done? && 1 <= memoryLimit <= 1024 ==> r.value.memoryLimit == 1024 * memoryLimit
  {
    match LanguageId(language)
    case Thrown(f) => Thrown(f)
    case Done(id) => Done(Judge0Submission(code, id, Clean(testCase.input), timeLimit, WrapInt32(memoryLimit * 1024)))
  }

  /**
   * The reply to the create request: its HTTP outcome, its body text, and what reading
   * the body as JSON gives: the token (null when absent) or the exception of a body
   * that does not parse.
   */
  datatype CreateReply = CreateReply(success: bool, statusName: string, body: string, parsed: Attempt<Option<string>>)

  /** Lines 87-102: the token of the created submission, or the exception the reply provokes. */
  function SubmissionToken(reply: CreateReply): (r: Attempt<string>)
    ensures r.Done? <==> reply.success && reply.parsed.Done? && reply.parsed.value.Some?
    ensures r.Done? ==> r.value == reply.parsed.value.value
    ensures reply.success && reply.parsed.Thrown? ==> r == Thrown(reply.parsed.fault)
    ensures reply.success && reply.parsed == Done(None) ==> r == Thrown(NoToken)
    ensures !reply.success ==> r.fault.message == "Failed to create submission: " + reply.statusName + " - " + reply.body
  {
    if !reply.success then Thrown(Fault("Exception", "Failed to create submission: " + reply.statusName + " - " + reply.body))
    else match reply.parsed
      case Thrown(f) => Thrown(f)
      case Done(token) => if token.None? then Thrown(NoToken) else Done(token.value)
  }

  datatype Judge0Status = Judge0Status(id: int, description: string)

  /** A submission as Judge0 reports it; every field may be absent. */
  datatype Judge0Result = Judge0Result(
    status: Option<Judge0Status>,
    stdout: Option<string>,
    stderr: Option<string>,
    compileOutput: Option<string>,
    memory: Option<int>)

  /**
   * The reply to one status request: an HTTP failure, a body whose JSON reading throws,
   * or a body that parses (possibly to null).
   */
  datatype PollReply = HttpError(statusName: string) | Unreadable(error: Fault) | Body(result: Option<Judge0Result>)

  /** One pass of the polling loop: the elapsed milliseconds when the deadline is checked, and the reply that follows. */
  datatype Poll = Poll(elapsedMs: int, reply: PollReply)

  /** `result?.Status?.Id > 2`: queued (1) and processing (2) are not final, and a missing status is not either. */
  predicate IsFinal(b: Option<Judge0Result>) {
    b.Some? && b.value.status.Some? && b.value.status.value.id > 2
  }

  /** The polling deadline: the time limit plus ten seconds. */
  function DeadlineMs(timeLimit: int): int {
    (timeLimit + 10) * 1000
  }

  /** The clock passes the deadline by the end of the trace. */
  predicate EndsPastDeadline(polls: seq<Poll>, timeLimit: int) {
    |polls| > 0 && polls[|polls| - 1].elapsedMs >= DeadlineMs(timeLimit)
  }

  /** A pass that neither ends the loop nor throws: before the deadline, a readable reply, a verdict not yet final. */
  predicate KeepsPolling(p: Poll, timeLimit: int) {
    p.elapsedMs < DeadlineMs(timeLimit) && p.reply.Body? && !IsFinal(p.reply.result)
  }

  /** What a pass that ends the loop yields. */
  function LoopExit(p: Poll, timeLimit: int): Attempt<Judge0Result> {
    if p.elapsedMs >= DeadlineMs(timeLimit) then Thrown(TimedOut)
    else match p.reply
      case HttpError(name) => Thrown(Fault("Exception", "Failed to get submission result: " + name))
      case Unreadable(f) => Thrown(f)
      case Body(b) => if IsFinal(b) then Done(b.value) else Thrown(TimedOut)
  }

  /** Pass `i` ends the loop with outcome `r`: every earlier pass kept polling. */
  predicate DecidedAt(polls: seq<Poll>, timeLimit: int, i: int, r: Attempt<Judge0Result>) {
    0 <= i < |polls| && !KeepsPolling(polls[i], timeLimit) && r == LoopExit(polls[i], timeLimit)
    && forall j :: 0 <= j < i ==> KeepsPolling(polls[j], timeLimit)
  }

  /**
   * `WaitForResultAsync`: the loop ends at the first pass that is past the deadline,
   * gets an HTTP failure or reads a final verdict, and that pass decides the outcome.
   */
  function WaitForResult(polls: seq<Poll>, timeLimit: int): (r: Attempt<Judge0Result>)
    requires EndsPastDeadline(polls, timeLimit)
    ensures exists i :: DecidedAt(polls, timeLimit, i, r)
    ensures r.Done? ==> IsFinal(Some(r.value))
    ensures r.Thrown? ==>
      || r.fault == TimedOut
      || r.fault.typeName == "Exception"
      || exists i :: 0 <= i < |polls| && polls[i].reply == Unreadable(r.fault)
    decreases |polls|
  {
    var p := polls[0];
    if KeepsPolling(p, timeLimit) then
      var r := WaitForResult(polls[1..], timeLimit);
      ShiftPolls(polls, timeLimit, r);
      r
    else
      assert DecidedAt(polls, timeLimit, 0, LoopExit(p, timeLimit));
      LoopExit(p, timeLimit)
  }

  lemma ShiftPolls(polls: seq<Poll>, timeLimit: int, r: Attempt<Judge0Result>)
    requires |polls| > 0 && KeepsPolling(polls[0], timeLimit)
    requires exists i :: DecidedAt(polls[1..], timeLimit, i, r)
    ensures exists i :: DecidedAt(polls, timeLimit, i, r)
  {
    var i :| DecidedAt(polls[1..], timeLimit, i, r);
    assert polls[i + 1] == polls[1..][i];
    assert forall j :: 1 <= j < i + 1 ==> polls[j] == polls[1..][j - 1];
    assert DecidedAt(polls, timeLimit, i + 1, r);
  }

  /** A final verdict read on the first pass, before the deadline, is returned at once. */
  lemma FirstFinalVerdictReturned(polls: seq<Poll>, timeLimit: int)
    requires EndsPastDeadline(polls, timeLimit)
    requires polls[0].elapsedMs < DeadlineMs(timeLimit) && polls[0].reply.Body? && IsFinal(polls[0].reply.result)
    ensures WaitForResult(polls, timeLimit) == Done(polls[0].reply.result.value)
  {
  }

  /** A status reply that does not parse ends the loop at once with the parser's exception; it is not polled again. */
  lemma UnreadablePollThrows(polls: seq<Poll>, timeLimit: int, f: Fault)
    requires EndsPastDeadline(polls, timeLimit)
    requires polls[0].elapsedMs < DeadlineMs(timeLimit) && polls[0].reply == Unreadable(f)
    ensures WaitForResult(polls, timeLimit) == Thrown(f)
  {
  }

  /** `DetermineStatus`: Judge0 ids 3..8 mapped onto execution statuses; everything else is a runtime error. */
  function DetermineStatus(status: Option<Judge0Status>): (r: ExecutionStatus)
    ensures r in {Passed, PartiallyCorrect, ExecutionStatus.TimeLimitExceeded, ExecutionStatus.CompilationError, ExecutionStatus.RuntimeError, ExecutionStatus.MemoryLimitExceeded}
    ensures r == Passed <==> status.Some? && status.value.id == 3
    ensures r == PartiallyCorrect <==> status.Some? && status.value.id == 4
    ensures r == ExecutionStatus.TimeLimitExceeded <==> status.Some? && status.value.id == 5
    ensures r == ExecutionStatus.CompilationError <==> status.Some? && status.value.id == 6
    ensures r == ExecutionStatus.MemoryLimitExceeded <==> status.Some? && status.value.id == 8
  {
    if status.None? then ExecutionStatus.RuntimeError
    else match status.value.id
      case 3 => Passed
      case 4 => PartiallyCorrect
      case 5 => ExecutionStatus.TimeLimitExceeded
      case 6 => ExecutionStatus.CompilationError
      case 7 => ExecutionStatus.RuntimeError
      case 8 => ExecutionStatus.MemoryLimitExceeded
      case _ => ExecutionStatus.RuntimeError
  }

  /** Lines 116-123: both texts present, trimmed and newline-normalised, then compared ordinally. */
  predicate OutputMatches(stdout: Option<string>, cleanExpected: string) {
    stdout.Some? && stdout.value != [] && cleanExpected != []
    && NormalizeNewlines(Trim(stdout.value)) == NormalizeNewlines(Trim(cleanExpected))
  }

  /** What the service answers for one test case. */
  datatype Judge0Run = Judge0Run(create: CreateReply, polls: seq<Poll>)

  /** The try block of `ExecuteCodeAsync` up to the verdict: build, create, poll. */
  function Verdict(code: string, language: string, testCase: TestCase, timeLimit: int, memoryLimit: int, run: Judge0Run): (r: Attempt<Judge0Result>)
    requires EndsPastDeadline(run.polls, timeLimit)
    ensures ToLowerAscii(language) !in LanguageIds ==> r == Thrown(UnsupportedLanguage(language))
    ensures r.Done? ==> run.create.success && run.create.parsed.Done? && run.create.parsed.value.Some? && IsFinal(Some(r.value))
  {
    match BuildSubmission(code, language, testCase, timeLimit, memoryLimit)
    case Thrown(f) => Thrown(f)
    case Done(_) =>
      match SubmissionToken(run.create)
      case Thrown(f) => Thrown(f)
      case Done(_) => WaitForResult(run.polls, timeLimit)
  }

  /** The result stored when the try block throws: a system error worth nothing, carrying the exception. */
  function FaultResult(testCase: TestCase, f: Fault): (r: ExecutionResult)
    ensures r.status == ExecutionStatus.SystemError && !r.isCorrect && r.pointsEarned == 0
    ensures r.errorMessage == Some(f.message) && r.detailedErrorType == Some(f.typeName)
  {
    ExecutionResult(None, testCase.input, testCase.expectedOutput, None, false, 0,
      None, Some(f.message), None, None, ExecutionStatus.SystemError, Some(f.typeName))
  }

  /** Lines 115-140: the result stored for a final verdict. */
  function VerdictResult(testCase: TestCase, v: Judge0Result): (r: ExecutionResult)
    ensures r.status != ExecutionStatus.SystemError && r.actualOutput == v.stdout && r.errorMessage == v.stderr
    ensures r.isCorrect <==> (v.stdout.Some? && v.stdout.value != [] && Trim(testCase.expectedOutput) != []
      && NormalizeNewlines(Trim(v.stdout.value)) == NormalizeNewlines(Trim(testCase.expectedOutput)))
    ensures r.pointsEarned == (if r.isCorrect then testCase.points else 0)
  {
    var expected := Clean(testCase.expectedOutput);
    TrimIdempotent(testCase.expectedOutput);
    var correct := OutputMatches(v.stdout, expected);
    ExecutionResult(None, testCase.input, testCase.expectedOutput, v.stdout, correct,
      if correct then testCase.points else 0,
      v.memory, v.stderr, v.compileOutput, v.stdout, DetermineStatus(v.status), None)
  }

  /** `ExecuteCodeAsync`: the stored result for one test case. The executor never attaches the test case itself. */
  function ExecuteCode(code: string, language: string, testCase: TestCase, timeLimit: int, memoryLimit: int, run: Judge0Run): (r: ExecutionResult)
    requires EndsPastDeadline(run.polls, timeLimit)
    ensures r.testCase.None? && r.input == testCase.input && r.expectedOutput == testCase.expectedOutput
    ensures r.pointsEarned == (if r.isCorrect then testCase.points else 0)
    ensures r.status == ExecutionStatus.SystemError <==> Verdict(code, language, testCase, timeLimit, memoryLimit, run).Thrown?
    ensures r.status == ExecutionStatus.SystemError ==> !r.isCorrect && r.detailedErrorType.Some? && r.errorMessage.Some?
    ensures r.isCorrect <==> (r.status != ExecutionStatus.SystemError && r.actualOutput.Some? && r.actualOutput.value != []
      && Trim(testCase.expectedOutput) != []
      && NormalizeNewlines(Trim(r.actualOutput.value)) == NormalizeNewlines(Trim(testCase.expectedOutput)))
  {
    match Verdict(code, language, testCase, timeLimit, memoryLimit, run)
    case Thrown(f) => FaultResult(testCase, f)
    case Done(v) => VerdictResult(testCase, v)
  }

  /** A language missing from the table is a system error carrying the lookup's message, whatever the service would answer. */
  lemma UnsupportedLanguageIsSystemError(code: string, language: string, testCase: TestCase, timeLimit: int, memoryLimit: int, run: Judge0Run)
    requires EndsPastDeadline(run.polls, timeLimit)
    requires ToLowerAscii(language) !in LanguageIds
    ensures var r := ExecuteCode(code, language, testCase, timeLimit, memoryLimit, run);
      r.status == ExecutionStatus.SystemError && r.pointsEarned == 0
      && r.errorMessage == Some("Unsupported language: " + language) && r.detailedErrorType == Some("ArgumentException")
  {
  }

  /** The service answers every run with a trace whose clock passes the deadline. */
  predicate WellFormedRuns(runs: seq<Judge0Run>, timeLimit: int) {
    forall i :: 0 <= i < |runs| ==> EndsPastDeadline(runs[i].polls, timeLimit)
  }

  /** Only the last of the results may be a compilation error, and the run stops short of `n` only after one. */
  predicate StopsAtCompilationError(results: seq<ExecutionResult>, n: nat) {
    (forall i :: 0 <= i < |results| - 1 ==> results[i].status != ExecutionStatus.CompilationError)
    && (|results| < n ==> |results| > 0 && results[|results| - 1].status == ExecutionStatus.CompilationError)
  }

  /**
   * The loop of `ExecuteAllTestCasesAsync` (lines 171-186) over the runner of one
   * test case: `run(0)`, `run(1)`, ... up to `n` results, stopping right after the
   * first compilation error.
   */
  method RunUntilCompilationError(n: nat, run: nat -> ExecutionResult) returns (results: seq<ExecutionResult>)
    ensures |results| <= n
    ensures forall i :: 0 <= i < |results| ==> results[i] == run(i)
    ensures StopsAtCompilationError(results, n)
  {
    results := [];
    var i := 0;
    while i < n
      invariant 0 <= i <= n && |results| == i
      invariant forall k :: 0 <= k < i ==> results[k] == run(k)
      invariant forall k :: 0 <= k < i ==> results[k].status != ExecutionStatus.CompilationError
    {
      var result := run(i);
      results := results + [result];
      if result.status == ExecutionStatus.CompilationError {
        break;
      }
      i := i + 1;
    }
  }

  /**
   * `ExecuteAllTestCasesAsync`: every test case in order, the `i`-th answered by
   * `runs[i]`, until the first compilation error.
   */
  method ExecuteAllTestCases(code: string, language: string, testCases: seq<TestCase>, timeLimit: int, memoryLimit: int, runs: seq<Judge0Run>)
    returns (results: seq<ExecutionResult>)
    requires |runs| == |testCases| && WellFormedRuns(runs, timeLimit)
    ensures |results| <= |testCases|
    ensures forall i :: 0 <= i < |results| ==> results[i] == ExecuteCode(code, language, testCases[i], timeLimit, memoryLimit, runs[i])
    ensures StopsAtCompilationError(results, |testCases|)
    ensures (forall i :: 0 <= i < |testCases| ==> testCases[i].points >= 0) ==>
      0 <= SumPointsEarned(results) <= SumPoints(testCases[..|results|])
  {
    var run := (k: nat) =>
      if k < |testCases| && EndsPastDeadline(runs[k].polls, timeLimit)
      then ExecuteCode(code, language, testCases[k], timeLimit, memoryLimit, runs[k])
      else FaultResult(TestCase(0, 0, "", "", 0, false, None), TimedOut);
    results := RunUntilCompilationError(|testCases|, run);
    if forall i :: 0 <= i < |testCases| ==> testCases[i].points >= 0 {
      EarnedWithinAvailable(results, testCases[..|results|]);
    }
  }
}
