/**
 * The persisted entities the grading pipeline reads and writes, with the
 * database as a set of tables held in insertion order. Timestamps that come
 * from the wall clock (`SubmittedAt`, `GradedAt`, `CalculatedAt`, `StartedAt`,
 * `CompletedAt`) are not part of the model; dates that decide behaviour
 * (`DueDate`, `ExpiresAt`) are integers on one clock.
 */
module Models {
  import opened Wrappers
  import opened Text

  /** Outcome of one run of one test case. */
  datatype ExecutionStatus =
    | Pending
    | Queued
    | Compiling
    | Running
    | Passed
    | Failed
    | PartiallyCorrect
    | TimeLimitExceeded
    | MemoryLimitExceeded
    | RuntimeError
    | CompilationError
    | OutputFormatError
    | SystemError

  /** Life-cycle state of a submission; its constructors share names with `ExecutionStatus`, so uses qualify them. */
  datatype SubmissionStatus =
    | Pending
    | Compiling
    | Running
    | Completed
    | CompilationError
    | RuntimeError
    | TimeLimitExceeded
    | MemoryLimitExceeded

  /** An instructor-defined (input, expected output, points) triple. `points` is validated into 0..100. */
  datatype TestCase = TestCase(
    id: int,
    assignmentId: int,
    input: string,
    expectedOutput: string,
    points: int,
    isHidden: bool,
    description: Option<string>)

  /**
   * One run of one test case. `testCase` is the navigation to the test case the
   * row belongs to; the executors never set it, the caller that stores the row does.
   */
  datatype ExecutionResult = ExecutionResult(
    testCase: Option<TestCase>,
    input: string,
    expectedOutput: string,
    actualOutput: Option<string>,
    isCorrect: bool,
    pointsEarned: int,
    memoryUsed: Option<int>,
    errorMessage: Option<string>,
    compilerOutput: Option<string>,
    runtimeOutput: Option<string>,
    status: ExecutionStatus,
    detailedErrorType: Option<string>)

  /** A student's submitted program together with its stored execution results. */
  datatype Submission = Submission(
    id: int,
    studentId: int,
    assignmentId: int,
    code: string,
    language: string,
    submittedAt: int,
    status: SubmissionStatus,
    score: int,
    executionResults: seq<ExecutionResult>)

  /**
   * An assignment. Validation keeps `maxPoints` in 1..100, `timeLimit` (seconds)
   * in 1..300 and `memoryLimit` (MB) in 1..1024.
   */
  datatype Assignment = Assignment(
    id: int,
    title: string,
    description: Option<string>,
    problemStatement: string,
    subjectModuleId: int,
    teacherId: int,
    dueDate: int,
    maxPoints: int,
    timeLimit: int,
    memoryLimit: int,
    isActive: bool,
    createdAt: int,
    criteriaId: Option<int>)

  datatype DifficultyLevel = Beginner | Intermediate | Advanced

  /** Weights of the four grading dimensions (each validated into 0..100, their sum is not checked) and thresholds. */
  datatype AssessmentCriteria = AssessmentCriteria(
    id: int,
    name: string,
    description: Option<string>,
    level: DifficultyLevel,
    correctnessWeight: int,
    qualityWeight: int,
    testingWeight: int,
    approachWeight: int,
    minReadabilityScore: int,
    minMaintainabilityScore: int,
    minDocumentationScore: int,
    passThreshold: int,
    excellenceThreshold: int,
    allowUnlimitedResubmissions: bool,
    trackImprovement: bool,
    createdBy: Option<string>,
    isActive: bool)

  /** The single simple-mode grade of a student for an assignment (unique per pair). */
  datatype Grade = Grade(
    id: int,
    studentId: int,
    assignmentId: int,
    points: int,
    gradeValue: Option<int>,
    comments: Option<string>,
    gradedBy: Option<string>)

  /** One multi-dimensional grading pass over a submission; rows are only ever appended. */
  datatype GradeResult = GradeResult(
    id: int,
    submissionId: int,
    correctnessScore: int,
    qualityScore: int,
    testingScore: int,
    approachScore: int,
    finalScore: int,
    gradeValue: Option<int>,
    attemptNumber: int,
    previousScore: Option<int>,
    isImprovement: bool,
    assessmentCriteriaId: int,
    calculatedBy: string)

  /** The static quality analysis of a submission's source. */
  datatype QualityMetrics = QualityMetrics(
    submissionId: int,
    cyclomaticComplexity: int,
    linesOfCode: int,
    methodCount: int,
    classCount: int,
    readabilityScore: int,
    namingScore: int,
    structureScore: int,
    documentationCoverage: int,
    styleScore: int,
    styleViolations: int,
    maintainabilityIndex: int,
    qualityFeedback: string,
    improvementSuggestions: string,
    analysisVersion: string,
    toolsUsed: string)

  /** The tables the core reads and writes, each in insertion order. */
  datatype Db = Db(
    assignments: seq<Assignment>,
    testCases: seq<TestCase>,
    submissions: seq<Submission>,
    grades: seq<Grade>,
    gradeResults: seq<GradeResult>,
    criteria: seq<AssessmentCriteria>,
    qualityMetrics: seq<QualityMetrics>)

  /** Index of the first submission with the given id (`FirstOrDefaultAsync(s => s.Id == id)`). */
  function FindSubmission(subs: seq<Submission>, id: int): (r: Option<nat>)
    ensures r.Some? ==> r.value < |subs| && subs[r.value].id == id
    ensures r.Some? ==> forall k :: 0 <= k < r.value ==> subs[k].id != id
    ensures r.None? ==> forall k :: 0 <= k < |subs| ==> subs[k].id != id
  {
    FindFirst(subs, (s: Submission) => s.id == id)
  }

  /** Index of the first row satisfying `p` (`FirstOrDefault(p)` on a table). */
  function FindFirst<T>(xs: seq<T>, p: T -> bool): (r: Option<nat>)
    ensures r.Some? ==> r.value < |xs| && p(xs[r.value])
    ensures r.Some? ==> forall k :: 0 <= k < r.value ==> !p(xs[k])
    ensures r.None? ==> forall k :: 0 <= k < |xs| ==> !p(xs[k])
  {
    if xs == [] then None
    else if p(xs[0]) then Some(0)
    else match FindFirst(xs[1..], p)
      case None => None
      case Some(k) => Some(k + 1)
  }

  /** Index of the first assignment with the given id. */
  function FindAssignment(xs: seq<Assignment>, id: int): Option<nat> {
    FindFirst(xs, (a: Assignment) => a.id == id)
  }

  /** The test cases of one assignment (`assignment.TestCases`), in table order. */
  function TestCasesOf(tcs: seq<TestCase>, assignmentId: int): (r: seq<TestCase>)
    ensures |r| <= |tcs|
    ensures forall i :: 0 <= i < |r| ==> r[i].assignmentId == assignmentId && r[i] in tcs
    ensures forall t :: t in tcs && t.assignmentId == assignmentId ==> t in r
  {
    if tcs == [] then []
    else if tcs[0].assignmentId == assignmentId then [tcs[0]] + TestCasesOf(tcs[1..], assignmentId)
    else TestCasesOf(tcs[1..], assignmentId)
  }

  /** Sum of `PointsEarned` over execution results. */
  function SumPointsEarned(rs: seq<ExecutionResult>): int {
    if rs == [] then 0 else rs[0].pointsEarned + SumPointsEarned(rs[1..])
  }

  /** Sum of `Points` over test cases. */
  function SumPoints(tcs: seq<TestCase>): int {
    if tcs == [] then 0 else tcs[0].points + SumPoints(tcs[1..])
  }

  /** A sum of non-negative points is non-negative and zero only when every entry is zero. */
  lemma {:induction false} SumPointsNonNegative(tcs: seq<TestCase>)
    requires forall i :: 0 <= i < |tcs| ==> tcs[i].points >= 0
    ensures SumPoints(tcs) >= 0
    ensures SumPoints(tcs) == 0 <==> forall i :: 0 <= i < |tcs| ==> tcs[i].points == 0
  {
    if tcs != [] {
      SumPointsNonNegative(tcs[1..]);
      assert forall i :: 1 <= i < |tcs| ==> tcs[i] == tcs[1..][i - 1];
    }
  }

  /** Results that each earn nothing or their test case's full points earn at most the points on offer. */
  lemma {:induction false} EarnedWithinAvailable(rs: seq<ExecutionResult>, tcs: seq<TestCase>)
    requires |rs| == |tcs|
    requires forall i :: 0 <= i < |tcs| ==> tcs[i].points >= 0
    requires forall i :: 0 <= i < |rs| ==> rs[i].pointsEarned == 0 || rs[i].pointsEarned == tcs[i].points
    ensures 0 <= SumPointsEarned(rs) <= SumPoints(tcs)
  {
    if rs != [] {
      assert forall i :: 1 <= i < |rs| ==> rs[i] == rs[1..][i - 1] && tcs[i] == tcs[1..][i - 1];
      EarnedWithinAvailable(rs[1..], tcs[1..]);
    }
  }

  /** The identity keys of a table, in table order. */
  function Ids<T>(xs: seq<T>, id: T -> int): (r: seq<int>)
    ensures |r| == |xs| && forall i :: 0 <= i < |xs| ==> r[i] == id(xs[i])
  {
    if xs == [] then [] else [id(xs[0])] + Ids(xs[1..], id)
  }

  /** One past the largest id in a list of ids (identity columns hand out fresh keys). */
  function NextId(ids: seq<int>): (r: int)
    ensures r >= 1
    ensures forall i :: 0 <= i < |ids| ==> ids[i] < r
  {
    if ids == [] then 1
    else
      var rest := NextId(ids[1..]);
      if ids[0] + 1 > rest then ids[0] + 1 else rest
  }

  /** The message of the exception raised when a missing navigation is dereferenced. */
  const NullReference: string := "Object reference not set to an instance of an object."

  /** The store after an operation, together with what the operation returned or the error it raised. */
  datatype Outcome<T> = Outcome(db: Db, result: Result<T>)

  /** The message of the exception raised for an unknown submission id. */
  function SubmissionNotFound(submissionId: int): string {
    "Submission with ID " + IntToString(submissionId) + " not found"
  }
}
