/**
 * Simple percentage grading: the points a submission earned, as a percentage of
 * the assignment's maximum, mapped onto the 2..6 scale and kept in the single
 * `Grade` row of each (student, assignment) pair; the submission's score; and the
 * per-student statistics.
 */
module GradeCalculation {
  import opened Wrappers
  import opened Models
  import opened Rounding
  import ModernGrading

  /** The percentage of the maximum that was earned, 0 when the maximum is not positive. */
  function Percentage(earned: int, maxPoints: int): (r: real)
    ensures maxPoints <= 0 ==> r == 0.0
    ensures maxPoints > 0 ==> r * maxPoints as real == earned as real * 100.0
  {
    if maxPoints > 0 then earned as real / maxPoints as real * 100.0 else 0.0
  }

  /** Earning nothing is 0%, earning the maximum is 100%, and more points never give a lower percentage. */
  lemma PercentageMonotone(e1: int, e2: int, maxPoints: int)
    requires e1 <= e2
    ensures Percentage(e1, maxPoints) <= Percentage(e2, maxPoints)
    ensures maxPoints > 0 ==> Percentage(0, maxPoints) == 0.0 && Percentage(maxPoints, maxPoints) == 100.0
  {
    if maxPoints > 0 {
      var m := maxPoints as real;
      assert e1 as real / m <= e2 as real / m;
      SelfRatio(m);
    }
  }

  /** `CalculateGradeValue`: the 2..6 step function with thresholds 90, 80, 70 and 60. */
  function GradeValue(percentage: real): (r: int)
    ensures 2 <= r <= 6
    ensures r == 6 <==> percentage >= 90.0
    ensures r == 5 <==> 80.0 <= percentage < 90.0
    ensures r == 4 <==> 70.0 <= percentage < 80.0
    ensures r == 3 <==> 60.0 <= percentage < 70.0
    ensures r == 2 <==> percentage < 60.0
  {
    if percentage >= 90.0 then 6
    else if percentage >= 80.0 then 5
    else if percentage >= 70.0 then 4
    else if percentage >= 60.0 then 3
    else 2
  }

  /** On whole percentages the simple grade scale is the multi-dimensional one. */
  lemma GradeScalesAgree(score: int)
    ensures GradeValue(score as real) == ModernGrading.TraditionalGrade(score)
  {
  }

  /** A higher percentage never gives a lower grade. */
  lemma GradeValueMonotone(p: real, q: real)
    requires p <= q
    ensures GradeValue(p) <= GradeValue(q)
  {
  }

  // ---------------------------------------------------------------------------
  // The Grade table
  // ---------------------------------------------------------------------------

  predicate ForPair(g: Grade, studentId: int, assignmentId: int) {
    g.studentId == studentId && g.assignmentId == assignmentId
  }

  /** The unique index on (StudentId, AssignmentId): no two rows share a pair. */
  predicate UniquePairs(gs: seq<Grade>) {
    forall i, j :: 0 <= i < j < |gs| ==>
      !(gs[i].studentId == gs[j].studentId && gs[i].assignmentId == gs[j].assignmentId)
  }

  /** Index of the first grade of the pair. */
  function FindGrade(gs: seq<Grade>, studentId: int, assignmentId: int): (r: Option<nat>)
    ensures r.Some? ==> r.value < |gs| && ForPair(gs[r.value], studentId, assignmentId)
    ensures r.Some? ==> forall k :: 0 <= k < r.value ==> !ForPair(gs[k], studentId, assignmentId)
    ensures r.None? ==> forall k :: 0 <= k < |gs| ==> !ForPair(gs[k], studentId, assignmentId)
  {
    FindFirst(gs, (g: Grade) => ForPair(g, studentId, assignmentId))
  }

  function GradeIds(gs: seq<Grade>): seq<int> {
    Ids(gs, (g: Grade) => g.id)
  }

  /**
   * The create-or-update step: the pair's existing row gets the new points and grade
   * value in place, otherwise a new row is appended with a fresh id.
   */
  function UpsertGrade(gs: seq<Grade>, studentId: int, assignmentId: int, points: int, gradeValue: int): (r: (seq<Grade>, Grade))
    ensures ForPair(r.1, studentId, assignmentId) && r.1.points == points && r.1.gradeValue == Some(gradeValue)
    ensures FindGrade(gs, studentId, assignmentId).Some? ==>
      var k := FindGrade(gs, studentId, assignmentId).value;
      r.0 == gs[k := r.1] && r.1 == gs[k].(points := points, gradeValue := Some(gradeValue))
    ensures FindGrade(gs, studentId, assignmentId).None? ==>
      r.0 == gs + [r.1] && r.1.comments.None? && r.1.gradedBy.None?
      && forall k :: 0 <= k < |gs| ==> gs[k].id != r.1.id
  {
    match FindGrade(gs, studentId, assignmentId)
    case Some(k) =>
      var g := gs[k].(points := points, gradeValue := Some(gradeValue));
      (gs[k := g], g)
    case None =>
      var g := Grade(NextId(GradeIds(gs)), studentId, assignmentId, points, Some(gradeValue), None, None);
      (gs + [g], g)
  }

  /**
   * Under the unique index the upsert leaves exactly one row for the pair (the
   * returned one), keeps the index, and changes no row of another pair.
   */
  lemma UpsertKeepsOneRowPerPair(gs: seq<Grade>, studentId: int, assignmentId: int, points: int, gradeValue: int)
    requires UniquePairs(gs)
    ensures
      var (gs2, g) := UpsertGrade(gs, studentId, assignmentId, points, gradeValue);
      && UniquePairs(gs2)
      && (exists k :: 0 <= k < |gs2| && gs2[k] == g)
      && (forall k :: 0 <= k < |gs2| && ForPair(gs2[k], studentId, assignmentId) ==> gs2[k] == g)
      && (forall k :: 0 <= k < |gs| && !ForPair(gs[k], studentId, assignmentId) ==> k < |gs2| && gs2[k] == gs[k])
  {
    var (gs2, g) := UpsertGrade(gs, studentId, assignmentId, points, gradeValue);
    match FindGrade(gs, studentId, assignmentId)
    case Some(k) =>
      assert gs2[k] == g;
    case None =>
      assert gs2[|gs|] == g;
  }

  /** Upserting the same values twice leaves the table as the first upsert did. */
  lemma UpsertIdempotent(gs: seq<Grade>, studentId: int, assignmentId: int, points: int, gradeValue: int)
    ensures
      var (gs1, g1) := UpsertGrade(gs, studentId, assignmentId, points, gradeValue);
      UpsertGrade(gs1, studentId, assignmentId, points, gradeValue) == (gs1, g1)
  {
    var (gs1, g1) := UpsertGrade(gs, studentId, assignmentId, points, gradeValue);
    match FindGrade(gs, studentId, assignmentId)
    case Some(k) =>
      FindGradeAfterUpdate(gs, studentId, assignmentId, k, g1);
      assert gs1[k] == g1;
      assert g1.(points := points, gradeValue := Some(gradeValue)) == g1;
      assert gs1[k := g1] == gs1;
    case None =>
      FindGradeAfterAppend(gs, studentId, assignmentId, g1);
      assert gs1[|gs|] == g1;
      assert g1.(points := points, gradeValue := Some(gradeValue)) == g1;
      assert gs1[|gs| := g1] == gs1;
  }

  lemma FindGradeAfterUpdate(gs: seq<Grade>, studentId: int, assignmentId: int, k: nat, g: Grade)
    requires FindGrade(gs, studentId, assignmentId) == Some(k) && ForPair(g, studentId, assignmentId)
    ensures FindGrade(gs[k := g], studentId, assignmentId) == Some(k)
  {
    var gs2 := gs[k := g];
    assert gs2[k] == g;
    assert forall j :: 0 <= j < k ==> gs2[j] == gs[j];
  }

  lemma {:induction false} FindGradeAfterAppend(gs: seq<Grade>, studentId: int, assignmentId: int, g: Grade)
    requires FindGrade(gs, studentId, assignmentId).None? && ForPair(g, studentId, assignmentId)
    ensures FindGrade(gs + [g], studentId, assignmentId) == Some(|gs|)
  {
    if gs != [] {
      assert (gs + [g])[1..] == gs[1..] + [g];
      FindGradeAfterAppend(gs[1..], studentId, assignmentId, g);
    }
  }

  /** The submission with the id and the assignment it belongs to, when both are found. */
  function SubmissionAndAssignment(db: Db, submissionId: int): (r: Option<(Submission, Assignment)>)
    ensures r.Some? ==>
      && r.value.0 in db.submissions && r.value.0.id == submissionId
      && r.value.1 in db.assignments && r.value.1.id == r.value.0.assignmentId
    ensures FindSubmission(db.submissions, submissionId).None? ==> r.None?
  {
    match FindSubmission(db.submissions, submissionId)
    case None => None
    case Some(k) =>
      match FindAssignment(db.assignments, db.submissions[k].assignmentId)
      case None => None
      case Some(ai) => Some((db.submissions[k], db.assignments[ai]))
  }

  /**
   * `CalculateGradeAsync`: the submission's earned points (the sum over its execution
   * results) and the grade value of their percentage of the assignment's maximum are
   * upserted into the pair's grade. An unknown id raises and writes nothing.
   */
  function CalculateGrade(db: Db, submissionId: int): (o: Outcome<Grade>)
    ensures FindSubmission(db.submissions, submissionId).None? ==>
      o == Outcome(db, Failure(SubmissionNotFound(submissionId)))
    ensures o.result.Failure? ==> o.db == db
    ensures o.db == db.(grades := o.db.grades)
    ensures o.result.Success? <==> SubmissionAndAssignment(db, submissionId).Some?
    ensures o.result.Success? ==>
      var (s, a) := SubmissionAndAssignment(db, submissionId).value;
      var earned := SumPointsEarned(s.executionResults);
      && o.result.value.points == earned
      && o.result.value.gradeValue == Some(GradeValue(Percentage(earned, a.maxPoints)))
      && ForPair(o.result.value, s.studentId, s.assignmentId)
      && (o.db.grades, o.result.value)
         == UpsertGrade(db.grades, s.studentId, s.assignmentId, earned, GradeValue(Percentage(earned, a.maxPoints)))
  {
    match FindSubmission(db.submissions, submissionId)
    case None => Outcome(db, Failure(SubmissionNotFound(submissionId)))
    case Some(k) =>
      var s := db.submissions[k];
      match FindAssignment(db.assignments, s.assignmentId)
      case None => Outcome(db, Failure(NullReference))
      case Some(ai) =>
        var earned := SumPointsEarned(s.executionResults);
        var value := GradeValue(Percentage(earned, db.assignments[ai].maxPoints));
        var (gs, g) := UpsertGrade(db.grades, s.studentId, s.assignmentId, earned, value);
        Outcome(db.(grades := gs), Success(g))
  }

  /** Grading the same submission twice, with nothing else changed, leaves the store as the first grading did. */
  lemma CalculateGradeIdempotent(db: Db, submissionId: int)
    ensures
      var o1 := CalculateGrade(db, submissionId);
      var o2 := CalculateGrade(o1.db, submissionId);
      o2.db == o1.db && o2.result == o1.result
  {
    var o1 := CalculateGrade(db, submissionId);
    if o1.result.Success? {
      var (s, a) := SubmissionAndAssignment(db, submissionId).value;
      var earned := SumPointsEarned(s.executionResults);
      UpsertIdempotent(db.grades, s.studentId, s.assignmentId, earned, GradeValue(Percentage(earned, a.maxPoints)));
    }
  }

  /**
   * `UpdateSubmissionScoreAsync`: the submission's score becomes the sum of its
   * earned points and its status becomes Completed, whatever it was; nothing else changes.
   */
  function UpdateSubmissionScore(db: Db, submissionId: int): (r: Result<Db>)
    ensures r.Failure? <==> FindSubmission(db.submissions, submissionId).None?
    ensures r.Failure? ==> r.error == SubmissionNotFound(submissionId)
    ensures r.Success? ==>
      var k := FindSubmission(db.submissions, submissionId).value;
      && r.value == db.(submissions := r.value.submissions)
      && |r.value.submissions| == |db.submissions|
      && r.value.submissions[k].score == SumPointsEarned(db.submissions[k].executionResults)
      && r.value.submissions[k].status == SubmissionStatus.Completed
      && r.value.submissions[k].(score := db.submissions[k].score, status := db.submissions[k].status) == db.submissions[k]
      && forall j :: 0 <= j < |db.submissions| && j != k ==> r.value.submissions[j] == db.submissions[j]
  {
    match FindSubmission(db.submissions, submissionId)
    case None => Failure(SubmissionNotFound(submissionId))
    case Some(k) =>
      var s := db.submissions[k];
      var updated := s.(score := SumPointsEarned(s.executionResults), status := SubmissionStatus.Completed);
      Success(db.(submissions := db.submissions[k := updated]))
  }

  // ---------------------------------------------------------------------------
  // Statistics
  // ---------------------------------------------------------------------------

  /** A student's grades, in table order. */
  function GradesOf(gs: seq<Grade>, studentId: int): (r: seq<Grade>)
    ensures |r| <= |gs|
    ensures forall i :: 0 <= i < |r| ==> r[i].studentId == studentId && r[i] in gs
    ensures forall g :: g in gs && g.studentId == studentId ==> g in r
  {
    if gs == [] then []
    else if gs[0].studentId == studentId then [gs[0]] + GradesOf(gs[1..], studentId)
    else GradesOf(gs[1..], studentId)
  }

  function ValueOrZero(g: Grade): int {
    if g.gradeValue.Some? then g.gradeValue.value else 0
  }

  function SumValues(gs: seq<Grade>): int {
    if gs == [] then 0 else ValueOrZero(gs[0]) + SumValues(gs[1..])
  }

  function SumGradePoints(gs: seq<Grade>): int {
    if gs == [] then 0 else gs[0].points + SumGradePoints(gs[1..])
  }

  /** The best grade value, a missing value counting as 0; 0 for no grades. */
  function BestValue(gs: seq<Grade>): (r: int)
    ensures forall i :: 0 <= i < |gs| ==> ValueOrZero(gs[i]) <= r
    ensures gs != [] ==> exists i :: 0 <= i < |gs| && ValueOrZero(gs[i]) == r
    ensures gs == [] ==> r == 0
  {
    if gs == [] then 0
    else if |gs| == 1 then ValueOrZero(gs[0])
    else
      var rest := BestValue(gs[1..]);
      assert forall i :: 1 <= i < |gs| ==> gs[i] == gs[1..][i - 1];
      if ValueOrZero(gs[0]) >= rest then ValueOrZero(gs[0]) else rest
  }

  /** The maximum points of each graded assignment, summed; fails when a grade's assignment is missing. */
  function SumMaxPoints(assignments: seq<Assignment>, gs: seq<Grade>): (r: Result<int>)
    ensures r.Failure? <==> exists i :: 0 <= i < |gs| && FindAssignment(assignments, gs[i].assignmentId).None?
  {
    if gs == [] then Success(0)
    else
      assert forall i :: 1 <= i < |gs| ==> gs[i] == gs[1..][i - 1];
      match FindAssignment(assignments, gs[0].assignmentId)
      case None => Failure(NullReference)
      case Some(k) =>
        match SumMaxPoints(assignments, gs[1..])
        case Failure(e) => Failure(e)
        case Success(rest) => Success(assignments[k].maxPoints + rest)
  }

  /** The mean of an integer total over `n` items, 0 for none. */
  function Average(total: int, n: nat): real {
    if n == 0 then 0.0 else total as real / n as real
  }

  const StatisticKeys: set<string> := {
    "TotalAssignments", "CompletedAssignments", "AverageGrade", "AveragePoints",
    "OverallPercentage", "TotalPointsEarned", "MaxPossiblePoints", "BestGrade"}

  /**
   * `GetStudentStatisticsAsync`: eight figures over the student's grades, each 0 when
   * the student has none. Fails when a graded assignment is missing.
   */
  function StudentStatistics(db: Db, studentId: int): (r: Result<map<string, real>>)
    ensures r.Success? ==> r.value.Keys == StatisticKeys
    ensures GradesOf(db.grades, studentId) == [] ==> r.Success? && forall k :: k in r.value ==> r.value[k] == 0.0
    ensures r.Success? ==> r.value["TotalAssignments"] == r.value["CompletedAssignments"] == |GradesOf(db.grades, studentId)| as real
    ensures r.Success? && r.value["MaxPossiblePoints"] == 0.0 ==> r.value["OverallPercentage"] == 0.0
    ensures r.Success? ==>
      var gs := GradesOf(db.grades, studentId);
      (forall i :: 0 <= i < |gs| ==> ValueOrZero(gs[i]) as real <= r.value["BestGrade"])
      && (gs != [] ==> exists i :: 0 <= i < |gs| && ValueOrZero(gs[i]) as real == r.value["BestGrade"])
  {
    var gs := GradesOf(db.grades, studentId);
    match SumMaxPoints(db.assignments, gs)
    case Failure(e) => Failure(e)
    case Success(maxPoints) =>
      var earned := SumGradePoints(gs);
      var overall := if maxPoints > 0 then earned as real / maxPoints as real * 100.0 else 0.0;
      Success(map[
        "TotalAssignments" := |gs| as real,
        "CompletedAssignments" := |gs| as real,
        "AverageGrade" := Average(SumValues(gs), |gs|),
        "AveragePoints" := Average(earned, |gs|),
        "OverallPercentage" := overall,
        "TotalPointsEarned" := earned as real,
        "MaxPossiblePoints" := maxPoints as real,
        "BestGrade" := BestValue(gs) as real])
  }
}
