/**
 * The older copy of the simple grading service. Its grading, score update and grade
 * scale are the same definitions as in `GradeCalculation`; only the statistics
 * differ: an empty dictionary for a student without grades, otherwise six figures
 * (no completed-assignment count and no best grade).
 */
module LegacyGradeCalculation {
  import opened Wrappers
  import opened Models
  import opened GradeCalculation

  const LegacyStatisticKeys: set<string> := {
    "TotalAssignments", "AverageGrade", "AveragePoints",
    "OverallPercentage", "TotalPointsEarned", "MaxPossiblePoints"}

  /** `GetStudentStatisticsAsync` of the older copy. */
  function LegacyStudentStatistics(db: Db, studentId: int): (r: Result<map<string, real>>)
    ensures GradesOf(db.grades, studentId) == [] ==> r == Success(map[])
    ensures r.Success? && GradesOf(db.grades, studentId) != [] ==> r.value.Keys == LegacyStatisticKeys
    ensures r.Success? && r.value != map[] && r.value["MaxPossiblePoints"] == 0.0 ==> r.value["OverallPercentage"] == 0.0
  {
    var gs := GradesOf(db.grades, studentId);
    if gs == [] then Success(map[])
    else match SumMaxPoints(db.assignments, gs)
      case Failure(e) => Failure(e)
      case Success(maxPoints) =>
        var earned := SumGradePoints(gs);
        var overall := if maxPoints > 0 then earned as real / maxPoints as real * 100.0 else 0.0;
        Success(map[
          "TotalAssignments" := |gs| as real,
          "AverageGrade" := Average(SumValues(gs), |gs|),
          "AveragePoints" := Average(earned, |gs|),
          "OverallPercentage" := overall,
          "TotalPointsEarned" := earned as real,
          "MaxPossiblePoints" := maxPoints as real])
  }

  /** The two copies give the empty dictionary and eight zeros, respectively, to a student without grades. */
  lemma CopiesDifferWithoutGrades(db: Db, studentId: int)
    requires GradesOf(db.grades, studentId) == []
    ensures LegacyStudentStatistics(db, studentId) == Success(map[])
    ensures StudentStatistics(db, studentId).Success? && |StudentStatistics(db, studentId).value| == 8
  {
    assert |StatisticKeys| == 8;
  }

  /** With at least one grade, the older copy's six figures are exactly those of the current copy. */
  lemma CopiesAgreeOnSharedKeys(db: Db, studentId: int)
    requires GradesOf(db.grades, studentId) != []
    ensures LegacyStudentStatistics(db, studentId).Success? <==> StudentStatistics(db, studentId).Success?
    ensures LegacyStudentStatistics(db, studentId).Success? ==>
      var legacy := LegacyStudentStatistics(db, studentId).value;
      var current := StudentStatistics(db, studentId).value;
      forall k :: k in legacy ==> k in current && legacy[k] == current[k]
  {
    var gs := GradesOf(db.grades, studentId);
    match SumMaxPoints(db.assignments, gs)
    case Failure(e) =>
    case Success(maxPoints) =>
      var legacy := LegacyStudentStatistics(db, studentId).value;
      var current := StudentStatistics(db, studentId).value;
      forall k | k in legacy
        ensures k in current && legacy[k] == current[k]
      {
        assert k in LegacyStatisticKeys;
      }
  }
}
