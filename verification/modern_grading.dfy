/**
 * Multi-dimensional grading of a submission: correctness, quality, testing and
 * approach scores, their weighted combination under an assessment criteria row,
 * the mapping onto the 2..6 grade scale, and the attempt record. Every grading
 * pass appends one `GradeResult`; none is ever updated.
 */
module ModernGrading {
  import opened Wrappers
  import opened Text
  import opened Rounding
  import opened Models
  import Quality

  // ---------------------------------------------------------------------------
  // The four dimensions
  // ---------------------------------------------------------------------------

  /**
   * `CalculateCorrectnessScoreAsync`: the earned share of the assignment's test-case
   * points as a rounded percentage, or 0 when the test cases carry no points.
   */
  function CorrectnessScore(testCases: seq<TestCase>, results: seq<ExecutionResult>): (r: int)
    ensures SumPoints(testCases) == 0 ==> r == 0
    ensures SumPoints(testCases) != 0 ==>
      var exact := SumPointsEarned(results) as real / SumPoints(testCases) as real * 100.0;
      -0.5 <= exact - r as real <= 0.5
  {
    var total := SumPoints(testCases);
    if total == 0 then 0
    else RoundHalfEven(SumPointsEarned(results) as real / total as real * 100.0)
  }

  /** Earning between nothing and everything gives a correctness score in 0..100; earning everything gives 100. */
  lemma CorrectnessBounds(testCases: seq<TestCase>, results: seq<ExecutionResult>)
    requires 0 <= SumPointsEarned(results) <= SumPoints(testCases)
    ensures 0 <= CorrectnessScore(testCases, results) <= 100
    ensures SumPoints(testCases) > 0 && SumPointsEarned(results) == SumPoints(testCases) ==>
      CorrectnessScore(testCases, results) == 100
  {
    var total := SumPoints(testCases);
    if total != 0 {
      var earned := SumPointsEarned(results);
      var x := earned as real / total as real * 100.0;
      assert CorrectnessScore(testCases, results) == RoundHalfEven(x);
      ScaledRatioBound(earned as real, total as real, 100.0);
      RoundWithin(x, 0, 100);
      if earned == total {
        SelfRatio(total as real);
        assert x == 100 as real;
        RoundIntegral(100);
      }
    }
  }

  /**
   * `CalculateQualityScoreAsync`: the 0.4 / 0.3 / 0.2 / 0.1 blend of readability,
   * maintainability, style and documentation, rounded and clamped into 0..100.
   */
  function QualityScore(m: QualityMetrics): (r: int)
    ensures 0 <= r <= 100
    ensures
      var blend := (4 * m.readabilityScore + 3 * m.maintainabilityIndex + 2 * m.styleScore + m.documentationCoverage) as real / 10.0;
      0.0 <= blend <= 100.0 ==> -0.5 <= blend - r as real <= 0.5
  {
    var blend := (4 * m.readabilityScore + 3 * m.maintainabilityIndex + 2 * m.styleScore + m.documentationCoverage) as real / 10.0;
    Clamp(0, 100, RoundHalfEven(blend))
  }

  /** Components within 0..100 never need the clamp, and all-perfect components give 100. */
  lemma QualityScoreOfPerfectMetrics(m: QualityMetrics)
    requires m.readabilityScore == 100 && m.maintainabilityIndex == 100
    requires m.styleScore == 100 && m.documentationCoverage == 100
    ensures QualityScore(m) == 100
  {
    RoundIntegral(100);
  }

  /** A lower maintainability index, everything else equal, never raises the quality score. */
  lemma QualityScoreMonotoneInIndex(m1: QualityMetrics, m2: QualityMetrics)
    requires m1.readabilityScore == m2.readabilityScore && m1.styleScore == m2.styleScore
    requires m1.documentationCoverage == m2.documentationCoverage
    requires m1.maintainabilityIndex <= m2.maintainabilityIndex
    ensures QualityScore(m1) <= QualityScore(m2)
  {
    var b1 := (4 * m1.readabilityScore + 3 * m1.maintainabilityIndex + 2 * m1.styleScore + m1.documentationCoverage) as real / 10.0;
    var b2 := (4 * m2.readabilityScore + 3 * m2.maintainabilityIndex + 2 * m2.styleScore + m2.documentationCoverage) as real / 10.0;
    RoundMonotone(b1, b2);
  }

  /**
   * Through the maintainability index, the as-written complexity never raises the
   * quality score above that of the corrected analysis.
   */
  lemma AsWrittenQualityNotAbove(rx: Quality.RegexEngine, code: string, language: string, ln: nat -> real)
    requires Quality.AnalyzeCodeQuality(rx, code, language, ln).Success?
    ensures Quality.AnalyzeCodeQualityCorrected(rx, code, language, ln).Success?
    ensures QualityScore(Quality.AnalyzeCodeQuality(rx, code, language, ln).value)
      <= QualityScore(Quality.AnalyzeCodeQualityCorrected(rx, code, language, ln).value)
  {
    Quality.AnalysesDifferOnlyInComplexity(rx, code, language, ln);
    Quality.AsWrittenIndexNotAbove(rx, code, language, ln);
    var a, c := Quality.AnalyzeCodeQuality(rx, code, language, ln).value, Quality.AnalyzeCodeQualityCorrected(rx, code, language, ln).value;
    assert a.readabilityScore == c.readabilityScore;
    QualityScoreMonotoneInIndex(a, c);
  }

  /** Number of results marked correct. */
  function CountPassed(results: seq<ExecutionResult>): (r: nat)
    ensures r <= |results|
  {
    if results == [] then 0
    else (if results[0].isCorrect then 1 else 0) + CountPassed(results[1..])
  }

  /** A correct result whose test case is not attached (reading `IsHidden` through it would throw). */
  predicate MissingTestCase(e: ExecutionResult) {
    e.isCorrect && e.testCase.None?
  }

  /** Number of correct results on hidden test cases; fails on a correct result without its test case. */
  function CountHiddenPassed(results: seq<ExecutionResult>): (r: Result<nat>)
    ensures r.Failure? <==> exists i :: 0 <= i < |results| && MissingTestCase(results[i])
    ensures r.Success? ==> r.value <= CountPassed(results)
  {
    if results == [] then Success(0)
    else
      var e := results[0];
      var rest := CountHiddenPassed(results[1..]);
      assert forall i :: 1 <= i < |results| ==> results[i] == results[1..][i - 1];
      if MissingTestCase(e) then Result<nat>.Failure(NullReference)
      else match rest
        case Failure(msg) => Result<nat>.Failure(msg)
        case Success(n) => Success(n + (if e.isCorrect && e.testCase.value.isHidden then 1 else 0))
  }

  /** The unrounded part of the testing score: 70 scaled by the passed share. */
  function PassedShare(passed: nat, total: nat): real
    requires total > 0
  {
    passed as real / total as real * 70.0
  }

  /** `n` is a rounding of `x`: it lies within one half of it. */
  predicate WithinHalf(x: real, n: int) {
    -0.5 <= x - n as real <= 0.5
  }

  /**
   * `CalculateTestingScoreAsync`: 100 without test cases; otherwise 70 scaled by the
   * passed share (rounded) plus 10 per passed hidden case up to 30, capped at 100.
   */
  function TestingScore(testCaseCount: nat, results: seq<ExecutionResult>): (r: Result<int>)
    ensures testCaseCount == 0 ==> r == Success(100)
    ensures testCaseCount > 0 ==>
      (r.Failure? <==> exists i :: 0 <= i < |results| && MissingTestCase(results[i]))
    ensures r.Success? ==> 0 <= r.value <= 100
    ensures testCaseCount > 0 && r.Success? ==>
      exists basic: int ::
        && WithinHalf(PassedShare(CountPassed(results), testCaseCount), basic)
        && r.value == Min(100, basic + Min(30, 10 * CountHiddenPassed(results).value))
    ensures testCaseCount > 0 && r.Success? && CountPassed(results) <= testCaseCount ==>
      var bonus := Min(30, 10 * CountHiddenPassed(results).value);
      && bonus <= r.value
      && (CountPassed(results) == 0 ==> r.value == 0)
      && (CountPassed(results) == testCaseCount ==> r.value == 70 + bonus)
  {
    if testCaseCount == 0 then Success(100)
    else match CountHiddenPassed(results)
      case Failure(msg) => Failure(msg)
      case Success(hidden) =>
        var share := PassedShare(CountPassed(results), testCaseCount);
        var basic := RoundHalfEven(share);
        assert basic >= 0 by {
          assert share >= 0.0;
          RoundMonotone(0.0, share);
          RoundIntegral(0);
        }
        var bonus := Min(30, 10 * hidden);
        BasicScoreRange(CountPassed(results), testCaseCount, basic);
        assert WithinHalf(share, basic);
        Success(Min(100, basic + bonus))
  }

  /** The rounded share of 70 lies in 0..70, and is 0 or 70 at the ends. */
  lemma BasicScoreRange(passed: nat, total: nat, basic: int)
    requires 0 < total
    requires -0.5 <= passed as real / total as real * 70.0 - basic as real <= 0.5
    ensures passed <= total ==> 0 <= basic <= 70
    ensures passed == 0 ==> basic == 0
    ensures passed == total ==> basic == 70
  {
    if passed <= total {
      ScaledRatioBound(passed as real, total as real, 70.0);
      if passed == total {
        SelfRatio(total as real);
      }
    }
  }

  /** Passing every one of the test cases, three of them hidden, earns the full testing score. */
  lemma TestingScoreAllPassed(testCaseCount: nat, results: seq<ExecutionResult>)
    requires testCaseCount > 0 && CountPassed(results) == testCaseCount
    requires CountHiddenPassed(results) == Success(3)
    ensures TestingScore(testCaseCount, results) == Success(100)
  {
    SelfRatio(testCaseCount as real);
    RoundIntegral(70);
  }

  /** Efficiency part of the approach score: 30 below 1000 characters, then one point less per 100 more, never below 10. */
  function EfficiencyScore(codeLength: nat): (r: int)
    ensures 10 <= r <= 30
    ensures codeLength < 1000 ==> r == 30
    ensures codeLength >= 3000 ==> r == 10
  {
    if codeLength < 1000 then 30 else Max(10, 30 - (codeLength - 1000) / 100)
  }

  /** Simplicity part of the approach score: 30 below complexity 10, then two points less per unit, never below 10. */
  function SimplicityScore(complexity: int): (r: int)
    ensures 10 <= r <= 30
    ensures complexity < 10 ==> r == 30
    ensures complexity >= 20 ==> r == 10
  {
    if complexity < 10 then 30 else Max(10, 30 - (complexity - 10) * 2)
  }

  /** Longer code never earns a higher efficiency score, and more complex code never a higher simplicity score. */
  lemma ApproachPartsMonotone(len1: nat, len2: nat, c1: int, c2: int)
    requires len1 <= len2 && c1 <= c2
    ensures EfficiencyScore(len2) <= EfficiencyScore(len1)
    ensures SimplicityScore(c2) <= SimplicityScore(c1)
  {
    if len1 >= 1000 {
      DivMonotone(len1 - 1000, len2 - 1000, 100);
    }
  }

  /** `CalculateApproachScoreAsync`: efficiency plus simplicity plus a fixed 40, so always within 60..100. */
  function ApproachScore(codeLength: nat, complexity: int): (r: int)
    ensures 60 <= r <= 100
    ensures codeLength < 1000 && complexity < 10 ==> r == 100
  {
    Min(100, EfficiencyScore(codeLength) + SimplicityScore(complexity) + 40)
  }

  /**
   * As written, the approach score takes `CalculateComplexity` with its `\b||\b`
   * pattern: from 18 characters on that complexity is at least 20, so simplicity earns
   * only its minimum and the approach score is at most 80.
   */
  lemma ApproachAsWrittenCapped(rx: Quality.RegexEngine, code: string)
    requires |code| >= 18
    ensures ApproachScore(|code|, Quality.ComplexityAsWritten(rx, code)) <= 80
  {
  }

  /**
   * Straight-line code of 18 to 999 characters, on which no pattern matches and which
   * has no "||", earns the full approach score with the corrected complexity, but at
   * most 80 as written.
   */
  lemma ApproachAsWrittenDiffers(rx: Quality.RegexEngine, code: string)
    requires 18 <= |code| < 1000 && '|' !in code
    requires forall re: Quality.Regex :: rx.matches(re, code) == []
    ensures ApproachScore(|code|, Quality.Complexity(rx, code)) == 100
    ensures ApproachScore(|code|, Quality.ComplexityAsWritten(rx, code)) <= 80
  {
    Quality.ComplexityOfStraightLineCode(rx, code);
    ApproachAsWrittenCapped(rx, code);
  }

  // ---------------------------------------------------------------------------
  // Combination and grade scale
  // ---------------------------------------------------------------------------

  /** The exact weighted sum: each dimension times its weight, over 100. */
  function WeightedSum(correctness: int, quality: int, testing: int, approach: int, c: AssessmentCriteria): real {
    (correctness * c.correctnessWeight + quality * c.qualityWeight
      + testing * c.testingWeight + approach * c.approachWeight) as real / 100.0
  }

  /** `CalculateWeightedScore`: the weighted sum rounded half to even; no clamp is applied. */
  function WeightedScore(correctness: int, quality: int, testing: int, approach: int, c: AssessmentCriteria): (r: int)
    ensures -0.5 <= WeightedSum(correctness, quality, testing, approach, c) - r as real <= 0.5
  {
    RoundHalfEven(WeightedSum(correctness, quality, testing, approach, c))
  }

  /** With weights that are non-negative and sum to 100, scores within 0..100 combine into 0..100. */
  lemma WeightedScoreBounds(correctness: int, quality: int, testing: int, approach: int, c: AssessmentCriteria)
    requires 0 <= correctness <= 100 && 0 <= quality <= 100 && 0 <= testing <= 100 && 0 <= approach <= 100
    requires c.correctnessWeight >= 0 && c.qualityWeight >= 0 && c.testingWeight >= 0 && c.approachWeight >= 0
    requires c.correctnessWeight + c.qualityWeight + c.testingWeight + c.approachWeight == 100
    ensures 0 <= WeightedScore(correctness, quality, testing, approach, c) <= 100
  {
    var sum := correctness * c.correctnessWeight + quality * c.qualityWeight
      + testing * c.testingWeight + approach * c.approachWeight;
    ProductBound(correctness, c.correctnessWeight);
    ProductBound(quality, c.qualityWeight);
    ProductBound(testing, c.testingWeight);
    ProductBound(approach, c.approachWeight);
    assert 0 <= sum <= 10000;
    RoundWithin(sum as real / 100.0, 0, 100);
  }

  lemma ProductBound(score: int, weight: int)
    requires 0 <= score <= 100 && weight >= 0
    ensures 0 <= score * weight <= 100 * weight
  {
  }

  /** The weights are not checked to sum to 100: 60/60/0/0 turns full marks into 120. */
  lemma WeightedScoreUnclamped()
    ensures WeightedScore(100, 100, 100, 100, DefaultCriteria(1).(correctnessWeight := 60, qualityWeight := 60, testingWeight := 0, approachWeight := 0)) == 120
  {
    RoundIntegral(120);
  }

  /** With the default weights, scores 80 / 70 / 60 / 90 sum to 74.5, which rounds to the even 74: grade 4. */
  lemma DefaultWeightsExample()
    ensures WeightedSum(80, 70, 60, 90, DefaultCriteria(1)) == 74.5
    ensures WeightedScore(80, 70, 60, 90, DefaultCriteria(1)) == 74
    ensures TraditionalGrade(74) == 4
  {
    var r := WeightedScore(80, 70, 60, 90, DefaultCriteria(1));
    assert r == 74 || r == 75;
  }

  /** `ConvertToTraditionalGrade`: the 2..6 step function with thresholds 90, 80, 70 and 60. */
  function TraditionalGrade(finalScore: int): (r: int)
    ensures 2 <= r <= 6
    ensures r == 6 <==> finalScore >= 90
    ensures r == 5 <==> 80 <= finalScore < 90
    ensures r == 4 <==> 70 <= finalScore < 80
    ensures r == 3 <==> 60 <= finalScore < 70
    ensures r == 2 <==> finalScore < 60
  {
    if finalScore >= 90 then 6
    else if finalScore >= 80 then 5
    else if finalScore >= 70 then 4
    else if finalScore >= 60 then 3
    else 2
  }

  /** A higher final score never gives a lower grade. */
  lemma TraditionalGradeMonotone(a: int, b: int)
    requires a <= b
    ensures TraditionalGrade(a) <= TraditionalGrade(b)
  {
  }

  // ---------------------------------------------------------------------------
  // Assessment criteria
  // ---------------------------------------------------------------------------

  const DefaultCriteriaName: string := "Default"

  /** The criteria row created when no row named "Default" exists. */
  function DefaultCriteria(id: int): (c: AssessmentCriteria)
    ensures c.name == DefaultCriteriaName && c.id == id
    ensures c.correctnessWeight + c.qualityWeight + c.testingWeight + c.approachWeight == 100
  {
    AssessmentCriteria(
      id := id,
      name := DefaultCriteriaName,
      description := Some("Default assessment criteria for general programming assignments"),
      level := Intermediate,
      correctnessWeight := 50,
      qualityWeight := 30,
      testingWeight := 15,
      approachWeight := 5,
      minReadabilityScore := 60,
      minMaintainabilityScore := 60,
      minDocumentationScore := 40,
      passThreshold := 50,
      excellenceThreshold := 90,
      allowUnlimitedResubmissions := true,
      trackImprovement := true,
      createdBy := Some("System"),
      isActive := true)
  }

  function CriteriaIds(cs: seq<AssessmentCriteria>): seq<int> {
    Ids(cs, (c: AssessmentCriteria) => c.id)
  }

  /** Index of the first criteria row with the given name (`FirstOrDefaultAsync(c => c.Name == name)`). */
  function FindCriteriaByName(cs: seq<AssessmentCriteria>, name: string): (r: Option<nat>)
    ensures r.Some? ==> r.value < |cs| && cs[r.value].name == name
    ensures r.Some? ==> forall k :: 0 <= k < r.value ==> cs[k].name != name
    ensures r.None? ==> forall k :: 0 <= k < |cs| ==> cs[k].name != name
  {
    FindFirst(cs, (c: AssessmentCriteria) => c.name == name)
  }

  function FindCriteriaById(cs: seq<AssessmentCriteria>, id: int): Option<nat> {
    FindFirst(cs, (c: AssessmentCriteria) => c.id == id)
  }

  /**
   * `GetDefaultCriteriaAsync`: the first row named "Default", or a new default row
   * appended (and saved at once) with a fresh id.
   */
  function GetDefaultCriteria(cs: seq<AssessmentCriteria>): (r: (seq<AssessmentCriteria>, AssessmentCriteria))
    ensures r.1.name == DefaultCriteriaName
    ensures FindCriteriaByName(cs, DefaultCriteriaName).Some? ==>
      r.0 == cs && r.1 == cs[FindCriteriaByName(cs, DefaultCriteriaName).value]
    ensures FindCriteriaByName(cs, DefaultCriteriaName).None? ==>
      r.0 == cs + [r.1] && r.1 == DefaultCriteria(r.1.id) && forall k :: 0 <= k < |cs| ==> cs[k].id != r.1.id
  {
    match FindCriteriaByName(cs, DefaultCriteriaName)
    case Some(k) => (cs, cs[k])
    case None =>
      var c := DefaultCriteria(NextId(CriteriaIds(cs)));
      (cs + [c], c)
  }

  /** Looking the default up a second time finds the row the first lookup returned, and adds nothing. */
  lemma GetDefaultCriteriaIdempotent(cs: seq<AssessmentCriteria>)
    ensures GetDefaultCriteria(GetDefaultCriteria(cs).0).0 == GetDefaultCriteria(cs).0
    ensures GetDefaultCriteria(GetDefaultCriteria(cs).0).1 == GetDefaultCriteria(cs).1
  {
    var (cs1, c1) := GetDefaultCriteria(cs);
    if FindCriteriaByName(cs, DefaultCriteriaName).None? {
      FirstNamedInExtension(cs, c1);
    }
  }

  lemma FirstNamedInExtension(cs: seq<AssessmentCriteria>, c: AssessmentCriteria)
    requires FindCriteriaByName(cs, c.name).None?
    ensures FindCriteriaByName(cs + [c], c.name) == Some(|cs|)
  {
    if cs != [] {
      assert (cs + [c])[1..] == cs[1..] + [c];
      FirstNamedInExtension(cs[1..], c);
    }
  }

  /**
   * The criteria the assignment names (`submission.Assignment.AssessmentCriteria`),
   * falling back to the default row.
   */
  function ResolveCriteria(cs: seq<AssessmentCriteria>, a: Assignment): (r: (seq<AssessmentCriteria>, AssessmentCriteria))
    ensures a.criteriaId.Some? && FindCriteriaById(cs, a.criteriaId.value).Some? ==>
      r.0 == cs && r.1 == cs[FindCriteriaById(cs, a.criteriaId.value).value]
    ensures a.criteriaId.None? ==> r == GetDefaultCriteria(cs)
    ensures r.0 == cs || r.0 == cs + [r.1]
    ensures r.1.id in CriteriaIds(r.0)
    ensures r.1 in r.0
  {
    if a.criteriaId.Some? && FindCriteriaById(cs, a.criteriaId.value).Some? then
      var k := FindCriteriaById(cs, a.criteriaId.value).value;
      assert CriteriaIds(cs)[k] == cs[k].id;
      (cs, cs[k])
    else
      var r := GetDefaultCriteria(cs);
      assert CriteriaIds(r.0)[if r.0 == cs then FindCriteriaByName(cs, DefaultCriteriaName).value else |cs|] == r.1.id;
      r
  }

  // ---------------------------------------------------------------------------
  // Progress
  // ---------------------------------------------------------------------------

  /** A grade result belongs to an earlier attempt: another submission by the same student for the same assignment. */
  predicate IsPriorResult(subs: seq<Submission>, s: Submission, gr: GradeResult) {
    gr.submissionId != s.id
    && match FindSubmission(subs, gr.submissionId)
       case None => false
       case Some(k) => subs[k].studentId == s.studentId && subs[k].assignmentId == s.assignmentId
  }

  /** The earlier attempts' grade results, in table (insertion) order. */
  function PriorResults(subs: seq<Submission>, s: Submission, grs: seq<GradeResult>): (r: seq<GradeResult>)
    ensures |r| <= |grs|
    ensures forall i :: 0 <= i < |r| ==> r[i] in grs && IsPriorResult(subs, s, r[i])
    ensures forall g :: g in grs && IsPriorResult(subs, s, g) ==> g in r
  {
    if grs == [] then []
    else if IsPriorResult(subs, s, grs[0]) then [grs[0]] + PriorResults(subs, s, grs[1..])
    else PriorResults(subs, s, grs[1..])
  }

  lemma {:induction false} PriorResultsAppend(subs: seq<Submission>, s: Submission, grs: seq<GradeResult>, g: GradeResult)
    ensures PriorResults(subs, s, grs + [g])
      == PriorResults(subs, s, grs) + (if IsPriorResult(subs, s, g) then [g] else [])
  {
    if grs == [] {
      assert grs + [g] == [g];
    } else {
      assert (grs + [g])[1..] == grs[1..] + [g];
      assert (grs + [g])[0] == grs[0];
      PriorResultsAppend(subs, s, grs[1..], g);
    }
  }

  datatype Progress = Progress(attemptNumber: int, previousScore: Option<int>, isImprovement: bool)

  /**
   * `CalculateProgressAsync`. Results are ordered newest first by calculation time,
   * which follows insertion order, so the previous score is that of the last prior
   * result in the table. Improvement compares it with the submission's stored score.
   */
  function CalculateProgress(subs: seq<Submission>, s: Submission, grs: seq<GradeResult>): (p: Progress)
    ensures p.attemptNumber == |PriorResults(subs, s, grs)| + 1
    ensures p.previousScore.Some? <==> exists g :: g in grs && IsPriorResult(subs, s, g)
    ensures p.previousScore.Some? ==> exists g :: g in grs && IsPriorResult(subs, s, g) && g.finalScore == p.previousScore.value
    ensures p.isImprovement ==> p.previousScore.Some? && p.previousScore.value < s.score
    ensures p.previousScore.Some? && p.previousScore.value < s.score ==> p.isImprovement
  {
    var prior := PriorResults(subs, s, grs);
    var previous := if prior == [] then None else Some(prior[|prior| - 1].finalScore);
    Progress(|prior| + 1, previous, previous.Some? && previous.value < s.score)
  }

  // ---------------------------------------------------------------------------
  // The whole grading pass
  // ---------------------------------------------------------------------------

  /**
   * The metrics row as the grading pass stores it: the analyzer never sets the
   * submission id, so the row keeps the default 0.
   */
  function MetricsRowAsWritten(m: QualityMetrics, submissionId: int): (r: QualityMetrics)
    ensures r.submissionId == 0
    ensures r.(submissionId := m.submissionId) == m
  {
    m.(submissionId := 0)
  }

  /** With identity keys starting at 1, the stored metrics row refers to no submission at all. */
  lemma MetricsRowAsWrittenIsOrphan(subs: seq<Submission>, m: QualityMetrics, submissionId: int)
    requires forall i :: 0 <= i < |subs| ==> subs[i].id >= 1
    ensures FindSubmission(subs, MetricsRowAsWritten(m, submissionId).submissionId).None?
  {
  }

  /** The metrics row tied to the graded submission. */
  function MetricsRow(m: QualityMetrics, submissionId: int): (r: QualityMetrics)
    ensures r.submissionId == submissionId
    ensures r.(submissionId := m.submissionId) == m
  {
    m.(submissionId := submissionId)
  }

  function GradeResultIds(grs: seq<GradeResult>): seq<int> {
    Ids(grs, (g: GradeResult) => g.id)
  }

  /** The scores of one grading pass, before they are stored. */
  function BuildGradeResult(
    id: int, submissionId: int, correctness: int, quality: int, testing: int, approach: int,
    criteria: AssessmentCriteria, progress: Progress): (gr: GradeResult)
    ensures gr.id == id && gr.submissionId == submissionId
    ensures gr.correctnessScore == correctness && gr.qualityScore == quality
    ensures gr.testingScore == testing && gr.approachScore == approach
    ensures -0.5 <= WeightedSum(correctness, quality, testing, approach, criteria) - gr.finalScore as real <= 0.5
    ensures gr.gradeValue.Some? && 2 <= gr.gradeValue.value <= 6
    ensures gr.gradeValue.value == TraditionalGrade(gr.finalScore)
    ensures gr.attemptNumber == progress.attemptNumber && gr.previousScore == progress.previousScore
    ensures gr.isImprovement == progress.isImprovement
    ensures gr.assessmentCriteriaId == criteria.id && gr.calculatedBy == "System"
  {
    var finalScore := WeightedScore(correctness, quality, testing, approach, criteria);
    GradeResult(
      id := id,
      submissionId := submissionId,
      correctnessScore := correctness,
      qualityScore := quality,
      testingScore := testing,
      approachScore := approach,
      finalScore := finalScore,
      gradeValue := Some(TraditionalGrade(finalScore)),
      attemptNumber := progress.attemptNumber,
      previousScore := progress.previousScore,
      isImprovement := progress.isImprovement,
      assessmentCriteriaId := criteria.id,
      calculatedBy := "System")
  }

  /** What a grading pass adds on success: one metrics row and one grade result, both for the submission. */
  predicate AppendsGrade(db: Db, o: Outcome<GradeResult>, submissionId: int)
    requires o.result.Success?
  {
    var gr := o.result.value;
    && o.db.gradeResults == db.gradeResults + [gr]
    && |o.db.qualityMetrics| == |db.qualityMetrics| + 1
    && o.db.qualityMetrics[..|db.qualityMetrics|] == db.qualityMetrics
    && o.db.qualityMetrics[|db.qualityMetrics|].submissionId == submissionId
    && gr.submissionId == submissionId
    && (forall i :: 0 <= i < |db.gradeResults| ==> db.gradeResults[i].id != gr.id)
  }

  /**
   * The invariant of a stored grade result: rerunning the weighting over its four
   * stored scores under the criteria row it names gives its final score.
   */
  predicate Derivable(gr: GradeResult, cs: seq<AssessmentCriteria>) {
    exists c :: c in cs && c.id == gr.assessmentCriteriaId
      && gr.finalScore == WeightedScore(gr.correctnessScore, gr.qualityScore, gr.testingScore, gr.approachScore, c)
  }

  /** The attempt record stored with a result is the submission's progress before the pass. */
  predicate RecordsProgress(gr: GradeResult, subs: seq<Submission>, s: Submission, grs: seq<GradeResult>) {
    var p := CalculateProgress(subs, s, grs);
    gr.attemptNumber == p.attemptNumber && gr.previousScore == p.previousScore && gr.isImprovement == p.isImprovement
  }

  /** The four stored scores are the submission's scores in the four dimensions. */
  predicate ScoredAs(gr: GradeResult, testCases: seq<TestCase>, rx: Quality.RegexEngine, s: Submission, ln: nat -> real) {
    && gr.correctnessScore == CorrectnessScore(testCases, s.executionResults)
    && Quality.AnalyzeCodeQualityCorrected(rx, s.code, s.language, ln).Success?
    && gr.qualityScore == QualityScore(Quality.AnalyzeCodeQualityCorrected(rx, s.code, s.language, ln).value)
    && TestingScore(|testCases|, s.executionResults) == Success(gr.testingScore)
    && gr.approachScore == ApproachScore(|s.code|, Quality.Complexity(rx, s.code))
  }

  /** The grading pass over a found submission and its assignment, with the criteria already resolved into `db`. */
  function GradeWithCriteria(
    db: Db, rx: Quality.RegexEngine, s: Submission, a: Assignment, criteria: AssessmentCriteria, ln: nat -> real
  ): (o: Outcome<GradeResult>)
    ensures o.result.Failure? ==> o.db == db
    ensures o.db == db.(qualityMetrics := o.db.qualityMetrics, gradeResults := o.db.gradeResults)
    ensures o.result.Success? ==> AppendsGrade(db, o, s.id)
    ensures o.result.Success? ==>
      var gr := o.result.value;
      && 0 <= gr.qualityScore <= 100 && 0 <= gr.testingScore <= 100 && 60 <= gr.approachScore <= 100
      && gr.gradeValue.Some? && 2 <= gr.gradeValue.value <= 6
      && gr.gradeValue.value == TraditionalGrade(gr.finalScore)
      && gr.attemptNumber == CalculateProgress(db.submissions, s, db.gradeResults).attemptNumber
      && gr.assessmentCriteriaId == criteria.id && gr.calculatedBy == "System"
    ensures o.result.Success? ==>
      var gr := o.result.value;
      && ScoredAs(gr, TestCasesOf(db.testCases, a.id), rx, s, ln)
      && RecordsProgress(gr, db.submissions, s, db.gradeResults)
      && gr.finalScore == WeightedScore(gr.correctnessScore, gr.qualityScore, gr.testingScore, gr.approachScore, criteria)
  {
    var testCases := TestCasesOf(db.testCases, a.id);
    match Quality.AnalyzeCodeQualityCorrected(rx, s.code, s.language, ln)
    case Failure(e) => Outcome(db, Failure(e))
    case Success(metrics) =>
      match TestingScore(|testCases|, s.executionResults)
      case Failure(e) => Outcome(db, Failure(e))
      case Success(testing) =>
        var gr := BuildGradeResult(
          NextId(GradeResultIds(db.gradeResults)), s.id,
          CorrectnessScore(testCases, s.executionResults),
          QualityScore(metrics),
          testing,
          ApproachScore(|s.code|, Quality.Complexity(rx, s.code)),
          criteria,
          CalculateProgress(db.submissions, s, db.gradeResults));
        Outcome(
          db.(qualityMetrics := db.qualityMetrics + [MetricsRow(metrics, s.id)],
              gradeResults := db.gradeResults + [gr]),
          Success(gr))
  }

  /** Properties every stored grade result has. */
  predicate WellFormedGrade(gr: GradeResult) {
    && 0 <= gr.qualityScore <= 100 && 0 <= gr.testingScore <= 100 && 60 <= gr.approachScore <= 100
    && gr.gradeValue.Some? && 2 <= gr.gradeValue.value <= 6
    && gr.gradeValue.value == TraditionalGrade(gr.finalScore)
    && gr.attemptNumber >= 1
    && gr.calculatedBy == "System"
  }

  /** The rows a grading pass may not touch, and the criteria table growing by at most the default row. */
  predicate KeepsOtherTables(db: Db, db2: Db) {
    && db2.submissions == db.submissions && db2.grades == db.grades
    && db2.assignments == db.assignments && db2.testCases == db.testCases
    && |db.criteria| <= |db2.criteria| <= |db.criteria| + 1 && db2.criteria[..|db.criteria|] == db.criteria
  }

  /** The grading pass for a submission found in the table. */
  function GradeFound(db: Db, rx: Quality.RegexEngine, s: Submission, ln: nat -> real): (o: Outcome<GradeResult>)
    ensures KeepsOtherTables(db, o.db)
    ensures o.result.Failure? ==> o.db.gradeResults == db.gradeResults && o.db.qualityMetrics == db.qualityMetrics
    ensures o.result.Success? ==> AppendsGrade(db, o, s.id) && WellFormedGrade(o.result.value)
    ensures o.result.Success? ==> o.result.value.assessmentCriteriaId in CriteriaIds(o.db.criteria)
    ensures o.result.Success? ==> o.result.value.attemptNumber == CalculateProgress(db.submissions, s, db.gradeResults).attemptNumber
    ensures o.result.Success? ==>
      && FindAssignment(db.assignments, s.assignmentId).Some?
      && ScoredAs(o.result.value, TestCasesOf(db.testCases, s.assignmentId), rx, s, ln)
      && RecordsProgress(o.result.value, db.submissions, s, db.gradeResults)
      && Derivable(o.result.value, o.db.criteria)
  {
    match FindAssignment(db.assignments, s.assignmentId)
    case None => Outcome(db, Failure(NullReference))
    case Some(ai) =>
      var (criteriaTable, criteria) := ResolveCriteria(db.criteria, db.assignments[ai]);
      assert criteriaTable[..|db.criteria|] == db.criteria;
      var resolved := db.(criteria := criteriaTable);
      var o := GradeWithCriteria(resolved, rx, s, db.assignments[ai], criteria, ln);
      assert resolved.gradeResults == db.gradeResults && resolved.qualityMetrics == db.qualityMetrics;
      assert o.result.Success? ==> o.db.criteria == criteriaTable && criteria in o.db.criteria;
      o
  }

  /**
   * `CalculateModernGradeAsync`. `ln` stands for `Math.Log` in the maintainability
   * index. The default criteria row is saved
   * as soon as it is created, so it survives a later failure; the metrics and grade
   * rows are saved together at the end.
   */
  function CalculateModernGrade(db: Db, rx: Quality.RegexEngine, submissionId: int, ln: nat -> real): (o: Outcome<GradeResult>)
    ensures FindSubmission(db.submissions, submissionId).None? ==>
      o == Outcome(db, Failure(SubmissionNotFound(submissionId)))
    ensures KeepsOtherTables(db, o.db)
    ensures o.result.Failure? ==> o.db.gradeResults == db.gradeResults && o.db.qualityMetrics == db.qualityMetrics
    ensures o.result.Success? ==> AppendsGrade(db, o, submissionId) && WellFormedGrade(o.result.value)
    ensures o.result.Success? ==> o.result.value.assessmentCriteriaId in CriteriaIds(o.db.criteria)
    ensures o.result.Success? ==>
      && FindSubmission(db.submissions, submissionId).Some?
      && var s := db.submissions[FindSubmission(db.submissions, submissionId).value];
      && FindAssignment(db.assignments, s.assignmentId).Some?
      && ScoredAs(o.result.value, TestCasesOf(db.testCases, s.assignmentId), rx, s, ln)
      && RecordsProgress(o.result.value, db.submissions, s, db.gradeResults)
      && Derivable(o.result.value, o.db.criteria)
  {
    match FindSubmission(db.submissions, submissionId)
    case None => Outcome(db, Failure(SubmissionNotFound(submissionId)))
    case Some(k) => GradeFound(db, rx, db.submissions[k], ln)
  }

  /**
   * Grading the same submission again does not count as a new attempt: the appended
   * result belongs to the submission itself and is excluded from its prior results.
   */
  lemma RegradeKeepsAttemptNumber(db: Db, rx: Quality.RegexEngine, submissionId: int, ln: nat -> real)
    requires CalculateModernGrade(db, rx, submissionId, ln).result.Success?
    ensures
      var o1 := CalculateModernGrade(db, rx, submissionId, ln);
      var o2 := CalculateModernGrade(o1.db, rx, submissionId, ln);
      o2.result.Success? ==> o2.result.value.attemptNumber == o1.result.value.attemptNumber
  {
    var o1 := CalculateModernGrade(db, rx, submissionId, ln);
    var k := FindSubmission(db.submissions, submissionId).value;
    RegradeStep(db, o1.db, db.submissions[k], o1.result.value);
  }

  /** Appending a submission's own result leaves its attempt number unchanged. */
  lemma RegradeStep(db: Db, db1: Db, s: Submission, gr: GradeResult)
    requires db1.submissions == db.submissions && db1.gradeResults == db.gradeResults + [gr]
    requires gr.submissionId == s.id
    ensures CalculateProgress(db1.submissions, s, db1.gradeResults).attemptNumber
      == CalculateProgress(db.submissions, s, db.gradeResults).attemptNumber
  {
    PriorResultsAppend(db.submissions, s, db.gradeResults, gr);
  }

  /**
   * Grading another submission of the same student for the same assignment makes the
   * next grading of this one count one attempt more, with the newest result's final
   * score as the previous score.
   */
  lemma OtherSubmissionAddsAttempt(db: Db, rx: Quality.RegexEngine, otherId: int, submissionId: int, ln: nat -> real)
    requires otherId != submissionId
    requires FindSubmission(db.submissions, otherId).Some? && FindSubmission(db.submissions, submissionId).Some?
    requires
      var o := db.submissions[FindSubmission(db.submissions, otherId).value];
      var s := db.submissions[FindSubmission(db.submissions, submissionId).value];
      o.studentId == s.studentId && o.assignmentId == s.assignmentId
    requires CalculateModernGrade(db, rx, otherId, ln).result.Success?
    ensures
      var s := db.submissions[FindSubmission(db.submissions, submissionId).value];
      var o1 := CalculateModernGrade(db, rx, otherId, ln);
      var p := CalculateProgress(o1.db.submissions, s, o1.db.gradeResults);
      && p.attemptNumber == CalculateProgress(db.submissions, s, db.gradeResults).attemptNumber + 1
      && p.previousScore == Some(o1.result.value.finalScore)
  {
    var s := db.submissions[FindSubmission(db.submissions, submissionId).value];
    var o1 := CalculateModernGrade(db, rx, otherId, ln);
    OtherAttemptStep(db, o1.db, s, o1.result.value);
  }

  /** Appending a prior result adds one attempt and makes its final score the previous score. */
  lemma OtherAttemptStep(db: Db, db1: Db, s: Submission, gr: GradeResult)
    requires db1.submissions == db.submissions && db1.gradeResults == db.gradeResults + [gr]
    requires IsPriorResult(db.submissions, s, gr)
    ensures
      var p := CalculateProgress(db1.submissions, s, db1.gradeResults);
      && p.attemptNumber == CalculateProgress(db.submissions, s, db.gradeResults).attemptNumber + 1
      && p.previousScore == Some(gr.finalScore)
  {
    PriorResultsAppend(db.submissions, s, db.gradeResults, gr);
  }
}
