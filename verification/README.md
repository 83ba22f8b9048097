# CodeGrade grading core in Dafny

This project models the grading core of CodeGrade. CodeGrade is a teaching platform:
teachers publish programming assignments with test cases, and students submit code
for them. A submission runs against the test cases on a code executor, either the
Judge0 HTTP service or a local Docker container. The results are then graded on two
scales. The first is the simple points-to-grade scale (2..6). The second is the
"modern" multi-dimensional scale: correctness, code quality, testing and approach,
weighted by assessment criteria. The model also covers several pieces of controller
and view-model logic:

- the assignment pages (lists, details, create/edit/delete, the submission gate);
- the registration form's validation;
- the teacher registration codes;
- the administrator's user-dependency summary.

The modules follow the program's structure:

| module | what it is |
|---|---|
| `Wrappers` | `Option` and `Result` |
| `Text` | .NET string helpers the core relies on: `Trim`, `Split`, `Join`, `ToLower`, `ReadLine`, newline replacement, integer formatting |
| `Rounding` | `Math.Round` (half to even, on exact reals), clamping, 32-bit wrap-around |
| `Models` | the entities (submission, test case, execution result, grade, grade result, criteria, metrics) and the database as a record of tables |
| `Quality` | the static code-quality analyzer |
| `ModernGrading` | the multi-dimensional grading pass |
| `GradeCalculation` | the points-to-grade service and student statistics |
| `LegacyGradeCalculation` | the second, older copy of the statistics |
| `Judge0` | the Judge0 executor |
| `Docker` | the Docker executor |
| `Registration` | the registration form |
| `TeacherCodes` | teacher registration codes |
| `AdminUsers` | user display helpers and the dependency summary |
| `Assignments` | the assignments controller |

Modelling choices:

- **Tables.** Database tables are sequences in insertion order. A new row's id is one
  more than the largest id in its table.
- **Failures.** An operation that can throw returns a `Result`, an `Attempt`, or an
  `Outcome` that pairs the database with the result. When the source saves a row
  before failing, that row stays in the `Outcome`'s database.
- **Time.** The current time is a parameter, in integer ticks.
- **External services.** Everything an executor learns from outside is a parameter:
  the Judge0 HTTP replies with the elapsed time of each poll, and the Docker inspections
  and log text.
- **Regexes.** Regex matching is an abstract `RegexEngine`. It is applied to the
  source's literal patterns, which are kept verbatim. Checks that are simple enough
  are written out concretely: the spacing check, nesting depth, lines of code, line
  duplication and the `||` operator.

## Model

| member | source | states |
|---|---|---|
| Text.Trim | Services/Judge0CodeExecutorService.cs:50-51 | the trimmed text is a slice of the input with no white space at either end and only white space cut off |
| Text.TrimIdempotent | Services/Judge0CodeExecutorService.cs:120-121 | trimming an already-trimmed test-case text again changes nothing |
| Text.BlankIffTrimEmpty | Services/Judge0CodeExecutorService.cs:50 | a text is null-or-white-space exactly when trimming leaves it empty, so both branches of the cleaning agree |
| Text.ToLowerAscii | Services/Judge0CodeExecutorService.cs:191 | lower-casing keeps the length, leaves no upper-case letter and changes nothing else |
| Text.ToLowerIdempotent | Services/DockerCodeExecutorService.cs:185 | lower-casing twice is lower-casing once |
| Text.Split | Services/CodeQualityAnalyzer.cs:368 | splitting on a character gives one more part than there are separators, and no part holds the separator |
| Text.JoinSplit | Services/CodeQualityAnalyzer.cs:423 | joining the parts of a split with the separator gives back the text |
| Text.SplitJoin | Services/CodeQualityAnalyzer.cs:423 | splitting parts joined with a separator they do not contain gives back the parts |
| Text.JoinLength | Services/CodeQualityAnalyzer.cs:237 | a join is the parts' total length plus one separator between each pair |
| Text.NormalizeNewlines | Services/Judge0CodeExecutorService.cs:120-121 | after replacing CR LF and then CR by LF, no CR remains |
| Text.NormalizeIdempotent | Services/Judge0CodeExecutorService.cs:120-121 | normalising newlines twice is normalising once, so normalised outputs compare stably |
| Text.NormalizeWithoutCr | Services/Judge0CodeExecutorService.cs:120-121 | text without CR is left unchanged by normalisation |
| Text.ReadWrittenLines | Services/DockerCodeExecutorService.cs:162-164 | reading back lines written with newline terminators yields exactly those lines |
| Text.NatToString | ViewModels/AdminUserViewModel.cs:157 | the decimal text of a count is non-empty digits that parse back to the count |
| Rounding.RoundHalfEven | Services/ModernGradingService.cs:93 | `Math.Round` lands within one half of its argument, and on an exact tie it picks the even neighbour |
| Rounding.RoundWithin | Services/ModernGradingService.cs:107-117 | rounding a value between two integers stays between them |
| Rounding.RoundMonotone | Services/ModernGradingService.cs:153-158 | rounding never reverses the order of two values |
| Rounding.WrapInt32 | Services/DockerCodeExecutorService.cs:113 | the 32-bit result is congruent to the exact value modulo 2^32, and equal to it whenever it fits |
| Models.FindSubmission | Services/GradeCalculationService.cs:20-25 | the index of the first submission with the id, or none exactly when no submission has it |
| Models.TestCasesOf | Services/ModernGradingService.cs:28 | the assignment's test cases are exactly the table's rows for that assignment |
| Models.SumPointsNonNegative | Services/ModernGradingService.cs:89-90 | with non-negative points the total is non-negative, and zero only when every test case is worth zero |
| Models.EarnedWithinAvailable | Services/ModernGradingService.cs:89-93 | when each result earns nothing or its test case's points, the earned total is between zero and the available total |
| Models.NextId | Data/ApplicationDbContext.cs:62-66 | a fresh identity key is positive and larger than every key in the table |
| Quality.ComplexityAsWritten | Services/CodeQualityAnalyzer.cs:43-55 | the complexity as written is at least the code length plus two, whatever the code |
| Quality.Complexity | Services/CodeQualityAnalyzer.cs:43-55 | the corrected cyclomatic complexity is at least the base value 1 |
| Quality.OrOperatorCountCounts | Services/CodeQualityAnalyzer.cs:46 | each `\|\|` operator in the code adds exactly one to the count |
| Quality.ComplexityAsWrittenOvercounts | Services/CodeQualityAnalyzer.cs:46-51 | the as-written count exceeds the corrected one by the code length plus one, minus the `\|\|` operators |
| Quality.ComplexityAsWrittenFlagsStraightLineCode | Services/CodeQualityAnalyzer.cs:43-55 | any code of nine or more characters counts as complex as written; `int x = 1;` scores 12 instead of 1 |
| Quality.ComplexityOfStraightLineCode | Services/CodeQualityAnalyzer.cs:47 | code with no branching keyword and no `\|\|` has the base complexity 1 |
| Quality.LinesOfCode | Services/CodeQualityAnalyzer.cs:57-61 | the count of code lines never exceeds the number of lines |
| Quality.LinesOfCodeConcat | Services/CodeQualityAnalyzer.cs:57-61 | the lines of code of two texts joined by a newline are the sum of each text's |
| Quality.MaxDepth | Services/CodeQualityAnalyzer.cs:385-404 | the maximum nesting depth is non-negative and at least the final depth |
| Quality.MaxDepthIsMaximum | Services/CodeQualityAnalyzer.cs:385-404 | the maximum depth bounds the depth after every prefix of the code and is reached by one of them |
| Quality.MaxDepthAtMostOpeners | Services/CodeQualityAnalyzer.cs:390-400 | the nesting depth never exceeds the number of opening brackets |
| Quality.CalculateMaxNestingDepth | Services/CodeQualityAnalyzer.cs:385-404 | the character loop computes the largest depth over all prefixes |
| Quality.LineLengthDeduction | Services/CodeQualityAnalyzer.cs:67-71 | the line-length penalty is 0, 10 or 20 |
| Quality.FirstIndentation | Services/CodeQualityAnalyzer.cs:366-370 | the indentation pattern is the default four spaces or a run of white space |
| Quality.IsConsistentIndentation | Services/CodeQualityAnalyzer.cs:372-376 | every line that starts with a space or tab starts with the pattern or is blank |
| Quality.HasProperSpacing | Services/CodeQualityAnalyzer.cs:378-383 | no `(`, `{` or `+` sits directly between two ASCII letters or digits anywhere in the code |
| Quality.NestingDeduction | Services/CodeQualityAnalyzer.cs:80-83 | the nesting penalty is 0, 10 or 15 |
| Quality.Readability | Services/CodeQualityAnalyzer.cs:63-86 | readability fails exactly when there are no non-empty lines to average, and otherwise lies between 40 and 100 |
| Quality.ReadabilityFailsOnlyOnNewlines | Services/CodeQualityAnalyzer.cs:68-69 | the line average has nothing to average exactly when the code is nothing but newlines |
| Quality.CountGoodNames | Services/CodeQualityAnalyzer.cs:96-102 | no more names are good than were matched |
| Quality.IsGoodVariableName | Services/CodeQualityAnalyzer.cs:360-364 | a good name is longer than two characters, not all digits, and not one of the five placeholders in any case |
| Quality.Naming | Services/CodeQualityAnalyzer.cs:88-115 | the naming score lies between 0 and 100, and twenty or more single-letter names drive it to 0 |
| Quality.MethodLengthDeduction | Services/CodeQualityAnalyzer.cs:121-128 | each method costs at most 15 points |
| Quality.TrimmedLines | Services/CodeQualityAnalyzer.cs:423 | the lines kept for the duplication check are all non-empty |
| Quality.DuplicationNeedsSixLines | Services/CodeQualityAnalyzer.cs:421-426 | reporting duplication takes at least six non-empty lines, since three distinct lines each appear twice |
| Quality.Structure | Services/CodeQualityAnalyzer.cs:117-140 | the structure score lies between 0 and 100, and duplicated code caps it at 85 |
| Quality.HasCodeDuplication | Services/CodeQualityAnalyzer.cs:421-426 | duplication means more than two distinct trimmed lines longer than ten characters occur more than once; DuplicationNeedsSixLines states what that takes |
| Quality.Documentation | Services/CodeQualityAnalyzer.cs:142-168 | the documentation score lies between 0 and 100, and is 100 when there is nothing to document |
| Quality.Style | Services/CodeQualityAnalyzer.cs:170-179 | the style score is 100 exactly with no violation, and 0 exactly from 50 violations on |
| Quality.MaintainabilityIndex | Services/CodeQualityAnalyzer.cs:181-191 | the index lies between 0 and 100, and truncates the raw value when that is in range |
| Quality.MaintainabilityIndexMonotone | Services/CodeQualityAnalyzer.cs:187-189 | clamping to 0..100 and truncating preserve order |
| Quality.MoreComplexityLowersIndex | Services/CodeQualityAnalyzer.cs:181-191 | for the same line count, a higher complexity figure never raises the maintainability index |
| Quality.RawDifference | Services/CodeQualityAnalyzer.cs:187 | over code lines, each extra unit of complexity takes 0.23 off the value before clamping |
| Quality.IndexDropsByAtLeastOne | Services/CodeQualityAnalyzer.cs:187-189 | lowering a value in 1..100 by one or more lowers its index |
| Quality.IndexLowerBy | Services/CodeQualityAnalyzer.cs:181-191 | five or more extra units of complexity lower an index whose value lies in 1..100 |
| Quality.FeedbackParts | Services/CodeQualityAnalyzer.cs:218-233 | every feedback part is one of the four advice sentences |
| Quality.QualityFeedback | Services/CodeQualityAnalyzer.cs:218-238 | the feedback is never empty, and is the praise sentence exactly when readability, complexity, documentation and style all meet their thresholds |
| Quality.ImprovementSuggestions | Services/CodeQualityAnalyzer.cs:240-257 | there are no suggestions exactly when complexity, length, naming and documentation all meet their thresholds, and a complexity above 15 puts the split advice first |
| Quality.AnalyzeCodeQuality | Services/CodeQualityAnalyzer.cs:15-41 | the analysis as the program runs it: it fails only on code of nothing but newlines, and the complexity it stores is the as-written count, at least the code's length plus 2 |
| Quality.AnalyzeWith | Services/CodeQualityAnalyzer.cs:15-41 | for a given complexity figure: fails only on code of nothing but newlines; otherwise every score is within its range, the figure is stored, the lines of code are counted, the maintainability index is computed from the line count and that same figure, style is perfect exactly without violations, a figure above 10 rules out the praise sentence and one above 15 puts the split advice first |
| Quality.AnalyzeCodeQualityCorrected | Services/CodeQualityAnalyzer.cs:15-41 | the same analysis with the corrected complexity: it fails in the same cases and stores a complexity of at least 1 |
| Quality.AsWrittenNeverPraises | Services/CodeQualityAnalyzer.cs:18-38 | as the program runs it, code of nine or more characters never gets the praise sentence, and code of fourteen or more always gets the split advice first |
| Quality.AnalysesDifferOnlyInComplexity | Services/CodeQualityAnalyzer.cs:15-41 | the as-written and the corrected analysis fail together and agree on every metric except the complexity and what is computed from it: the maintainability index and the two texts |
| Quality.AsWrittenIndexNotAbove | Services/CodeQualityAnalyzer.cs:181-191 | the as-written analysis never stores a higher maintainability index than the corrected one |
| Quality.AsWrittenRawLower | Services/CodeQualityAnalyzer.cs:181-191 | over code lines, the as-written value before clamping is lower by 0.23 for each position the `\b\|\|\b` pattern adds |
| Quality.AsWrittenIndexLower | Services/CodeQualityAnalyzer.cs:181-191 | when the corrected value lies in 1..100 and the pattern adds at least five positions, the as-written index is strictly lower |
| ModernGrading.CorrectnessScore | Services/ModernGradingService.cs:87-94 | correctness is 0 when the test cases are worth nothing, and otherwise the earned percentage rounded to the nearest integer |
| ModernGrading.CorrectnessBounds | Services/ModernGradingService.cs:87-94 | when no more is earned than is available, correctness lies between 0 and 100, and earning everything gives 100 |
| ModernGrading.QualityScore | Services/ModernGradingService.cs:96-118 | the quality score is clamped to 0..100 and is the rounded 4:3:2:1 blend of readability, maintainability, style and documentation |
| ModernGrading.QualityScoreOfPerfectMetrics | Services/ModernGradingService.cs:102-112 | perfect metrics give a quality score of 100 |
| ModernGrading.QualityScoreMonotoneInIndex | Services/ModernGradingService.cs:102-112 | with the other components equal, a lower maintainability index never raises the quality score |
| ModernGrading.AsWrittenQualityNotAbove | Services/ModernGradingService.cs:102-112 | the as-written analysis never gives a higher quality score than the corrected one |
| ModernGrading.CountHiddenPassed | Services/ModernGradingService.cs:126-129 | counting passed hidden test cases fails exactly when a correct result has no test case, and never exceeds the passed count |
| ModernGrading.TestingScore | Services/ModernGradingService.cs:120-135 | 100 without test cases; fails exactly when a correct result lacks its test case; otherwise min(100, b + min(30, 10 × passed hidden)) for a b within one half of 70 × passed / total, so at least the hidden bonus, 0 when nothing passes and 70 plus the bonus when everything passes |
| ModernGrading.TestingScoreAllPassed | Services/ModernGradingService.cs:120-135 | passing every test case including three hidden ones gives 100 |
| ModernGrading.EfficiencyScore | Services/ModernGradingService.cs:144 | efficiency is 30 under 1000 characters, 10 from 3000 on, and always between 10 and 30 |
| ModernGrading.SimplicityScore | Services/ModernGradingService.cs:145 | simplicity is 30 under complexity 10, 10 from complexity 20 on, and always between 10 and 30 |
| ModernGrading.ApproachPartsMonotone | Services/ModernGradingService.cs:144-145 | longer or more complex code never scores higher on either part |
| ModernGrading.ApproachScore | Services/ModernGradingService.cs:137-149 | the approach score lies between 60 and 100, and is 100 for short simple code |
| ModernGrading.ApproachAsWrittenCapped | Services/ModernGradingService.cs:137-149 | with the as-written complexity the approach score of code of 18 or more characters is at most 80 |
| ModernGrading.ApproachAsWrittenDiffers | Services/ModernGradingService.cs:137-149 | straight-line code of 18 to 999 characters scores 100 with the corrected complexity but at most 80 as written |
| ModernGrading.WeightedScore | Services/ModernGradingService.cs:151-159 | the final score is within one half of the weighted sum of the four scores |
| ModernGrading.WeightedSum | Services/ModernGradingService.cs:153-158 | the exact weighted sum before rounding: each score times its weight, over 100. WeightedScore rounds it, and WeightedScoreBounds keeps in-range scores in range |
| ModernGrading.WeightedScoreBounds | Services/ModernGradingService.cs:151-159 | with scores in 0..100 and non-negative weights summing to 100, the final score lies in 0..100 |
| ModernGrading.WeightedScoreUnclamped | Services/ModernGradingService.cs:151-159 | weights summing to more than 100 give a final score above 100, since nothing clamps it |
| ModernGrading.DefaultWeightsExample | Services/ModernGradingService.cs:257-260 | under the default weights, scores 80/70/60/90 sum to 74.5, which rounds to 74 and grade 4 |
| ModernGrading.TraditionalGrade | Services/ModernGradingService.cs:161-172 | each score band maps to its grade 6, 5, 4, 3 or 2, and everything under 60 maps to 2 |
| ModernGrading.TraditionalGradeMonotone | Services/ModernGradingService.cs:161-172 | a higher final score never gets a lower grade |
| ModernGrading.DefaultCriteria | Services/ModernGradingService.cs:252-262 | the default criteria are named "Default" and their weights sum to 100 |
| ModernGrading.FindCriteriaByName | Services/ModernGradingService.cs:247-248 | the first criteria row with the name, or none exactly when no row has it |
| ModernGrading.GetDefaultCriteria | Services/ModernGradingService.cs:245-269 | an existing "Default" row is returned and nothing is stored; otherwise a fresh default row is appended and returned |
| ModernGrading.GetDefaultCriteriaIdempotent | Services/ModernGradingService.cs:245-269 | asking for the default criteria twice stores at most one row and returns the same criteria |
| ModernGrading.ResolveCriteria | Services/ModernGradingService.cs:39 | the assignment's own criteria are used when present, otherwise the defaults, and the returned criteria are in the table |
| ModernGrading.PriorResults | Services/ModernGradingService.cs:176-181 | the earlier attempts' results are exactly the grade results of other submissions by the same student for the same assignment |
| ModernGrading.PriorResultsAppend | Services/ModernGradingService.cs:176-181 | a new grade result adds to the prior results exactly when it belongs to an earlier attempt |
| ModernGrading.CalculateProgress | Services/ModernGradingService.cs:174-188 | the attempt number is one more than the earlier results; a previous score exists exactly when one does; improvement means the previous score is below the submission's score |
| ModernGrading.OtherSubmissionAddsAttempt | Services/ModernGradingService.cs:174-188 | grading another attempt raises this submission's attempt number by one and makes that newest result's final score the previous score |
| ModernGrading.OtherAttemptStep | Services/ModernGradingService.cs:174-188 | appending an earlier attempt's result adds one attempt and makes its final score the previous score |
| ModernGrading.RegradeKeepsAttemptNumber | Services/ModernGradingService.cs:176-183 | grading the same submission again does not count as a new attempt |
| ModernGrading.RegradeStep | Services/ModernGradingService.cs:176-183 | appending the submission's own result leaves its attempt number unchanged |
| ModernGrading.MetricsRowAsWritten | Services/ModernGradingService.cs:99-115 | the row added to the context has submission id 0, and is otherwise the analyzer's row |
| ModernGrading.MetricsRowAsWrittenIsOrphan | Services/ModernGradingService.cs:115 | with identity keys from 1, the row as written refers to no submission |
| ModernGrading.MetricsRow | Services/ModernGradingService.cs:115 | the corrected metrics row refers to the graded submission and is otherwise the analyzer's row |
| ModernGrading.BuildGradeResult | Services/ModernGradingService.cs:60-79 | the grade result carries the four scores, a final score within one half of their weighted sum, its traditional grade, the progress, the criteria id and "System" as calculator |
| ModernGrading.GradeWithCriteria | Services/ModernGradingService.cs:41-84 | the corrected pass: on success one metrics row and one grade result are appended for the submission. The four stored scores are the correctness, quality, testing and approach scores of the submission. The final score is the weighting of those stored scores under the given criteria. The attempt number, previous score and improvement flag are the submission's progress. No other table changes, and on failure nothing changes |
| ModernGrading.GradeFound | Services/ModernGradingService.cs:25-84 | the corrected pass touches only the criteria, metrics and grade-result tables. A successful result is well formed, stores the four dimension scores of the submission and its progress, and its final score can be rederived from its stored scores and the criteria row it names |
| ModernGrading.CalculateModernGrade | Services/ModernGradingService.cs:23-85 | the corrected pass: an unknown submission fails without change, and other tables stay intact. Success appends a well-formed grade result for the found submission. Its four scores are that submission's dimension scores, its attempt record is that submission's progress, and its final score can be rederived from the stored scores and the criteria row it names |
| GradeCalculation.Percentage | Services/GradeCalculationService.cs:37 | the percentage is 0 without maximum points, and otherwise earned times 100 over the maximum |
| GradeCalculation.PercentageMonotone | Services/GradeCalculationService.cs:37 | more points never give a lower percentage; zero points give 0 and full points 100 |
| GradeCalculation.GradeValue | Services/GradeCalculationService.cs:97-108 | each percentage band maps to its grade 6, 5, 4, 3 or 2, and everything under 60 maps to 2 |
| GradeCalculation.GradeScalesAgree | Services/GradeCalculationService.cs:97-108 | on whole scores the points scale and the modern scale give the same grade |
| GradeCalculation.GradeValueMonotone | Services/GradeCalculationService.cs:97-108 | a higher percentage never gets a lower grade |
| GradeCalculation.FindGrade | Services/GradeCalculationService.cs:43-44 | the first grade for the student and assignment, or none exactly when there is none |
| GradeCalculation.UpsertGrade | Services/GradeCalculationService.cs:43-72 | an existing grade for the pair is updated in place; otherwise a new grade with a fresh id is appended |
| GradeCalculation.UpsertKeepsOneRowPerPair | Services/GradeCalculationService.cs:43-72 | with one grade per student and assignment, an upsert keeps it so, stores the returned grade, and leaves other pairs' grades in place |
| GradeCalculation.UpsertIdempotent | Services/GradeCalculationService.cs:43-72 | repeating the same upsert changes nothing more |
| GradeCalculation.SubmissionAndAssignment | Services/GradeCalculationService.cs:20-34 | the loaded submission has the id and its assignment is the one it refers to |
| GradeCalculation.CalculateGrade | Services/GradeCalculationService.cs:18-73 | an unknown submission fails without change; otherwise only the grades table changes, and the grade for the pair holds the earned points and their grade value |
| GradeCalculation.CalculateGradeIdempotent | Services/GradeCalculationService.cs:18-73 | grading the same submission twice leaves the database and the grade as after the first time |
| GradeCalculation.UpdateSubmissionScore | Services/GradeCalculationService.cs:75-95 | an unknown submission fails; otherwise only that submission changes: its score becomes the earned points and its status Completed |
| GradeCalculation.GradesOf | Services/GradeCalculationService.cs:110-117 | the student's grades are exactly the grades table's rows for that student |
| GradeCalculation.BestValue | Services/GradeCalculationService.cs:130 | the best grade is at least every grade value and equals one of them, or 0 without grades |
| GradeCalculation.SumMaxPoints | Services/GradeCalculationService.cs:127 | summing the maximum points fails exactly when some grade refers to a missing assignment |
| GradeCalculation.StudentStatistics | Services/GradeCalculationService.cs:119-143 | the eight statistics are always present and all 0 without grades; assignment counts equal the number of grades; the percentage is 0 without maximum points; the best grade is the largest grade value |
| LegacyGradeCalculation.LegacyStudentStatistics | CodeGrade/Services/GradeCalculationService.cs:119-144 | without grades the older copy returns no statistics; otherwise it returns its six keys, with a percentage of 0 without maximum points |
| LegacyGradeCalculation.CopiesDifferWithoutGrades | CodeGrade/Services/GradeCalculationService.cs:123-126 | without grades the older copy is empty while the current one has eight zero statistics |
| LegacyGradeCalculation.CopiesAgreeOnSharedKeys | CodeGrade/Services/GradeCalculationService.cs:128-143 | with grades both copies succeed or fail together, and agree on every key of the older copy |
| Judge0.LanguageId | Services/Judge0CodeExecutorService.cs:191-209 | a language is supported exactly when its lower-cased name is in the table; its id is the table's; anything else throws "Unsupported language" |
| Judge0.LanguageIdIgnoresCase | Services/Judge0CodeExecutorService.cs:191 | names that agree up to ASCII case get the same verdict and id |
| Judge0.LanguageIdsDistinct | Services/Judge0CodeExecutorService.cs:192-207 | no two supported languages share an id |
| Judge0.Clean | Services/Judge0CodeExecutorService.cs:50-51 | cleaning a test-case text is trimming it, and a cleaned text is its own trim |
| Judge0.BuildSubmission | Services/Judge0CodeExecutorService.cs:50-61 | the request carries the code, the trimmed input, the language's id, the time limit and the memory limit in KB; an unsupported language throws |
| Judge0.SubmissionToken | Services/Judge0CodeExecutorService.cs:87-100 | the token is obtained exactly when the reply succeeds and its body parses to a token; a failing reply gives the status-and-body message, a body that does not parse throws the parser's exception, and a missing token throws "Failed to get submission token" |
| Judge0.WaitForResult | Services/Judge0CodeExecutorService.cs:211-236 | the outcome is decided at one poll; a returned result is final (status above 2); the failures are the timeout, an HTTP error, or the exception of a body that does not parse |
| Judge0.IsFinal | Services/Judge0CodeExecutorService.cs:227 | a reply is final when it parses to a result whose status id is above 2; a null body or a missing status is not. FirstFinalVerdictReturned states that the first final reply before the deadline is returned |
| Judge0.UnreadablePollThrows | Services/Judge0CodeExecutorService.cs:226 | a status body that does not parse ends the wait with the parser's exception; it is not polled again |
| Judge0.FirstFinalVerdictReturned | Services/Judge0CodeExecutorService.cs:226-230 | a final verdict on the first poll within the deadline is what comes back |
| Judge0.DetermineStatus | Services/Judge0CodeExecutorService.cs:238-250 | statuses 3, 4, 5, 6 and 8 map to their own execution status each, and every other status to a runtime error |
| Judge0.Verdict | Services/Judge0CodeExecutorService.cs:54-107 | an unsupported language throws, and a verdict is only obtained after a successful submission with a token |
| Judge0.FaultResult | Services/Judge0CodeExecutorService.cs:142-158 | a thrown fault becomes a system error with no points and carries the exception's message and type |
| Judge0.VerdictResult | Services/Judge0CodeExecutorService.cs:115-140 | a result is correct exactly when both outputs are non-empty and equal after trimming and newline normalisation, and earns the points only then |
| Judge0.OutputMatches | Services/Judge0CodeExecutorService.cs:117-122 | the outputs match when both are non-empty and equal after trimming and newline normalisation |
| Judge0.ExecuteCode | Services/Judge0CodeExecutorService.cs:36-159 | a system error arises exactly when the verdict throws; correctness is the normalised comparison of non-empty outputs; points are earned only when correct |
| Judge0.UnsupportedLanguageIsSystemError | Services/Judge0CodeExecutorService.cs:208 | an unsupported language ends as a system error with no points, its message and the exception type ArgumentException |
| Judge0.RunUntilCompilationError | Services/Judge0CodeExecutorService.cs:169-188 | the loop keeps each test case's result in order and stops just after the first compilation error |
| Judge0.ExecuteAllTestCases | Services/Judge0CodeExecutorService.cs:161-189 | each result is the execution of its test case, the run stops at the first compilation error, and the earned points never exceed those of the cases run |
| Docker.ImageName | Services/DockerCodeExecutorService.cs:183-193 | a language is supported exactly when its lower-cased name is in the image table, with that image; anything else fails with "Unsupported language" |
| Docker.ImageNameIgnoresCase | Services/DockerCodeExecutorService.cs:185 | names that agree up to ASCII case get the same image |
| Docker.CommandIgnoresSubmission | Services/DockerCodeExecutorService.cs:195-200 | the container command is the same two-word stub whatever the code and input |
| Docker.MemoryBytes | Services/DockerCodeExecutorService.cs:113 | the memory limit in bytes is a 32-bit product, exact up to 2047 MB |
| Docker.MemoryBytesWrapsAt2048 | Services/DockerCodeExecutorService.cs:113-114 | a 2048 MB limit wraps to a negative byte count |
| Docker.ContainerFor | Services/DockerCodeExecutorService.cs:97-122 | the container has the name, image and work directory, no network, a read-only root, no new privileges, swap equal to memory, and the exact memory for 1..1024 MB |
| Docker.WaitForCompletion | Services/DockerCodeExecutorService.cs:124-148 | the exit code is -1 when no inspection within the deadline saw the container exit, and otherwise an exit code seen within the deadline |
| Docker.Demux | Services/DockerCodeExecutorService.cs:159-174 | demultiplexing keeps no more lines than it reads |
| Docker.DemuxTagged | Services/DockerCodeExecutorService.cs:164-174 | tagged lines split back into the standard-output and standard-error texts, in order |
| Docker.LogsRoundTrip | Services/DockerCodeExecutorService.cs:159-180 | a log written from tagged single-line entries reads back as the newline-joined output and error texts |
| Docker.DetermineStatus | Services/DockerCodeExecutorService.cs:202-211 | the status is Passed exactly when the error text is empty, and a runtime error otherwise |
| Docker.FaultResult | Services/DockerCodeExecutorService.cs:64-76 | a thrown fault becomes a runtime error with no points and the exception's message |
| Docker.ExecuteCode | Services/DockerCodeExecutorService.cs:24-77 | correctness is the trimmed comparison of the output with the expected output; points come only with correctness; an unsupported language or a Docker fault is a runtime error |
| Docker.ExitCodeIgnored | Services/DockerCodeExecutorService.cs:43-62 | two runs with the same log and fault give the same result, whatever the inspections and exit code |
| Docker.ExecuteAllTestCases | Services/DockerCodeExecutorService.cs:79-95 | every test case is run, in order, and the earned points never exceed the available points |
| Registration.Validate | ViewModels/RegisterViewModel.cs:53-86 | a student lacking class number, class or group gets an error on that field; the teacher code is refused exactly when a teacher leaves it blank or a non-teacher fills it in |
| Registration.FailingCrossFields | ViewModels/RegisterViewModel.cs:55-85 | the failing cross-field checks are listed in the order class number, class, group, teacher code |
| Registration.ValidateReportsInOrder | ViewModels/RegisterViewModel.cs:53-86 | the validation names exactly the failing cross-field checks, each once, in order |
| Registration.NonStudentsIgnoreClassFields | ViewModels/RegisterViewModel.cs:55-71 | for any role but "Student" the class fields do not affect validation, which can only name the teacher code |
| Registration.AttributeErrors | ViewModels/RegisterViewModel.cs:7-51 | each field's attributes fail exactly under their rule: required, length 50, e-mail format, password length 8..100, matching confirmation, range 1..30 and code length 20 |
| Registration.TeacherNeedsSubGroup | ViewModels/RegisterViewModel.cs:41-43 | a teacher with a blank group is still refused by the required attribute, although the cross-field rules do not name the group |
| TeacherCodes.UsedCodeNeverActive | Models/TeacherRegistrationCode.cs:27 | a used code is never active |
| TeacherCodes.NoExpiryActiveIffUnused | Models/TeacherRegistrationCode.cs:27 | without an expiry date a code is active exactly while it is unused |
| TeacherCodes.ExpiryIsExclusive | Models/TeacherRegistrationCode.cs:27 | an unused code is active strictly before its expiry instant and not at it |
| TeacherCodes.ActiveEarlier | Models/TeacherRegistrationCode.cs:27 | a code active now was active at every earlier instant |
| TeacherCodes.IsActive | Models/TeacherRegistrationCode.cs:27 | a code is active at a given instant when it is unused and has no expiry or expires after that instant; UsedCodeNeverActive, NoExpiryActiveIffUnused and ActiveEarlier state its properties |
| AdminUsers.FullName | ViewModels/AdminUserViewModel.cs:36 | the full name is the first name, one space, and the last name |
| AdminUsers.RoleDisplay | ViewModels/AdminUserViewModel.cs:37 | no roles display as empty, and a single role as itself |
| AdminUsers.RoleDisplayEmpty | ViewModels/AdminUserViewModel.cs:37 | the role list reads empty only with no role or a single empty one |
| AdminUsers.Entry | ViewModels/AdminUserViewModel.cs:157 | a summary entry ends with a space and the counted noun |
| AdminUsers.PositiveEntries | ViewModels/AdminUserViewModel.cs:154-163 | there is one entry per positive count |
| AdminUsers.PositiveEntriesAt | ViewModels/AdminUserViewModel.cs:154-163 | each positive count's entry sits after the entries of the positive counts before it |
| AdminUsers.PositiveEntriesOnly | ViewModels/AdminUserViewModel.cs:154-163 | every entry comes from some positive count |
| AdminUsers.NoEntriesIffNonePositive | ViewModels/AdminUserViewModel.cs:154-163 | there are no entries exactly when no count is positive |
| AdminUsers.SummaryEmptyIffNoDependencies | ViewModels/AdminUserViewModel.cs:149-166 | the summary is empty exactly when the user has no dependencies |
| AdminUsers.GradesComeFirst | ViewModels/AdminUserViewModel.cs:156-157 | when there are grades, the summary opens with their entry |
| AdminUsers.HasDependencies | ViewModels/AdminUserViewModel.cs:149-150 | a user has dependencies when any of the four counts is positive |
| AdminUsers.DependenciesSummary | ViewModels/AdminUserViewModel.cs:152-166 | the entries of the positive counts in the order grades, submissions, execution results, assignments, joined with ", "; SummaryEmptyIffNoDependencies and GradesComeFirst state its properties |
| Assignments.Filter | Controllers/AssignmentsController.cs:35 | the kept items are exactly the items satisfying the condition |
| Assignments.SortBy | Controllers/AssignmentsController.cs:54 | the ordered list is sorted by the key and is a permutation of the input |
| Assignments.StudentAssignments | Controllers/AssignmentsController.cs:51-55 | a student sees exactly the active assignments not yet due, earliest due date first |
| Assignments.TeacherAssignments | Controllers/AssignmentsController.cs:33-37 | a teacher sees exactly their own assignments, newest first |
| Assignments.Index | Controllers/AssignmentsController.cs:22-61 | teachers get their list, students the open list, a missing profile gives not found, and anyone else is forbidden |
| Assignments.PublicTestCases | Controllers/AssignmentsController.cs:106 | a student sees exactly the test cases that are not hidden |
| Assignments.TimeRemaining | Controllers/AssignmentsController.cs:123-125 | an assignment that is due reads "expired", and otherwise a non-negative number of days |
| Assignments.Details | Controllers/AssignmentsController.cs:64-131 | an unknown id is not found. A teacher sees only their own assignment, and the owner always gets the teacher view. A student sees only an active one, and a student with a profile always does. The student view lists exactly the assignment's non-hidden test cases, and sets the submit flag exactly before the due date |
| Assignments.Owned | Controllers/AssignmentsController.cs:230-232 | the index of the caller's own assignment with the id, or none exactly when the caller has none |
| Assignments.OwnedBy | Controllers/AssignmentsController.cs:279-281 | an assignment is reachable for editing only when it has the id and belongs to the calling teacher |
| Assignments.OthersAssignmentsUnreachable | Controllers/AssignmentsController.cs:340-343 | an assignment of another teacher can never be edited or deleted |
| Assignments.Kept | Controllers/AssignmentsController.cs:196-207 | exactly the test-case rows with an input are kept |
| Assignments.NewTestCases | Controllers/AssignmentsController.cs:196-207 | each kept row becomes a test case of the assignment with its input, output, points and visibility and a fresh id |
| Assignments.StoredIffInputGiven | Controllers/AssignmentsController.cs:306-317 | a form row is stored exactly when its input is non-empty |
| Assignments.OtherTestCases | Controllers/AssignmentsController.cs:304-305 | removing an assignment's test cases keeps exactly the other assignments' ones |
| Assignments.TestCasesOfAppend | Controllers/AssignmentsController.cs:306-317 | an assignment's test cases in two appended tables are its test cases in each, in order |
| Assignments.OtherTestCasesOf | Controllers/AssignmentsController.cs:304-305 | after removal the assignment has no test cases and every other assignment keeps its own |
| Assignments.TestCasesOfUniform | Controllers/AssignmentsController.cs:196-207 | a table of one assignment's test cases belongs wholly to it |
| Assignments.Create | Controllers/AssignmentsController.cs:162-216 | a caller without a teacher profile gets not found and an invalid form is shown again, both without change; otherwise one assignment holding the form, with a fresh id and its test cases, is appended and nothing else changes |
| Assignments.FormOf | Controllers/AssignmentsController.cs:239-260 | the edit form holds the assignment's fields and one row per stored test case |
| Assignments.EditForm | Controllers/AssignmentsController.cs:220-263 | the edit page is not found exactly when the assignment is not the caller's own |
| Assignments.Edit | Controllers/AssignmentsController.cs:269-326 | only the caller's own assignment is updated, only with a valid form, and only its nine form fields change; other assignments and other tables stay as they were |
| Assignments.EditReplacesTestCases | Controllers/AssignmentsController.cs:304-317 | after an edit the assignment's test cases are exactly the form's non-empty rows, and other assignments keep theirs |
| Assignments.EditRoundTrip | Controllers/AssignmentsController.cs:220-326 | posting back the unchanged edit form leaves the assignments as they were |
| Assignments.ConfirmDelete | Controllers/AssignmentsController.cs:330-351 | the confirmation page is not found exactly when the assignment is not the caller's own |
| Assignments.Removed | Data/ApplicationDbContext.cs:62-143 | deleting an assignment removes exactly it, its test cases, submissions and grades, and the grade results and quality metrics of its submissions; every other row stays, and the criteria table is unchanged |
| Assignments.DeleteConfirmed | Controllers/AssignmentsController.cs:357-378 | the caller's own assignment is removed together with exactly its dependent rows: test cases, submissions, grades, and its submissions' grade results and quality metrics. Every other row and the criteria table stay. Another teacher's assignment, or a caller without a teacher record, leaves the store unchanged |
| Assignments.Submit | Controllers/AssignmentsController.cs:384-434 | a submission is stored exactly for a student, an open assignment and a valid form; it is pending, holds the code, language and time, and is the only change |
| Assignments.SubmitGateMatchesList | Controllers/AssignmentsController.cs:404-408 | an assignment accepts submissions exactly when it is on the student's list |
| Assignments.CanSubmit | Controllers/AssignmentsController.cs:122 | the details page allows submitting strictly before the due date; SubmitGateMatchesList ties it to the list page |

## Left out

- Logging, HTTP, Docker and database I/O are left out. They become parameters: the executor replies and inspections, the log text, and the database as a value.
- Clocks, GUID container names and delays are left out: times and elapsed milliseconds are given.
- Progress and status callbacks are left out: they have no effect on results.
- Floating point is modelled on exact reals. `double` rounding, the `decimal` grade column's precision and the `Math.Log` inside the maintainability index are not modelled. `Math.Log` is the parameter `ln` of the analysis and the grading pass. Only its value at the code's line count is used, and the maintainability index depends on the complexity figure as the program's formula does.
- Regular-expression semantics are left out. Matches come from an abstract engine that is applied to the source's patterns.
- Quality.Naming: states bounds and the single-letter rule, not the exact ratio, because the ratio depends on the abstract regex engine's matches.
- Quality.Documentation: states bounds and the empty case, not the documented ratio, for the same reason.
- The text feedback of the modern grading pass is left out, because it is prose. The grade result carries no feedback texts.
- JSON serialisation and deserialisation of the Judge0 messages are left out. A reply carries what reading its body gives: the parsed value, `null`, or the exception of a body that does not parse.
- Null and empty strings are folded together, and both are written as the empty string. Form values are taken after model binding, which turns empty and whitespace-only fields into null. So a form row whose input holds only white space reaches `Assignments.Kept` as an empty input, and a whitespace-only sub-group reaches `Registration.Validate` as an empty one.
- `ToLower` is modelled for ASCII letters only. Culture-specific case mapping is left out.
- Strings are sequences of Unicode scalar values, while .NET's `Length` counts UTF-16 code units. Text with characters outside the Basic Multilingual Plane therefore has a smaller length here. That affects the code length in the approach score and its 1000-character cut, the line-length averages, the as-written complexity's length term, the registration length limits and the name-length test. `char.IsDigit` in the name test is modelled as the ASCII digits. `StartsWith` with a string argument is culture-sensitive in .NET and is ordinal here.
- How MVC merges the attribute errors with `Validate`'s errors is left out. Both are modelled, as `Registration.AttributeErrors` and `Registration.Validate`.
- Assignments.Details: the student's own submissions list on the details page, newest first, is not part of the view model here.
- Assignments.SortBy: proved sorted and a permutation of the input. That `OrderBy` is stable is not stated.
- Assignments.Create: the view-model attribute validation is the parameter `valid`. The form's class-group and language fields are not stored, as in the source.
- GradeWithCriteria: grades with the corrected pass (Quality.AnalyzeCodeQualityCorrected and Quality.Complexity for the approach score, MetricsRow for the stored row). The program uses the as-written complexity and a metrics row with submission id 0; the Findings table gives both bugs. Quality.AnalyzeCodeQuality, ApproachAsWrittenCapped and MetricsRowAsWritten state what the program does instead.
- GradeFound: the same corrected pass as GradeWithCriteria, for the same reason.
- CalculateModernGrade: the same corrected pass as GradeWithCriteria, for the same reason.
- Foreign keys with `Restrict` delete behaviour are left out, and so are the checks the database makes when changes are saved.
- Looking up the teacher or student profile by user id is left out. The caller's profile ids are given.
- The attributes of the teacher registration code model and of the administrator's create and edit forms are left out, because they are only display metadata.
- The e-mail sender, the home, grades and submissions controllers, seeding and migrations are outside the grading core, so they are not part of this model.

## Findings

| source | as written | input that shows it | evidently intended | confidence | as-written member | corrected member |
|---|---|---|---|---|---|---|
| Services/CodeQualityAnalyzer.cs:46-51 | the keyword `\|\|` is pasted into the pattern `\b{keyword}\b` unescaped. This gives `\b\|\|\b`, an alternation with an empty branch, which matches at every position of the code | the code `int x = 1;` has complexity 12 instead of 1, and every submission of nine or more characters counts as "complex". The inflated figure also lowers the maintainability index by 0.23 per character, and through it the quality score |  count each `\|\|` operator once, like `&&` | high, not executed | Quality.ComplexityAsWritten (see Quality.ComplexityAsWrittenFlagsStraightLineCode, Quality.AsWrittenNeverPraises, Quality.AsWrittenIndexNotAbove, Quality.AsWrittenIndexLower, ModernGrading.AsWrittenQualityNotAbove, ModernGrading.ApproachAsWrittenCapped) | Quality.Complexity |
| Services/ModernGradingService.cs:99-115 | the analyzer's metrics row is added to the context without setting its submission id, so it refers to submission 0. The row's submission is a required foreign key (Data/ApplicationDbContext.cs:139-143), so on a database that enforces keys the save at line 82 fails. Then neither the metrics row nor the grade result is stored, and only the default criteria row saved earlier remains | any graded submission: its metrics row refers to submission 0, and no such submission exists | store the row for the graded submission | medium, not executed | ModernGrading.MetricsRowAsWritten (see ModernGrading.MetricsRowAsWrittenIsOrphan) | ModernGrading.MetricsRow |
