/**
 * The display helpers of the administrator's user views: the full name, the role
 * list, and the summary of what still refers to a user before it can be deleted.
 */
module AdminUsers {
  import opened Text

  datatype AdminUser = AdminUser(
    id: string,
    firstName: string,
    lastName: string,
    email: string,
    userName: string,
    isActive: bool,
    roles: seq<string>)

  /** How many rows of each kind still refer to a user. */
  datatype UserDependenciesInfo = UserDependenciesInfo(
    isStudent: bool,
    isTeacher: bool,
    gradesCount: int,
    submissionsCount: int,
    executionResultsCount: int,
    assignmentsCount: int)

  /** `FullName`: first and last name with one space between them. */
  function FullName(u: AdminUser): (r: string)
    ensures |r| == |u.firstName| + 1 + |u.lastName|
    ensures r[..|u.firstName|] == u.firstName && r[|u.firstName|] == ' ' && r[|u.firstName| + 1..] == u.lastName
  {
    u.firstName + " " + u.lastName
  }

  /** `RoleDisplay`: the roles joined with ", ". */
  function RoleDisplay(u: AdminUser): (r: string)
    ensures u.roles == [] ==> r == []
    ensures |u.roles| == 1 ==> r == u.roles[0]
  {
    Join(", ", u.roles)
  }

  /** The role list reads empty only when there is no role, or a single empty one. */
  lemma RoleDisplayEmpty(u: AdminUser)
    ensures RoleDisplay(u) == [] <==> u.roles == [] || (|u.roles| == 1 && u.roles[0] == [])
  {
    if |u.roles| > 1 {
      JoinLength(", ", u.roles);
    }
  }

  /** `HasDependencies`: some grade, submission, execution result or assignment still refers to the user. */
  predicate HasDependencies(info: UserDependenciesInfo) {
    info.gradesCount > 0 || info.submissionsCount > 0
    || info.executionResultsCount > 0 || info.assignmentsCount > 0
  }

  const GradesLabel := "оценки"
  const SubmissionsLabel := "решения"
  const ExecutionResultsLabel := "резултати от изпълнение"
  const AssignmentsLabel := "задачи"

  /** One part of the summary: the count, a space, and what is counted. */
  function Entry(count: int, noun: string): (r: string)
    ensures |r| > |noun| && r[|r| - |noun|..] == noun && r[|r| - |noun| - 1] == ' '
  {
    IntToString(count) + " " + noun
  }

  /** How many of the counts are positive. */
  function PositiveCount(counts: seq<int>): (n: nat)
    ensures n <= |counts|
  {
    if counts == [] then 0 else (if counts[0] > 0 then 1 else 0) + PositiveCount(counts[1..])
  }

  /** The entries of the positive counts, in the order of the counts. */
  function PositiveEntries(counts: seq<int>, labels: seq<string>): (r: seq<string>)
    requires |counts| == |labels|
    ensures |r| == PositiveCount(counts)
  {
    if counts == [] then []
    else (if counts[0] > 0 then [Entry(counts[0], labels[0])] else []) + PositiveEntries(counts[1..], labels[1..])
  }

  /**
   * Each positive count has its entry at the position given by the number of positive
   * counts before it; with the length above this fixes every entry and their order.
   */
  lemma {:induction false} PositiveEntriesAt(counts: seq<int>, labels: seq<string>, i: nat)
    requires |counts| == |labels| && i < |counts| && counts[i] > 0
    ensures PositiveCount(counts[..i]) < |PositiveEntries(counts, labels)|
    ensures PositiveEntries(counts, labels)[PositiveCount(counts[..i])] == Entry(counts[i], labels[i])
  {
    var head := if counts[0] > 0 then [Entry(counts[0], labels[0])] else [];
    assert PositiveEntries(counts, labels) == head + PositiveEntries(counts[1..], labels[1..]);
    if i == 0 {
      assert counts[..0] == [];
    } else {
      PositiveEntriesAt(counts[1..], labels[1..], i - 1);
      assert counts[..i][1..] == counts[1..][..i - 1];
      assert PositiveCount(counts[..i]) == |head| + PositiveCount(counts[1..][..i - 1]);
    }
  }

  /** Every entry belongs to some positive count. */
  lemma {:induction false} PositiveEntriesOnly(counts: seq<int>, labels: seq<string>, k: nat)
    requires |counts| == |labels| && k < |PositiveEntries(counts, labels)|
    ensures exists i :: 0 <= i < |counts| && counts[i] > 0 && PositiveEntries(counts, labels)[k] == Entry(counts[i], labels[i])
  {
    var head := if counts[0] > 0 then [Entry(counts[0], labels[0])] else [];
    var r := PositiveEntries(counts, labels);
    assert r == head + PositiveEntries(counts[1..], labels[1..]);
    if k < |head| {
      assert counts[0] > 0 && r[k] == Entry(counts[0], labels[0]);
    } else {
      PositiveEntriesOnly(counts[1..], labels[1..], k - |head|);
      var i :| 0 <= i < |counts[1..]| && counts[1..][i] > 0
        && PositiveEntries(counts[1..], labels[1..])[k - |head|] == Entry(counts[1..][i], labels[1..][i]);
      assert counts[i + 1] > 0 && r[k] == Entry(counts[i + 1], labels[i + 1]);
    }
  }

  /** There is no entry exactly when no count is positive. */
  lemma {:induction false} NoEntriesIffNonePositive(counts: seq<int>, labels: seq<string>)
    requires |counts| == |labels|
    ensures PositiveEntries(counts, labels) == [] <==> forall i :: 0 <= i < |counts| ==> counts[i] <= 0
  {
    if counts != [] {
      NoEntriesIffNonePositive(counts[1..], labels[1..]);
      assert forall i :: 1 <= i < |counts| ==> counts[i] == counts[1..][i - 1];
    }
  }

  function Counts(info: UserDependenciesInfo): seq<int> {
    [info.gradesCount, info.submissionsCount, info.executionResultsCount, info.assignmentsCount]
  }

  const Labels: seq<string> := [GradesLabel, SubmissionsLabel, ExecutionResultsLabel, AssignmentsLabel]

  /** `GetDependenciesSummary`: the entries of the positive counts, joined with ", ". */
  function DependenciesSummary(info: UserDependenciesInfo): string {
    Join(", ", PositiveEntries(Counts(info), Labels))
  }

  /** The summary is empty exactly when the user has no dependencies. */
  lemma SummaryEmptyIffNoDependencies(info: UserDependenciesInfo)
    ensures DependenciesSummary(info) == [] <==> !HasDependencies(info)
  {
    var parts := PositiveEntries(Counts(info), Labels);
    NoEntriesIffNonePositive(Counts(info), Labels);
    if parts != [] {
      JoinLength(", ", parts);
      PositiveEntriesOnly(Counts(info), Labels, 0);
      assert |parts[0]| > 0;
    } else {
      var counts := Counts(info);
      assert counts[0] <= 0 && counts[1] <= 0 && counts[2] <= 0 && counts[3] <= 0;
    }
  }

  /** The grades entry, when there is one, always opens the summary. */
  lemma GradesComeFirst(info: UserDependenciesInfo)
    requires info.gradesCount > 0
    ensures StartsWith(DependenciesSummary(info), Entry(info.gradesCount, GradesLabel))
  {
    PositiveEntriesAt(Counts(info), Labels, 0);
  }
}
