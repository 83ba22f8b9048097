/**
 * The pure rules of the assignments controller: which assignments a caller sees,
 * who may open, edit or delete one, how the test cases of the form are stored on
 * create and edit, and when a student may submit. The store is `Models.Db`; the
 * caller's teacher or student record, the form's validity and the clock are
 * parameters. Instants are ticks of 100 ns.
 */
module Assignments {
  import opened Wrappers
  import opened Text
  import opened Models

  /** The signed-in user: roles and the ids of the teacher and student rows linked to the account. */
  datatype Caller = Caller(roles: set<string>, teacherId: Option<int>, studentId: Option<int>)

  predicate IsTeacher(c: Caller) { "Teacher" in c.roles }
  predicate IsStudent(c: Caller) { "Student" in c.roles }

  /** One test-case row of the assignment form. An empty input stands for a missing one too. */
  datatype TestCaseForm = TestCaseForm(id: int, input: string, expectedOutput: string, points: int, isHidden: bool)

  /** The assignment form's fields that reach the store. */
  datatype AssignmentForm = AssignmentForm(
    title: string,
    description: Option<string>,
    problemStatement: string,
    subjectModuleId: int,
    dueDate: int,
    maxPoints: int,
    timeLimit: int,
    memoryLimit: int,
    isActive: bool,
    testCases: seq<TestCaseForm>)

  /** The one-shot message shown after a redirect. */
  datatype Flash = NoMessage | SuccessMessage(text: string) | ErrorMessage(text: string)

  /** What an action answers. */
  datatype Response =
    | NotFound
    | Forbid
    | ShowForm
    | ToIndex(flash: Flash)
    | ToDetails(assignmentId: int, flash: Flash)
    | AssignmentList(assignments: seq<Assignment>)
    | TeacherView(assignment: Assignment)
    | StudentView(assignment: Assignment, publicTestCases: seq<TestCase>, canSubmit: bool, timeRemaining: string)
    | EditView(assignmentId: int, form: AssignmentForm)

  /** The store after an action and the action's answer. */
  datatype Reply = Reply(db: Db, response: Response)

  const Created := "Задачата е създадена успешно!"
  const Updated := "Задачата е обновена успешно!"
  const Deleted := "Задачата е изтрита успешно!"
  const Submitted := "Решението е подадено успешно! Обработването ще започне скоро."
  const SubmitClosed := "Задачата е неактивна или крайният срок е изтекъл."
  const SubmitFailed := "Грешка при подаването на решението."
  const Expired := "Изтекъл"
  const DaysSuffix := " дни"

  const TicksPerDay: int := 864_000_000_000

  // ---------------------------------------------------------------------------
  // Filtering and ordering

  /** The elements of `xs` that `keep` accepts, in their order (`Where`). */
  function Filter<T(!new)>(xs: seq<T>, keep: T -> bool): (r: seq<T>)
    ensures |r| <= |xs|
    ensures forall x :: x in r <==> x in xs && keep(x)
    ensures forall i :: 0 <= i < |r| ==> keep(r[i])
  {
    if xs == [] then []
    else (if keep(xs[0]) then [xs[0]] else []) + Filter(xs[1..], keep)
  }

  /** `xs` is in non-decreasing order of `key`. */
  predicate SortedBy(xs: seq<Assignment>, key: Assignment -> int) {
    forall i, j :: 0 <= i < j < |xs| ==> key(xs[i]) <= key(xs[j])
  }

  /** Putting an element no larger than the head in front keeps the order. */
  lemma SortedCons(h: Assignment, t: seq<Assignment>, key: Assignment -> int)
    requires SortedBy(t, key) && (t == [] || key(h) <= key(t[0]))
    ensures SortedBy([h] + t, key)
  {
    var r := [h] + t;
    forall i, j | 0 <= i < j < |r|
      ensures key(r[i]) <= key(r[j])
    {
      if i == 0 {
        assert r[j] == t[j - 1];
        assert key(t[0]) <= key(t[j - 1]) || j == 1;
      } else {
        assert r[i] == t[i - 1] && r[j] == t[j - 1];
      }
    }
  }

  /** Inserts `x` before the first element whose key is not below its own. */
  function InsertBy(x: Assignment, xs: seq<Assignment>, key: Assignment -> int): (r: seq<Assignment>)
    requires SortedBy(xs, key)
    ensures SortedBy(r, key)
    ensures multiset(r) == multiset(xs) + multiset{x}
    ensures r[0] == x || (xs != [] && r[0] == xs[0])
  {
    if xs == [] || key(x) <= key(xs[0]) then
      SortedCons(x, xs, key);
      [x] + xs
    else
      var rest := InsertBy(x, xs[1..], key);
      assert xs == [xs[0]] + xs[1..];
      assert |xs| > 1 ==> key(xs[0]) <= key(xs[1]);
      SortedCons(xs[0], rest, key);
      [xs[0]] + rest
  }

  /**
   * `OrderBy(key)`: a stable sort. An element is inserted ahead of the equal keys
   * that follow it in the input, so ties keep their input order.
   */
  function SortBy(xs: seq<Assignment>, key: Assignment -> int): (r: seq<Assignment>)
    ensures SortedBy(r, key)
    ensures multiset(r) == multiset(xs)
  {
    if xs == [] then []
    else
      assert xs == [xs[0]] + xs[1..];
      InsertBy(xs[0], SortBy(xs[1..], key), key)
  }

  // ---------------------------------------------------------------------------
  // Lists and views

  /** `a` is open for students at `now`: active and not yet due. */
  predicate Open(a: Assignment, now: int) {
    a.isActive && a.dueDate > now
  }

  /** The sort key of the student list. */
  function DueDate(a: Assignment): int { a.dueDate }

  /** The sort key of the teacher list: later creation sorts first. */
  function NewestFirst(a: Assignment): int { -a.createdAt }

  /** The student list (lines 51-55): the open assignments by due date, earliest first. */
  function StudentAssignments(xs: seq<Assignment>, now: int): (r: seq<Assignment>)
    ensures forall a :: a in r <==> a in xs && Open(a, now)
    ensures SortedBy(r, DueDate)
  {
    var open := Filter(xs, (a: Assignment) => Open(a, now));
    var r := SortBy(open, DueDate);
    assert forall a :: a in r <==> a in multiset(open);
    r
  }

  /** The teacher list (lines 33-37): the caller's own assignments, newest first. */
  function TeacherAssignments(xs: seq<Assignment>, teacherId: int): (r: seq<Assignment>)
    ensures forall a :: a in r <==> a in xs && a.teacherId == teacherId
    ensures forall i, j :: 0 <= i < j < |r| ==> r[i].createdAt >= r[j].createdAt
  {
    var own := Filter(xs, (a: Assignment) => a.teacherId == teacherId);
    var r := SortBy(own, NewestFirst);
    assert forall a :: a in r <==> a in multiset(own);
    forall i, j | 0 <= i < j < |r|
      ensures r[i].createdAt >= r[j].createdAt
    {
      assert NewestFirst(r[i]) <= NewestFirst(r[j]);
    }
    r
  }

  /** `Index`: the list for a teacher, else for a student, else refused. */
  function Index(db: Db, caller: Caller, now: int): (r: Response)
    ensures IsTeacher(caller) && caller.teacherId.Some? ==>
      r == AssignmentList(TeacherAssignments(db.assignments, caller.teacherId.value))
    ensures !IsTeacher(caller) && IsStudent(caller) && caller.studentId.Some? ==>
      r == AssignmentList(StudentAssignments(db.assignments, now))
    ensures r.NotFound? <==> (IsTeacher(caller) && caller.teacherId.None?) || (!IsTeacher(caller) && IsStudent(caller) && caller.studentId.None?)
    ensures r.Forbid? <==> !IsTeacher(caller) && !IsStudent(caller)
  {
    if IsTeacher(caller) then
      if caller.teacherId.None? then NotFound
      else AssignmentList(TeacherAssignments(db.assignments, caller.teacherId.value))
    else if IsStudent(caller) then
      if caller.studentId.None? then NotFound
      else AssignmentList(StudentAssignments(db.assignments, now))
    else Forbid
  }

  /** The test cases a student sees (line 106): the ones that are not hidden, in order. */
  function PublicTestCases(tcs: seq<TestCase>): (r: seq<TestCase>)
    ensures forall t :: t in r <==> t in tcs && !t.isHidden
  {
    Filter(tcs, (t: TestCase) => !t.isHidden)
  }

  /** `CanSubmit` (line 122): strictly before the due date. */
  predicate CanSubmit(a: Assignment, now: int) {
    a.dueDate > now
  }

  /** `TimeRemaining` (lines 123-125): whole days left, or "expired" once due. */
  function TimeRemaining(a: Assignment, now: int): (r: string)
    ensures !CanSubmit(a, now) ==> r == Expired
    ensures CanSubmit(a, now) ==> |r| > |DaysSuffix| && r[|r| - |DaysSuffix|..] == DaysSuffix && r[0] != '-'
  {
    if a.dueDate > now then IntToString((a.dueDate - now) / TicksPerDay) + DaysSuffix else Expired
  }

  /** `Details` (lines 64-131): the owner's view for a teacher, the public view of an active assignment for a student. */
  function Details(db: Db, caller: Caller, id: int, now: int): (r: Response)
    ensures FindAssignment(db.assignments, id).None? ==> r == NotFound
    ensures r.TeacherView? ==> IsTeacher(caller) && caller.teacherId == Some(r.assignment.teacherId) && r.assignment.id == id
    ensures r.StudentView? ==>
      !IsTeacher(caller) && IsStudent(caller) && r.assignment.isActive && r.assignment.id == id
      && (forall t :: t in r.publicTestCases ==> !t.isHidden && t.assignmentId == id && t in db.testCases)
      && (r.canSubmit <==> r.assignment.dueDate > now)
    ensures (IsStudent(caller) && !IsTeacher(caller) && FindAssignment(db.assignments, id).Some?
      && !db.assignments[FindAssignment(db.assignments, id).value].isActive) ==> r == Forbid
    ensures r.StudentView? ==>
      forall t :: t in r.publicTestCases <==> t in db.testCases && t.assignmentId == id && !t.isHidden
    ensures (FindAssignment(db.assignments, id).Some? && IsTeacher(caller)
      && caller.teacherId == Some(db.assignments[FindAssignment(db.assignments, id).value].teacherId)) ==>
      r == TeacherView(db.assignments[FindAssignment(db.assignments, id).value])
    ensures (FindAssignment(db.assignments, id).Some? && !IsTeacher(caller) && IsStudent(caller)
      && db.assignments[FindAssignment(db.assignments, id).value].isActive && caller.studentId.Some?) ==>
      r.StudentView? && r.assignment == db.assignments[FindAssignment(db.assignments, id).value]
  {
    match FindAssignment(db.assignments, id)
    case None => NotFound
    case Some(k) =>
      var a := db.assignments[k];
      if IsTeacher(caller) then
        if caller.teacherId.None? || a.teacherId != caller.teacherId.value then Forbid
        else TeacherView(a)
      else if IsStudent(caller) then
        if !a.isActive then Forbid
        else if caller.studentId.None? then NotFound
        else StudentView(a, PublicTestCases(TestCasesOf(db.testCases, a.id)), CanSubmit(a, now), TimeRemaining(a, now))
      else Forbid
  }

  // ---------------------------------------------------------------------------
  // Ownership

  /** The index of the assignment `id` when it belongs to `teacherId` (`a.Id == id && a.TeacherId == teacher.Id`). */
  function Owned(xs: seq<Assignment>, id: int, teacherId: int): (r: Option<nat>)
    ensures r.Some? ==> r.value < |xs| && xs[r.value].id == id && xs[r.value].teacherId == teacherId
    ensures r.Some? ==> forall k :: 0 <= k < r.value ==> !(xs[k].id == id && xs[k].teacherId == teacherId)
    ensures r.None? ==> forall k :: 0 <= k < |xs| ==> !(xs[k].id == id && xs[k].teacherId == teacherId)
  {
    FindFirst(xs, (a: Assignment) => a.id == id && a.teacherId == teacherId)
  }

  /** The caller's own assignment `id`, when the caller has a teacher record and owns it. */
  function OwnedBy(db: Db, caller: Caller, id: int): (r: Option<nat>)
    ensures r.Some? ==> (caller.teacherId.Some? && r.value < |db.assignments|
      && db.assignments[r.value].id == id && db.assignments[r.value].teacherId == caller.teacherId.value)
    ensures r.None? && caller.teacherId.Some? ==>
      forall k :: 0 <= k < |db.assignments| ==> !(db.assignments[k].id == id && db.assignments[k].teacherId == caller.teacherId.value)
  {
    if caller.teacherId.None? then None else Owned(db.assignments, id, caller.teacherId.value)
  }

  /** Another teacher's assignment is never found for editing or deleting. */
  lemma OthersAssignmentsUnreachable(db: Db, caller: Caller, id: int)
    requires forall k :: 0 <= k < |db.assignments| && db.assignments[k].id == id ==> Some(db.assignments[k].teacherId) != caller.teacherId
    ensures OwnedBy(db, caller, id).None?
  {
  }

  // ---------------------------------------------------------------------------
  // Test cases from the form

  /** The form rows that are stored: those with a non-empty input (`!string.IsNullOrEmpty(tc.Input)`). */
  function Kept(forms: seq<TestCaseForm>): (r: seq<TestCaseForm>)
    ensures |r| <= |forms|
    ensures forall f :: f in r <==> f in forms && f.input != []
  {
    Filter(forms, (f: TestCaseForm) => f.input != [])
  }

  /** The stored test case carries the row's input, expected output, points and visibility. */
  predicate Copies(t: TestCase, f: TestCaseForm) {
    t.input == f.input && t.expectedOutput == f.expectedOutput && t.points == f.points && t.isHidden == f.isHidden
  }

  /** The test cases stored for `assignmentId` from the form rows, with identity keys from `firstId` on. */
  function NewTestCases(assignmentId: int, forms: seq<TestCaseForm>, firstId: int): (r: seq<TestCase>)
    ensures |r| == |Kept(forms)|
    ensures forall i :: 0 <= i < |r| ==>
      Copies(r[i], Kept(forms)[i]) && r[i].assignmentId == assignmentId && r[i].id == firstId + i && r[i].description.None?
  {
    var kept := Kept(forms);
    seq(|kept|, i requires 0 <= i < |kept| =>
      TestCase(firstId + i, assignmentId, kept[i].input, kept[i].expectedOutput, kept[i].points, kept[i].isHidden, None))
  }

  /** A form row is stored exactly when its input is non-empty; rows with an empty input are dropped silently. */
  lemma StoredIffInputGiven(assignmentId: int, forms: seq<TestCaseForm>, firstId: int, f: TestCaseForm)
    requires f in forms
    ensures (exists t :: t in NewTestCases(assignmentId, forms, firstId) && Copies(t, f)) <==> f.input != []
  {
    var r := NewTestCases(assignmentId, forms, firstId);
    var kept := Kept(forms);
    if f.input != [] {
      assert f in kept;
      var i :| 0 <= i < |kept| && kept[i] == f;
      assert r[i] in r && Copies(r[i], f);
    } else {
      forall t | t in r
        ensures !Copies(t, f)
      {
        var i :| 0 <= i < |r| && r[i] == t;
        assert kept[i] in kept;
      }
    }
  }

  function TestCaseIds(tcs: seq<TestCase>): seq<int> {
    Ids(tcs, (t: TestCase) => t.id)
  }

  function AssignmentIds(xs: seq<Assignment>): seq<int> {
    Ids(xs, (a: Assignment) => a.id)
  }

  function SubmissionIds(xs: seq<Submission>): seq<int> {
    Ids(xs, (s: Submission) => s.id)
  }

  /** The test cases that do not belong to `assignmentId` (what `RemoveRange(assignment.TestCases)` leaves). */
  function OtherTestCases(tcs: seq<TestCase>, assignmentId: int): (r: seq<TestCase>)
    ensures forall t :: t in r <==> t in tcs && t.assignmentId != assignmentId
  {
    if tcs == [] then []
    else (if tcs[0].assignmentId != assignmentId then [tcs[0]] else []) + OtherTestCases(tcs[1..], assignmentId)
  }

  lemma {:induction false} TestCasesOfAppend(a: seq<TestCase>, b: seq<TestCase>, id: int)
    ensures TestCasesOf(a + b, id) == TestCasesOf(a, id) + TestCasesOf(b, id)
  {
    if a == [] {
      assert a + b == b;
    } else {
      assert (a + b)[1..] == a[1..] + b;
      TestCasesOfAppend(a[1..], b, id);
    }
  }

  /** Removing one assignment's test cases leaves every other assignment's list as it was. */
  lemma {:induction false} OtherTestCasesOf(tcs: seq<TestCase>, removed: int, id: int)
    ensures TestCasesOf(OtherTestCases(tcs, removed), id) == if id == removed then [] else TestCasesOf(tcs, id)
  {
    if tcs != [] {
      var head := if tcs[0].assignmentId != removed then [tcs[0]] else [];
      TestCasesOfAppend(head, OtherTestCases(tcs[1..], removed), id);
      OtherTestCasesOf(tcs[1..], removed, id);
    }
  }

  /** A list whose every row belongs to `owner` is its own `owner` list and contributes nothing to another. */
  lemma {:induction false} TestCasesOfUniform(tcs: seq<TestCase>, owner: int, id: int)
    requires forall i :: 0 <= i < |tcs| ==> tcs[i].assignmentId == owner
    ensures TestCasesOf(tcs, id) == if id == owner then tcs else []
  {
    if tcs != [] {
      TestCasesOfUniform(tcs[1..], owner, id);
      assert tcs == [tcs[0]] + tcs[1..];
    }
  }

  // ---------------------------------------------------------------------------
  // Create, edit, delete

  /** The assignment stored from the form, owned by `teacherId`. */
  function FromForm(id: int, teacherId: int, form: AssignmentForm, now: int): Assignment {
    Assignment(id, form.title, form.description, form.problemStatement, form.subjectModuleId, teacherId,
      form.dueDate, form.maxPoints, form.timeLimit, form.memoryLimit, form.isActive, now, None)
  }

  /** The nine fields `Edit` takes from the form (lines 293-301) hold the form's values. */
  predicate HoldsForm(a: Assignment, form: AssignmentForm) {
    a.title == form.title && a.description == form.description && a.problemStatement == form.problemStatement
    && a.subjectModuleId == form.subjectModuleId && a.dueDate == form.dueDate && a.maxPoints == form.maxPoints
    && a.timeLimit == form.timeLimit && a.memoryLimit == form.memoryLimit && a.isActive == form.isActive
  }

  /** `Create` (POST, lines 162-216). `valid` is the model-state verdict on the form. */
  function Create(db: Db, caller: Caller, form: AssignmentForm, valid: bool, now: int): (r: Reply)
    ensures caller.teacherId.None? ==> r == Reply(db, NotFound)
    ensures caller.teacherId.Some? && !valid ==> r == Reply(db, ShowForm)
    ensures caller.teacherId.Some? && valid ==>
      var n := |db.assignments|;
      && r.response == ToIndex(SuccessMessage(Created))
      && |r.db.assignments| == n + 1 && r.db.assignments[..n] == db.assignments
      && |r.db.testCases| >= |db.testCases| && r.db.testCases[..|db.testCases|] == db.testCases
      && var a := r.db.assignments[n];
      && HoldsForm(a, form) && a.teacherId == caller.teacherId.value && a.createdAt == now
      && (forall k :: 0 <= k < n ==> db.assignments[k].id != a.id)
      && r.db.testCases[|db.testCases|..] == NewTestCases(a.id, form.testCases, NextId(TestCaseIds(db.testCases)))
      && r.db.submissions == db.submissions && r.db.grades == db.grades
      && r.db.gradeResults == db.gradeResults && r.db.criteria == db.criteria && r.db.qualityMetrics == db.qualityMetrics
  {
    if caller.teacherId.None? then Reply(db, NotFound)
    else if !valid then Reply(db, ShowForm)
    else
      var a := FromForm(NextId(AssignmentIds(db.assignments)), caller.teacherId.value, form, now);
      var added := NewTestCases(a.id, form.testCases, NextId(TestCaseIds(db.testCases)));
      Reply(db.(assignments := db.assignments + [a], testCases := db.testCases + added), ToIndex(SuccessMessage(Created)))
  }

  /** The form `Edit` (GET, lines 239-260) fills in from a stored assignment and its test cases. */
  function FormOf(a: Assignment, tcs: seq<TestCase>): (form: AssignmentForm)
    ensures HoldsForm(a, form) && |form.testCases| == |tcs|
    ensures forall i :: 0 <= i < |tcs| ==> Copies(tcs[i], form.testCases[i]) && form.testCases[i].id == tcs[i].id
  {
    AssignmentForm(a.title, a.description, a.problemStatement, a.subjectModuleId, a.dueDate, a.maxPoints,
      a.timeLimit, a.memoryLimit, a.isActive,
      seq(|tcs|, i requires 0 <= i < |tcs| =>
        TestCaseForm(tcs[i].id, tcs[i].input, tcs[i].expectedOutput, tcs[i].points, tcs[i].isHidden)))
  }

  /** `Edit` (GET, lines 220-263): the filled-in form for the caller's own assignment. */
  function EditForm(db: Db, caller: Caller, id: int): (r: Response)
    ensures r.NotFound? <==> OwnedBy(db, caller, id).None?
    ensures r.EditView? ==> r.assignmentId == id
  {
    match OwnedBy(db, caller, id)
    case None => NotFound
    case Some(k) => EditView(id, FormOf(db.assignments[k], TestCasesOf(db.testCases, id)))
  }

  /** The store after a successful edit of the assignment at index `k`. */
  function Edited(db: Db, k: nat, form: AssignmentForm): Db
    requires k < |db.assignments|
  {
    var a := db.assignments[k];
    var a' := a.(title := form.title, description := form.description, problemStatement := form.problemStatement,
      subjectModuleId := form.subjectModuleId, dueDate := form.dueDate, maxPoints := form.maxPoints,
      timeLimit := form.timeLimit, memoryLimit := form.memoryLimit, isActive := form.isActive);
    db.(assignments := db.assignments[k := a'],
        testCases := OtherTestCases(db.testCases, a.id) + NewTestCases(a.id, form.testCases, NextId(TestCaseIds(db.testCases))))
  }

  /** `Edit` (POST, lines 269-326). `valid` is the model-state verdict on the form. */
  function Edit(db: Db, caller: Caller, id: int, form: AssignmentForm, valid: bool): (r: Reply)
    ensures OwnedBy(db, caller, id).None? ==> r == Reply(db, NotFound)
    ensures OwnedBy(db, caller, id).Some? && !valid ==> r == Reply(db, ShowForm)
    ensures r.response == ToIndex(SuccessMessage(Updated)) <==> OwnedBy(db, caller, id).Some? && valid
    ensures OwnedBy(db, caller, id).Some? && valid ==>
      var k := OwnedBy(db, caller, id).value;
      var a := db.assignments[k];
      && |r.db.assignments| == |db.assignments|
      && HoldsForm(r.db.assignments[k], form)
      && r.db.assignments[k].id == a.id && r.db.assignments[k].teacherId == a.teacherId
      && r.db.assignments[k].createdAt == a.createdAt && r.db.assignments[k].criteriaId == a.criteriaId
      && (forall j :: 0 <= j < |db.assignments| && j != k ==> r.db.assignments[j] == db.assignments[j])
      && r.db.submissions == db.submissions && r.db.grades == db.grades
      && r.db.gradeResults == db.gradeResults && r.db.criteria == db.criteria && r.db.qualityMetrics == db.qualityMetrics
  {
    match OwnedBy(db, caller, id)
    case None => Reply(db, NotFound)
    case Some(k) =>
      if !valid then Reply(db, ShowForm)
      else Reply(Edited(db, k, form), ToIndex(SuccessMessage(Updated)))
  }

  /**
   * After an edit the assignment's test cases are exactly the stored form rows: none
   * of the previous ones survives, and every other assignment keeps its own list.
   */
  lemma EditReplacesTestCases(db: Db, caller: Caller, id: int, form: AssignmentForm, other: int)
    requires OwnedBy(db, caller, id).Some?
    ensures TestCasesOf(Edit(db, caller, id, form, true).db.testCases, id)
      == NewTestCases(id, form.testCases, NextId(TestCaseIds(db.testCases)))
    ensures other != id ==>
      TestCasesOf(Edit(db, caller, id, form, true).db.testCases, other) == TestCasesOf(db.testCases, other)
  {
    var added := NewTestCases(id, form.testCases, NextId(TestCaseIds(db.testCases)));
    TestCasesOfAppend(OtherTestCases(db.testCases, id), added, id);
    TestCasesOfAppend(OtherTestCases(db.testCases, id), added, other);
    OtherTestCasesOf(db.testCases, id, id);
    OtherTestCasesOf(db.testCases, id, other);
    TestCasesOfUniform(added, id, id);
    TestCasesOfUniform(added, id, other);
  }

  /** Posting back the form that `Edit` filled in changes none of the nine fields. */
  lemma EditRoundTrip(db: Db, caller: Caller, id: int)
    requires OwnedBy(db, caller, id).Some?
    ensures var k := OwnedBy(db, caller, id).value;
      var form := FormOf(db.assignments[k], TestCasesOf(db.testCases, id));
      Edit(db, caller, id, form, true).db.assignments == db.assignments
  {
    var k := OwnedBy(db, caller, id).value;
    var form := FormOf(db.assignments[k], TestCasesOf(db.testCases, id));
    var r := Edit(db, caller, id, form, true);
    assert r.db.assignments[k] == db.assignments[k];
  }

  /** `Delete` (GET, lines 330-351): the confirmation page for the caller's own assignment. */
  function ConfirmDelete(db: Db, caller: Caller, id: int): (r: Response)
    ensures r.NotFound? <==> OwnedBy(db, caller, id).None?
    ensures r.TeacherView? ==> r.assignment.id == id && Some(r.assignment.teacherId) == caller.teacherId
  {
    match OwnedBy(db, caller, id)
    case None => NotFound
    case Some(k) => TeacherView(db.assignments[k])
  }

  /** Some submission to assignment `id` has the id `submissionId`. */
  predicate SubmittedFor(subs: seq<Submission>, id: int, submissionId: int) {
    exists s :: s in subs && s.assignmentId == id && s.id == submissionId
  }

  /**
   * The store after removing assignment `id`, with what the store's cascades remove
   * with it: its test cases, submissions and grades, and the grading records and
   * quality metrics of those submissions.
   */
  function Removed(db: Db, id: int): (r: Db)
    ensures forall a :: a in r.assignments <==> a in db.assignments && a.id != id
    ensures forall t :: t in r.testCases <==> t in db.testCases && t.assignmentId != id
    ensures forall s :: s in r.submissions <==> s in db.submissions && s.assignmentId != id
    ensures forall g :: g in r.grades <==> g in db.grades && g.assignmentId != id
    ensures forall gr :: gr in r.gradeResults <==> gr in db.gradeResults && !SubmittedFor(db.submissions, id, gr.submissionId)
    ensures forall m :: m in r.qualityMetrics <==> m in db.qualityMetrics && !SubmittedFor(db.submissions, id, m.submissionId)
    ensures r.criteria == db.criteria
  {
    var gone := SubmissionIds(Filter(db.submissions, (s: Submission) => s.assignmentId == id));
    db.(assignments := Filter(db.assignments, (a: Assignment) => a.id != id),
        testCases := OtherTestCases(db.testCases, id),
        submissions := Filter(db.submissions, (s: Submission) => s.assignmentId != id),
        grades := Filter(db.grades, (g: Grade) => g.assignmentId != id),
        gradeResults := Filter(db.gradeResults, (gr: GradeResult) => gr.submissionId !in gone),
        qualityMetrics := Filter(db.qualityMetrics, (m: QualityMetrics) => m.submissionId !in gone))
  }

  /** `DeleteConfirmed` (lines 357-378): removes the caller's own assignment; anyone else's is left alone. */
  function DeleteConfirmed(db: Db, caller: Caller, id: int): (r: Reply)
    ensures caller.teacherId.None? ==> r == Reply(db, NotFound)
    ensures caller.teacherId.Some? && OwnedBy(db, caller, id).None? ==> r == Reply(db, ToIndex(NoMessage))
    ensures OwnedBy(db, caller, id).Some? ==>
      r.response == ToIndex(SuccessMessage(Deleted))
      && (forall a :: a in r.db.assignments <==> a in db.assignments && a.id != id)
      && (forall t :: t in r.db.testCases <==> t in db.testCases && t.assignmentId != id)
      && (forall s :: s in r.db.submissions <==> s in db.submissions && s.assignmentId != id)
      && (forall g :: g in r.db.grades <==> g in db.grades && g.assignmentId != id)
      && (forall gr :: gr in r.db.gradeResults <==> gr in db.gradeResults && !SubmittedFor(db.submissions, id, gr.submissionId))
      && (forall m :: m in r.db.qualityMetrics <==> m in db.qualityMetrics && !SubmittedFor(db.submissions, id, m.submissionId))
      && r.db.criteria == db.criteria
  {
    if caller.teacherId.None? then Reply(db, NotFound)
    else match OwnedBy(db, caller, id)
      case None => Reply(db, ToIndex(NoMessage))
      case Some(_) => Reply(Removed(db, id), ToIndex(SuccessMessage(Deleted)))
  }

  // ---------------------------------------------------------------------------
  // Submit

  /** `Submit` (lines 384-434): a new pending submission while the assignment is open. */
  function Submit(db: Db, caller: Caller, assignmentId: int, code: string, language: string, valid: bool, now: int): (r: Reply)
    ensures caller.studentId.None? || FindAssignment(db.assignments, assignmentId).None? ==> r == Reply(db, NotFound)
    ensures (caller.studentId.Some? && FindAssignment(db.assignments, assignmentId).Some?
      && !Open(db.assignments[FindAssignment(db.assignments, assignmentId).value], now)) ==>
      r == Reply(db, ToDetails(assignmentId, ErrorMessage(SubmitClosed)))
    ensures r.response == ToDetails(assignmentId, SuccessMessage(Submitted)) <==>
      caller.studentId.Some? && FindAssignment(db.assignments, assignmentId).Some?
      && Open(db.assignments[FindAssignment(db.assignments, assignmentId).value], now) && valid
    ensures r.response != ToDetails(assignmentId, SuccessMessage(Submitted)) ==> r.db == db
    ensures r.response == ToDetails(assignmentId, SuccessMessage(Submitted)) ==>
      var n := |db.submissions|;
      && |r.db.submissions| == n + 1 && r.db.submissions[..n] == db.submissions
      && var s := r.db.submissions[n];
      && s.status == SubmissionStatus.Pending && s.studentId == caller.studentId.value
      && s.assignmentId == assignmentId && s.code == code && s.language == language && s.submittedAt == now
      && s.score == 0 && s.executionResults == []
      && (forall k :: 0 <= k < n ==> db.submissions[k].id != s.id)
      && r.db == db.(submissions := r.db.submissions)
  {
    if caller.studentId.None? then Reply(db, NotFound)
    else match FindAssignment(db.assignments, assignmentId)
      case None => Reply(db, NotFound)
      case Some(k) =>
        var a := db.assignments[k];
        if !a.isActive || a.dueDate <= now then Reply(db, ToDetails(assignmentId, ErrorMessage(SubmitClosed)))
        else if !valid then Reply(db, ToDetails(assignmentId, ErrorMessage(SubmitFailed)))
        else
          var s := Submission(NextId(SubmissionIds(db.submissions)), caller.studentId.value, a.id, code, language, now,
            SubmissionStatus.Pending, 0, []);
          Reply(db.(submissions := db.submissions + [s]), ToDetails(assignmentId, SuccessMessage(Submitted)))
  }

  /** A student can submit to an assignment exactly when it shows in the student list. */
  lemma SubmitGateMatchesList(db: Db, a: Assignment, now: int)
    requires a in db.assignments
    ensures a in StudentAssignments(db.assignments, now) <==> a.isActive && CanSubmit(a, now)
  {
  }
}
