/**
 * The registration form: the per-field attribute checks and the cross-field rules
 * of `Validate`. A field the browser leaves empty is the empty string here; the
 * checks below treat a missing and an empty string alike, except where noted in
 * the README.
 */
module Registration {
  import opened Wrappers
  import opened Text

  /** The form properties a validation error can name. */
  datatype Field =
    | FirstName | LastName | Email | Password | ConfirmPassword
    | Role | ClassGroupId | SubGroup | ClassNumber | TeacherCode

  datatype ValidationError = ValidationError(member: Field, message: string)

  datatype RegisterForm = RegisterForm(
    firstName: string,
    lastName: string,
    email: string,
    password: string,
    confirmPassword: string,
    role: string,
    classGroupId: Option<int>,
    subGroup: string,
    classNumber: Option<int>,
    teacherCode: string)

  // The error messages, as the form shows them.
  const ClassNumberRequiredForStudents := "Номерът в клас е задължителен за студенти"
  const ClassGroupRequiredForStudents := "Класът е задължителен за студенти"
  const SubGroupRequired := "Групата е задължителна за студенти"
  const TeacherCodeRequired := "Кодът за преподавател е задължителен за регистрация като преподавател"
  const TeacherCodeOnlyForTeachers := "Кодът за преподавател се използва само за регистрация като преподавател"
  const FirstNameRequired := "Името е задължително"
  const FirstNameTooLong := "Името не може да бъде по-дълго от 50 символа"
  const LastNameRequired := "Фамилията е задължителна"
  const LastNameTooLong := "Фамилията не може да бъде по-дълга от 50 символа"
  const EmailRequired := "Имейл адресът е задължителен"
  const EmailInvalid := "Невалиден имейл адрес"
  const PasswordRequired := "Паролата е задължителна"
  const PasswordLength := "Паролата трябва да бъде поне 8 символа"
  const PasswordsDiffer := "Паролите не съвпадат"
  const RoleRequired := "Моля изберете роля"
  const ClassNumberOutOfRange := "Номерът в клас трябва да е между 1 и 30"
  const TeacherCodeTooLong := "Кодът не може да бъде по-дълъг от 20 символа"

  /** The fields the errors name, in order. */
  function Members(errors: seq<ValidationError>): (r: seq<Field>)
    ensures |r| == |errors| && forall i :: 0 <= i < |errors| ==> r[i] == errors[i].member
  {
    seq(|errors|, i requires 0 <= i < |errors| => errors[i].member)
  }

  /** Some error in the list names `f`. */
  predicate ErrorOn(errors: seq<ValidationError>, f: Field) {
    f in Members(errors)
  }

  /** The order in which `Validate` reports its fields. */
  function ValidateRank(f: Field): int {
    match f
    case ClassNumber => 0
    case ClassGroupId => 1
    case SubGroup => 2
    case _ => 3
  }

  /** The fields `Validate` can name. */
  predicate CrossField(f: Field) {
    f == ClassNumber || f == ClassGroupId || f == SubGroup || f == TeacherCode
  }

  /** Fields listed in strictly increasing `ValidateRank`. */
  predicate Ranked(fs: seq<Field>) {
    forall i, j :: 0 <= i < j < |fs| ==> ValidateRank(fs[i]) < ValidateRank(fs[j])
  }

  /** The fields whose cross-field check fails, in the order `Validate` runs the checks. */
  function FailingCrossFields(form: RegisterForm): (fs: seq<Field>)
    ensures Ranked(fs)
    ensures forall i :: 0 <= i < |fs| ==> CrossField(fs[i])
  {
    var student := form.role == "Student";
    var teacher := form.role == "Teacher";
    var blankCode := AllWhiteSpace(form.teacherCode);
    (if student && form.classNumber.None? then [ClassNumber] else [])
    + (if student && form.classGroupId.None? then [ClassGroupId] else [])
    + (if student && form.subGroup == [] then [SubGroup] else [])
    + (if teacher == blankCode then [TeacherCode] else [])
  }

  /** The message `Validate` attaches to a failing cross-field check. */
  function MessageFor(form: RegisterForm, f: Field): string {
    match f
    case ClassNumber => ClassNumberRequiredForStudents
    case ClassGroupId => ClassGroupRequiredForStudents
    case SubGroup => SubGroupRequired
    case _ => if form.role == "Teacher" then TeacherCodeRequired else TeacherCodeOnlyForTeachers
  }

  /** `Validate` (lines 53-86): the cross-field rules for students and for the teacher code. */
  function Validate(form: RegisterForm): (errors: seq<ValidationError>)
    ensures |errors| <= 4
    ensures ErrorOn(errors, ClassNumber) <==> form.role == "Student" && form.classNumber.None?
    ensures ErrorOn(errors, ClassGroupId) <==> form.role == "Student" && form.classGroupId.None?
    ensures ErrorOn(errors, SubGroup) <==> form.role == "Student" && form.subGroup == []
    ensures ErrorOn(errors, TeacherCode) <==>
      (form.role == "Teacher" && AllWhiteSpace(form.teacherCode))
      || (form.role != "Teacher" && !AllWhiteSpace(form.teacherCode))
  {
    var fs := FailingCrossFields(form);
    var errors := seq(|fs|, i requires 0 <= i < |fs| => ValidationError(fs[i], MessageFor(form, fs[i])));
    assert Members(errors) == fs;
    errors
  }

  /** `Validate` names exactly the failing cross-field checks, each once, in order. */
  lemma ValidateReportsInOrder(form: RegisterForm)
    ensures Members(Validate(form)) == FailingCrossFields(form)
  {
  }

  /** For any role but "Student", the class fields play no part in `Validate`. */
  lemma NonStudentsIgnoreClassFields(form: RegisterForm, classGroupId: Option<int>, subGroup: string, classNumber: Option<int>)
    requires form.role != "Student"
    ensures Validate(form) == Validate(form.(classGroupId := classGroupId, subGroup := subGroup, classNumber := classNumber))
    ensures forall i :: 0 <= i < |Validate(form)| ==> Validate(form)[i].member == TeacherCode
  {
    var other := form.(classGroupId := classGroupId, subGroup := subGroup, classNumber := classNumber);
    assert FailingCrossFields(form) == FailingCrossFields(other);
  }

  /** `[EmailAddress]`: exactly one '@', neither first nor last; an empty value is left to `[Required]`. */
  predicate IsEmailAddress(s: string) {
    s == [] || exists k :: 0 < k < |s| - 1 && s[k] == '@' && forall j :: 0 <= j < |s| && j != k ==> s[j] != '@'
  }

  /** The message of one attribute when its check fails (`c` holds). */
  function Fails(c: bool, message: string): (r: seq<string>)
    ensures |r| == (if c then 1 else 0)
  {
    if c then [message] else []
  }

  /**
   * The attribute checks of lines 7-51: the messages of the failing attributes on
   * field `f`, in declaration order. A `[StringLength]` check passes on a missing
   * (empty) value, which only `[Required]` refuses.
   */
  function AttributeErrors(form: RegisterForm, f: Field): (errors: seq<string>)
    ensures f == FirstName ==> (errors != [] <==> AllWhiteSpace(form.firstName) || |form.firstName| > 50)
    ensures f == LastName ==> (errors != [] <==> AllWhiteSpace(form.lastName) || |form.lastName| > 50)
    ensures f == Email ==> (errors != [] <==> AllWhiteSpace(form.email) || !IsEmailAddress(form.email))
    ensures f == Password ==> (errors != [] <==> AllWhiteSpace(form.password) || !(8 <= |form.password| <= 100))
    ensures f == ConfirmPassword ==> (errors != [] <==> form.confirmPassword != form.password)
    ensures f == Role ==> (errors != [] <==> AllWhiteSpace(form.role))
    ensures f == ClassGroupId ==> errors == []
    ensures f == SubGroup ==> (errors != [] <==> AllWhiteSpace(form.subGroup))
    ensures f == ClassNumber ==> (errors != [] <==> form.classNumber.Some? && !(1 <= form.classNumber.value <= 30))
    ensures f == TeacherCode ==> (errors != [] <==> |form.teacherCode| > 20)
    ensures |errors| <= 2
  {
    match f
    case FirstName =>
      Fails(AllWhiteSpace(form.firstName), FirstNameRequired)
      + Fails(|form.firstName| > 50, FirstNameTooLong)
    case LastName =>
      Fails(AllWhiteSpace(form.lastName), LastNameRequired)
      + Fails(|form.lastName| > 50, LastNameTooLong)
    case Email =>
      Fails(AllWhiteSpace(form.email), EmailRequired)
      + Fails(!IsEmailAddress(form.email), EmailInvalid)
    case Password =>
      Fails(AllWhiteSpace(form.password), PasswordRequired)
      + Fails(form.password != [] && !(8 <= |form.password| <= 100), PasswordLength)
    case ConfirmPassword => Fails(form.confirmPassword != form.password, PasswordsDiffer)
    case Role => Fails(AllWhiteSpace(form.role), RoleRequired)
    case ClassGroupId => []
    case SubGroup => Fails(AllWhiteSpace(form.subGroup), SubGroupRequired)
    case ClassNumber =>
      Fails(form.classNumber.Some? && !(1 <= form.classNumber.value <= 30), ClassNumberOutOfRange)
    case TeacherCode => Fails(|form.teacherCode| > 20, TeacherCodeTooLong)
  }

  /** The fields whose attribute checks fail, the way model binding marks them invalid. */
  predicate Invalid(form: RegisterForm, f: Field) {
    AttributeErrors(form, f) != []
  }

  /** `[Required]` on the group holds for every role: a teacher who leaves it blank is refused too. */
  lemma TeacherNeedsSubGroup(form: RegisterForm)
    requires form.role == "Teacher" && form.subGroup == []
    ensures Invalid(form, SubGroup)
    ensures !ErrorOn(Validate(form), SubGroup)
  {
  }
}
