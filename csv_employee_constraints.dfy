/**
 * The Jakarta Validation constraints declared on the fields of CsvEmployee, as the
 * set of violations a validator reports for a record and as a validity predicate.
 * Every declared constraint is checked on its own: a blank code breaks both @NotBlank
 * and @Pattern. @Pattern, @Size, @DecimalMin and @DecimalMax accept null; @NotBlank and
 * @NotNull do not.
 */
module CsvEmployeeConstraints {
  import opened JavaLang
  import opened Records
  import opened BatchCore
  import InputDataValidator
  import EmployeeProcessor

  /** The departments `^(営業部|開発部|人事部|経理部|総務部)$` accepts. */
  const Departments: set<string> := {"営業部", "開発部", "人事部", "経理部", "総務部"}

  /** The statuses `^(ACTIVE|INACTIVE|SUSPENDED)$` accepts. */
  const Statuses: set<string> := {"ACTIVE", "INACTIVE", "SUSPENDED"}

  /** @Size(max = 50) on the two name fields. */
  const MaxNameLength := 50

  /** @DecimalMax("99999999.99"), inclusive; @DecimalMin("0.0") is exclusive. */
  const MaxSalary: real := 99999999.99

  const CodeRequired := "従業員コードは必須です"
  const CodeMalformed := "従業員コードの形式が不正です（例：EMP000001）"
  const FirstNameRequired := "名は必須です"
  const FirstNameTooLong := "名は50文字以内で入力してください"
  const LastNameRequired := "姓は必須です"
  const LastNameTooLong := "姓は50文字以内で入力してください"
  const EmailRequired := "メールアドレスは必須です"
  const DepartmentRequired := "部署は必須です"
  const DepartmentUnknown := "部署名が不正です"
  const PositionRequired := "役職は必須です"
  const SalaryRequired := "給与は必須です"
  const SalaryNotPositive := "給与は0より大きい値を入力してください"
  const SalaryTooHigh := "給与の上限を超えています"
  const HireDateRequired := "入社日は必須です"
  const StatusUnknown := "ステータスはACTIVE、INACTIVE、SUSPENDEDのいずれかを指定してください"

  /** `^EMP[0-9]{6}$` matched against the whole string. */
  predicate IsEmployeeCode(s: string)
  {
    |s| == 9 && s[..3] == "EMP" && AllDigits(s[3..])
  }

  /** @NotBlank: not null, and not empty after trim. */
  predicate HasText(s: Option<string>)
  {
    !IsNullOrBlank(s)
  }

  /** The nine constrained properties of CsvEmployee. */
  const PropertyPaths: set<string> :=
    {"employeeCode", "firstName", "lastName", "email", "department", "position", "salary", "hireDate", "status"}

  /** Every constraint on every field holds; in particular the @NotBlank and @NotNull fields are present. */
  predicate IsValid(c: CsvEmployee)
    ensures IsValid(c) ==>
      c.employeeCode.Some? && c.firstName.Some? && c.lastName.Some? && c.email.Some? &&
      c.department.Some? && c.position.Some? && c.salary.Some? && c.hireDate.Some?
  {
    HasText(c.employeeCode) && IsEmployeeCode(c.employeeCode.value) &&
    HasText(c.firstName) && |c.firstName.value| <= MaxNameLength &&
    HasText(c.lastName) && |c.lastName.value| <= MaxNameLength &&
    HasText(c.email) &&
    HasText(c.department) && c.department.value in Departments &&
    HasText(c.position) &&
    c.salary.Some? && 0.0 < c.salary.value <= MaxSalary &&
    c.hireDate.Some? &&
    (c.status.None? || c.status.value in Statuses)
  }

  /** The violation one constraint reports on one field, if it does not hold. */
  function Check(holds: bool, path: string, constraint: Constraint, message: string): (r: set<ConstraintViolation>)
    ensures forall v :: v in r ==> v.propertyPath == path
  {
    if holds then {} else {ConstraintViolation(path, constraint, message)}
  }

  /** @NotBlank and @Pattern on employeeCode. */
  function CodeViolations(code: Option<string>): (r: set<ConstraintViolation>)
    ensures forall v :: v in r ==> v.propertyPath == "employeeCode"
  {
    Check(HasText(code), "employeeCode", NotBlank, CodeRequired) +
    Check(code.None? || IsEmployeeCode(code.value), "employeeCode", Pattern, CodeMalformed)
  }

  /** @NotBlank and @Size(max = 50) on a name field. */
  function NameViolations(path: string, name: Option<string>, required: string, tooLong: string): (r: set<ConstraintViolation>)
    ensures forall v :: v in r ==> v.propertyPath == path
  {
    Check(HasText(name), path, NotBlank, required) +
    Check(name.None? || |name.value| <= MaxNameLength, path, Size, tooLong)
  }

  /** @NotBlank and @Pattern on department. */
  function DepartmentViolations(department: Option<string>): (r: set<ConstraintViolation>)
    ensures forall v :: v in r ==> v.propertyPath == "department"
  {
    Check(HasText(department), "department", NotBlank, DepartmentRequired) +
    Check(department.None? || department.value in Departments, "department", Pattern, DepartmentUnknown)
  }

  /** @NotNull, @DecimalMin and @DecimalMax on salary. */
  function SalaryViolations(salary: Option<real>): (r: set<ConstraintViolation>)
    ensures forall v :: v in r ==> v.propertyPath == "salary"
  {
    Check(salary.Some?, "salary", NotNull, SalaryRequired) +
    Check(salary.None? || salary.value > 0.0, "salary", DecimalMin, SalaryNotPositive) +
    Check(salary.None? || salary.value <= MaxSalary, "salary", DecimalMax, SalaryTooHigh)
  }

  function EmailViolations(email: Option<string>): (r: set<ConstraintViolation>)
    ensures forall v :: v in r ==> v.propertyPath == "email"
  {
    Check(HasText(email), "email", NotBlank, EmailRequired)
  }

  function PositionViolations(position: Option<string>): (r: set<ConstraintViolation>)
    ensures forall v :: v in r ==> v.propertyPath == "position"
  {
    Check(HasText(position), "position", NotBlank, PositionRequired)
  }

  function HireDateViolations(hireDate: Option<Date>): (r: set<ConstraintViolation>)
    ensures forall v :: v in r ==> v.propertyPath == "hireDate"
  {
    Check(hireDate.Some?, "hireDate", NotNull, HireDateRequired)
  }

  function StatusViolations(status: Option<string>): (r: set<ConstraintViolation>)
    ensures forall v :: v in r ==> v.propertyPath == "status"
  {
    Check(status.None? || status.value in Statuses, "status", Pattern, StatusUnknown)
  }

  /** validator.validate(csvEmployee): one violation per constraint that does not hold. */
  function Violations(c: CsvEmployee): (r: set<ConstraintViolation>)
    ensures forall v :: v in r ==> v.propertyPath in PropertyPaths
  {
    CodeViolations(c.employeeCode) +
    NameViolations("firstName", c.firstName, FirstNameRequired, FirstNameTooLong) +
    NameViolations("lastName", c.lastName, LastNameRequired, LastNameTooLong) +
    EmailViolations(c.email) +
    DepartmentViolations(c.department) +
    PositionViolations(c.position) +
    SalaryViolations(c.salary) +
    HireDateViolations(c.hireDate) +
    StatusViolations(c.status)
  }

  /** The violations reported on one property. */
  function On(vs: set<ConstraintViolation>, path: string): (r: set<ConstraintViolation>)
    ensures forall v :: v in r <==> v in vs && v.propertyPath == path
  {
    set v | v in vs && v.propertyPath == path
  }

  // ---------------------------------------------------------------------------
  // What the constraints add up to

  /** A record is valid exactly when the validator reports nothing. */
  lemma ValidIffNoViolations(c: CsvEmployee)
    ensures IsValid(c) <==> Violations(c) == {}
  {
    if !IsValid(c) {
      if !HasText(c.employeeCode) {
        assert ConstraintViolation("employeeCode", NotBlank, CodeRequired) in CodeViolations(c.employeeCode);
      } else if !IsEmployeeCode(c.employeeCode.value) {
        assert ConstraintViolation("employeeCode", Pattern, CodeMalformed) in CodeViolations(c.employeeCode);
      } else if !HasText(c.firstName) || |c.firstName.value| > MaxNameLength {
        assert NameViolations("firstName", c.firstName, FirstNameRequired, FirstNameTooLong) != {};
      } else if !HasText(c.lastName) || |c.lastName.value| > MaxNameLength {
        assert NameViolations("lastName", c.lastName, LastNameRequired, LastNameTooLong) != {};
      } else if !HasText(c.email) {
        assert EmailViolations(c.email) != {};
      } else if !HasText(c.department) || c.department.value !in Departments {
        assert DepartmentViolations(c.department) != {};
      } else if !HasText(c.position) {
        assert PositionViolations(c.position) != {};
      } else if c.salary.None? || c.salary.value <= 0.0 || c.salary.value > MaxSalary {
        assert SalaryViolations(c.salary) != {};
      } else if c.hireDate.None? {
        assert HireDateViolations(c.hireDate) != {};
      } else {
        assert StatusViolations(c.status) != {};
      }
    }
  }

  /** InputDataValidator lets a record through exactly when it is valid, in any visiting order. */
  lemma ValidatorAcceptsIffValid(c: CsvEmployee, order: seq<ConstraintViolation>)
    requires InputDataValidator.IsIterationOf(order, Violations(c))
    ensures InputDataValidator.Validate(Violations(c), order).None? <==> IsValid(c)
  {
    ValidIffNoViolations(c);
  }

  lemma OnUnion(a: set<ConstraintViolation>, b: set<ConstraintViolation>, path: string)
    ensures On(a + b, path) == On(a, path) + On(b, path)
  {
  }

  /** A group whose violations all name one property. */
  lemma OnUniform(vs: set<ConstraintViolation>, q: string, path: string)
    requires forall v :: v in vs ==> v.propertyPath == q
    ensures On(vs, path) == if q == path then vs else {}
  {
  }

  /** The violations on one property come from that property's rules alone. */
  lemma Isolate(c: CsvEmployee, path: string)
    ensures On(Violations(c), path) ==
      On(CodeViolations(c.employeeCode), path) +
      On(NameViolations("firstName", c.firstName, FirstNameRequired, FirstNameTooLong), path) +
      On(NameViolations("lastName", c.lastName, LastNameRequired, LastNameTooLong), path) +
      On(EmailViolations(c.email), path) +
      On(DepartmentViolations(c.department), path) +
      On(PositionViolations(c.position), path) +
      On(SalaryViolations(c.salary), path) +
      On(HireDateViolations(c.hireDate), path) +
      On(StatusViolations(c.status), path)
  {
    var g1, g2, g3 := CodeViolations(c.employeeCode), NameViolations("firstName", c.firstName, FirstNameRequired, FirstNameTooLong),
                      NameViolations("lastName", c.lastName, LastNameRequired, LastNameTooLong);
    var g4, g5, g6 := EmailViolations(c.email), DepartmentViolations(c.department), PositionViolations(c.position);
    var g7, g8, g9 := SalaryViolations(c.salary), HireDateViolations(c.hireDate), StatusViolations(c.status);
    OnUnion(g1 + g2 + g3 + g4 + g5 + g6 + g7 + g8, g9, path);
    OnUnion(g1 + g2 + g3 + g4 + g5 + g6 + g7, g8, path);
    OnUnion(g1 + g2 + g3 + g4 + g5 + g6, g7, path);
    OnUnion(g1 + g2 + g3 + g4 + g5, g6, path);
    OnUnion(g1 + g2 + g3 + g4, g5, path);
    OnUnion(g1 + g2 + g3, g4, path);
    OnUnion(g1 + g2, g3, path);
    OnUnion(g1, g2, path);
  }

  /** Each group reports on its own property only. */
  lemma GroupsOnOwnPath(c: CsvEmployee, path: string)
    ensures On(CodeViolations(c.employeeCode), path) == if path == "employeeCode" then CodeViolations(c.employeeCode) else {}
    ensures On(NameViolations("firstName", c.firstName, FirstNameRequired, FirstNameTooLong), path) ==
            if path == "firstName" then NameViolations("firstName", c.firstName, FirstNameRequired, FirstNameTooLong) else {}
    ensures On(NameViolations("lastName", c.lastName, LastNameRequired, LastNameTooLong), path) ==
            if path == "lastName" then NameViolations("lastName", c.lastName, LastNameRequired, LastNameTooLong) else {}
    ensures On(EmailViolations(c.email), path) == if path == "email" then EmailViolations(c.email) else {}
    ensures On(DepartmentViolations(c.department), path) == if path == "department" then DepartmentViolations(c.department) else {}
    ensures On(PositionViolations(c.position), path) == if path == "position" then PositionViolations(c.position) else {}
    ensures On(SalaryViolations(c.salary), path) == if path == "salary" then SalaryViolations(c.salary) else {}
    ensures On(HireDateViolations(c.hireDate), path) == if path == "hireDate" then HireDateViolations(c.hireDate) else {}
    ensures On(StatusViolations(c.status), path) == if path == "status" then StatusViolations(c.status) else {}
  {
    OnUniform(CodeViolations(c.employeeCode), "employeeCode", path);
    OnUniform(NameViolations("firstName", c.firstName, FirstNameRequired, FirstNameTooLong), "firstName", path);
    OnUniform(NameViolations("lastName", c.lastName, LastNameRequired, LastNameTooLong), "lastName", path);
    OnUniform(EmailViolations(c.email), "email", path);
    OnUniform(DepartmentViolations(c.department), "department", path);
    OnUniform(PositionViolations(c.position), "position", path);
    OnUniform(SalaryViolations(c.salary), "salary", path);
    OnUniform(HireDateViolations(c.hireDate), "hireDate", path);
    OnUniform(StatusViolations(c.status), "status", path);
  }

  /** Everything but the employeeCode rules reports on other properties. */
  lemma OnlyCodeRules(c: CsvEmployee)
    ensures On(Violations(c), "employeeCode") == CodeViolations(c.employeeCode)
  {
    Isolate(c, "employeeCode");
    GroupsOnOwnPath(c, "employeeCode");
  }

  lemma OnlyDepartmentRules(c: CsvEmployee)
    ensures On(Violations(c), "department") == DepartmentViolations(c.department)
  {
    Isolate(c, "department");
    GroupsOnOwnPath(c, "department");
  }

  lemma OnlySalaryRules(c: CsvEmployee)
    ensures On(Violations(c), "salary") == SalaryViolations(c.salary)
  {
    Isolate(c, "salary");
    GroupsOnOwnPath(c, "salary");
  }

  lemma OnlyStatusRules(c: CsvEmployee)
    ensures On(Violations(c), "status") == StatusViolations(c.status)
  {
    Isolate(c, "status");
    GroupsOnOwnPath(c, "status");
  }

  /**
   * The code is reported missing exactly when it is null or blank, malformed exactly
   * when it is present and not EMP followed by six digits, and nothing else is said about it.
   */
  lemma EmployeeCodeRules(c: CsvEmployee)
    ensures ConstraintViolation("employeeCode", NotBlank, CodeRequired) in Violations(c) <==> IsNullOrBlank(c.employeeCode)
    ensures ConstraintViolation("employeeCode", Pattern, CodeMalformed) in Violations(c) <==>
            c.employeeCode.Some? && !IsEmployeeCode(c.employeeCode.value)
    ensures |On(Violations(c), "employeeCode")| <= 2
  {
    OnlyCodeRules(c);
    assert ConstraintViolation("employeeCode", NotBlank, CodeRequired) in Violations(c) <==>
      ConstraintViolation("employeeCode", NotBlank, CodeRequired) in On(Violations(c), "employeeCode");
    assert ConstraintViolation("employeeCode", Pattern, CodeMalformed) in Violations(c) <==>
      ConstraintViolation("employeeCode", Pattern, CodeMalformed) in On(Violations(c), "employeeCode");
  }

  /** An unknown department is reported exactly when a department is given and is not one of the five. */
  lemma DepartmentRules(c: CsvEmployee)
    ensures ConstraintViolation("department", NotBlank, DepartmentRequired) in Violations(c) <==> IsNullOrBlank(c.department)
    ensures ConstraintViolation("department", Pattern, DepartmentUnknown) in Violations(c) <==>
            c.department.Some? && c.department.value !in Departments
  {
    OnlyDepartmentRules(c);
    assert ConstraintViolation("department", NotBlank, DepartmentRequired) in Violations(c) <==>
      ConstraintViolation("department", NotBlank, DepartmentRequired) in On(Violations(c), "department");
    assert ConstraintViolation("department", Pattern, DepartmentUnknown) in Violations(c) <==>
      ConstraintViolation("department", Pattern, DepartmentUnknown) in On(Violations(c), "department");
  }

  /**
   * A missing salary is one violation and nothing more; a given salary is reported at
   * most once, when it is not above zero or above 99999999.99.
   */
  lemma SalaryRules(c: CsvEmployee)
    ensures c.salary.None? ==> On(Violations(c), "salary") == {ConstraintViolation("salary", NotNull, SalaryRequired)}
    ensures c.salary.Some? ==>
      (ConstraintViolation("salary", DecimalMin, SalaryNotPositive) in Violations(c) <==> c.salary.value <= 0.0) &&
      (ConstraintViolation("salary", DecimalMax, SalaryTooHigh) in Violations(c) <==> c.salary.value > MaxSalary) &&
      |On(Violations(c), "salary")| <= 1
  {
    OnlySalaryRules(c);
    assert ConstraintViolation("salary", DecimalMin, SalaryNotPositive) in Violations(c) <==>
      ConstraintViolation("salary", DecimalMin, SalaryNotPositive) in On(Violations(c), "salary");
    assert ConstraintViolation("salary", DecimalMax, SalaryTooHigh) in Violations(c) <==>
      ConstraintViolation("salary", DecimalMax, SalaryTooHigh) in On(Violations(c), "salary");
  }

  /** status may be null; a given status is reported exactly when it is not ACTIVE, INACTIVE or SUSPENDED. */
  lemma StatusRules(c: CsvEmployee)
    ensures ConstraintViolation("status", Pattern, StatusUnknown) in Violations(c) <==>
            c.status.Some? && c.status.value !in Statuses
    ensures c.status.None? ==> On(Violations(c), "status") == {}
  {
    OnlyStatusRules(c);
    assert ConstraintViolation("status", Pattern, StatusUnknown) in Violations(c) <==>
      ConstraintViolation("status", Pattern, StatusUnknown) in On(Violations(c), "status");
  }

  /** A code of the form EMP + six digits is never blank, so @Pattern alone decides it. */
  lemma EmployeeCodeNotBlank(s: string)
    requires IsEmployeeCode(s)
    ensures HasText(Some(s))
  {
    BlankIffAllTrimmed(s);
    assert s[0] == "EMP"[0];
  }

  /** A valid record is never filtered out by the processor, and leaves it with a known status. */
  lemma ValidRecordsAreProcessed(c: CsvEmployee)
    requires IsValid(c)
    ensures EmployeeProcessor.Process(c).Some?
    ensures EmployeeProcessor.Process(c).value.status.value in Statuses
  {
  }

  // ---------------------------------------------------------------------------
  // Examples

  const Sample := CsvEmployee(Some("EMP000001"), Some("太郎"), Some("山田"), Some("taro.yamada@example.com"),
                              Some("開発部"), Some("エンジニア"), Some(5000000.0), Some(Date(2020, 4, 1)), None)

  /** A string that starts with a character trim keeps has text. */
  lemma StartsWithText(s: string)
    requires s != "" && !IsTrimmed(s[0])
    ensures HasText(Some(s))
  {
    BlankIffAllTrimmed(s);
  }

  lemma SampleIsValid()
    ensures IsValid(Sample) && Violations(Sample) == {}
  {
    SampleFieldsValid();
    ValidIffNoViolations(Sample);
  }

  lemma SampleFieldsValid()
    ensures IsValid(Sample)
  {
    assert IsEmployeeCode("EMP000001") by {
      assert "EMP000001"[..3] == "EMP";
      assert "EMP000001"[3..] == "000001";
    }
    EmployeeCodeNotBlank("EMP000001");
    StartsWithText("太郎");
    StartsWithText("山田");
    StartsWithText("taro.yamada@example.com");
    StartsWithText("開発部");
    StartsWithText("エンジニア");
    assert "開発部" in Departments;
  }

  /** With every other field as in the sample, the code's own rules are all that is reported. */
  lemma OnlyTheCodeVaries(code: Option<string>)
    ensures Violations(Sample.(employeeCode := code)) == CodeViolations(code)
  {
    SampleRestEmpty();
  }

  /** The sample's fields other than the code break no rule. */
  lemma SampleRestEmpty()
    ensures NameViolations("firstName", Sample.firstName, FirstNameRequired, FirstNameTooLong) == {}
    ensures NameViolations("lastName", Sample.lastName, LastNameRequired, LastNameTooLong) == {}
    ensures EmailViolations(Sample.email) == {} && DepartmentViolations(Sample.department) == {}
    ensures PositionViolations(Sample.position) == {} && SalaryViolations(Sample.salary) == {}
    ensures HireDateViolations(Sample.hireDate) == {} && StatusViolations(Sample.status) == {}
  {
    SampleFieldsValid();
  }

  /** Five digits after EMP: only the form rule fires. */
  lemma ShortCodeRejected()
    ensures Violations(Sample.(employeeCode := Some("EMP12345"))) == {ConstraintViolation("employeeCode", Pattern, CodeMalformed)}
  {
    OnlyTheCodeVaries(Some("EMP12345"));
    StartsWithText("EMP12345");
  }

  /** A code of spaces breaks both rules on the code. */
  lemma BlankCodeRejectedTwice()
    ensures Violations(Sample.(employeeCode := Some("  "))) ==
            {ConstraintViolation("employeeCode", NotBlank, CodeRequired), ConstraintViolation("employeeCode", Pattern, CodeMalformed)}
  {
    OnlyTheCodeVaries(Some("  "));
    BlankIffAllTrimmed("  ");
  }
}
