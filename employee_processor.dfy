/**
 * EmployeeProcessor.process, the chunk job's CsvEmployee -> Employee step: a blank
 * employee code filters the record out, the status defaults to ACTIVE and the email
 * is normalised to lower case after the entity is built.
 */
module EmployeeProcessor {
  import opened JavaLang
  import opened Records

  const DefaultStatus := "ACTIVE"

  /** The email after `if (email != null) setEmail(email.toLowerCase())`. */
  function LowerEmail(email: Option<string>): (r: Option<string>)
    ensures r.None? <==> email.None?
    ensures r.Some? ==> HasNoUpper(r.value) && |r.value| == |email.value|
  {
    if email.Some? then
      LowerCaseFixpoint(email.value);
      Some(ToLowerCase(email.value))
    else None
  }

  /** process(csvEmployee); None is the null that filters the record out. */
  function Process(c: CsvEmployee): (r: Option<Employee>)
    ensures r.None? <==> IsNullOrBlank(c.employeeCode)
    ensures r.Some? ==> var e := r.value;
      e.id.None? && e.createdAt.None? && e.updatedAt.None? &&
      e.employeeCode == c.employeeCode && e.firstName == c.firstName && e.lastName == c.lastName &&
      e.department == c.department && e.position == c.position &&
      e.salary == c.salary && e.hireDate == c.hireDate &&
      e.status.Some? && (c.status.Some? ==> e.status == c.status) && (c.status.None? ==> e.status == Some(DefaultStatus)) &&
      (e.email.None? <==> c.email.None?) && (e.email.Some? ==> HasNoUpper(e.email.value))
  {
    if IsNullOrBlank(c.employeeCode) then None
    else
      var built := Employee(
        id := None,
        employeeCode := c.employeeCode,
        firstName := c.firstName,
        lastName := c.lastName,
        email := c.email,
        department := c.department,
        position := c.position,
        salary := c.salary,
        hireDate := c.hireDate,
        status := if c.status.Some? then c.status else Some(DefaultStatus),
        createdAt := None,
        updatedAt := None);
      Some(built.(email := LowerEmail(built.email)))
  }

  /** The email is the input's lowered, and lowering it again changes nothing. */
  lemma ProcessNormalisesEmail(c: CsvEmployee)
    requires !IsNullOrBlank(c.employeeCode) && c.email.Some?
    ensures Process(c).value.email == Some(ToLowerCase(c.email.value))
    ensures ToLowerCase(Process(c).value.email.value) == Process(c).value.email.value
  {
    LowerCaseIdempotent(c.email.value);
  }

  /** Processing a record whose fields the processor would not change again gives the same entity. */
  lemma ProcessStable(c: CsvEmployee)
    requires !IsNullOrBlank(c.employeeCode)
    ensures var e := Process(c).value;
      Process(CsvEmployee(e.employeeCode, e.firstName, e.lastName, e.email, e.department,
                          e.position, e.salary, e.hireDate, e.status)) == Some(e)
  {
    var e := Process(c).value;
    if e.email.Some? {
      LowerCaseFixpoint(e.email.value);
    }
  }
}
