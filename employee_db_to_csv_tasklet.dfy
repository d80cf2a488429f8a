/**
 * EmployeeDbToCsvTasklet: the employee instance of the DB -> CSV tasklet. The
 * conversion copies the nine CSV fields; the header names the nine columns.
 */
module EmployeeDbToCsvTasklet {
  import opened JavaLang
  import opened Records
  import DbToCsvTasklet
  import EmployeeProcessor

  /** convertToCsvDto(employee) */
  function ConvertToCsvDto(e: Employee): (r: Option<CsvEmployee>)
    ensures r.Some?
    ensures var c := r.value;
      c.employeeCode == e.employeeCode && c.firstName == e.firstName && c.lastName == e.lastName &&
      c.email == e.email && c.department == e.department && c.position == e.position &&
      c.salary == e.salary && c.hireDate == e.hireDate && c.status == e.status
  {
    Some(CsvEmployee(
      employeeCode := e.employeeCode,
      firstName := e.firstName,
      lastName := e.lastName,
      email := e.email,
      department := e.department,
      position := e.position,
      salary := e.salary,
      hireDate := e.hireDate,
      status := e.status))
  }

  /** getCsvHeader(), written column by column. */
  const CsvHeader: string :=
    "employee_code" + "," + "first_name" + "," + "last_name" + "," + "email" + "," + "department" + "," +
    "position" + "," + "salary" + "," + "hire_date" + "," + "status"

  /** The header is the CSV columns of CsvEmployee, in position order, separated by commas. */
  lemma HeaderColumns()
    ensures Split(CsvHeader, ',') == CsvEmployeeColumns
    ensures |Split(CsvHeader, ',')| == 9
  {
    SplitNine("employee_code", "first_name", "last_name", "email", "department", "position", "salary", "hire_date", "status");
  }

  /** Every loaded employee is exported, in load order, as its conversion. */
  lemma ExportsEveryEmployee(entities: seq<Employee>)
    ensures |DbToCsvTasklet.NonNull(entities, ConvertToCsvDto)| == |entities|
    ensures forall i :: 0 <= i < |entities| ==>
      DbToCsvTasklet.NonNull(entities, ConvertToCsvDto)[i] == ConvertToCsvDto(entities[i]).value
  {
    DbToCsvTasklet.NonNullTotal(entities, ConvertToCsvDto);
  }

  /**
   * CSV -> entity -> CSV gives the record back exactly when the processor keeps the
   * record (non-blank code) and changes nothing in it (a status given, an email that
   * is null or already lower case).
   */
  lemma RoundTripFromCsv(c: CsvEmployee)
    ensures (EmployeeProcessor.Process(c).Some? && ConvertToCsvDto(EmployeeProcessor.Process(c).value) == Some(c)) <==>
      (!IsNullOrBlank(c.employeeCode) && c.status.Some? && (c.email.None? || HasNoUpper(c.email.value)))
  {
    if c.email.Some? {
      LowerCaseFixpoint(c.email.value);
    }
  }

  /**
   * entity -> CSV -> entity gives the entity back, less the columns the CSV does not
   * carry (id and the timestamps), when its code is non-blank, its status set and its
   * email null or lower case.
   */
  lemma RoundTripFromEntity(e: Employee)
    requires !IsNullOrBlank(e.employeeCode) && e.status.Some? && (e.email.None? || HasNoUpper(e.email.value))
    ensures EmployeeProcessor.Process(ConvertToCsvDto(e).value) == Some(e.(id := None, createdAt := None, updatedAt := None))
  {
    if e.email.Some? {
      LowerCaseFixpoint(e.email.value);
    }
  }
}
