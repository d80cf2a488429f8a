/**
 * EmployeeCsvToDbTasklet: the employee instance of the CSV -> DB tasklet. Its
 * conversion is written out on its own (the email is lowered inside the builder),
 * and its saveEntity is the upsert keyed by employee code.
 */
module EmployeeCsvToDbTasklet {
  import opened JavaLang
  import opened Records
  import opened EntityTable
  import opened BatchCore
  import CsvToDbTasklet
  import EmployeeProcessor

  /** convertToEntity(csvEmployee) */
  function ConvertToEntity(c: CsvEmployee): (r: Option<Employee>)
    ensures r.None? <==> IsNullOrBlank(c.employeeCode)
  {
    if IsNullOrBlank(c.employeeCode) then None
    else Some(Employee(
      id := None,
      employeeCode := c.employeeCode,
      firstName := c.firstName,
      lastName := c.lastName,
      email := if c.email.Some? then Some(ToLowerCase(c.email.value)) else None,
      department := c.department,
      position := c.position,
      salary := c.salary,
      hireDate := c.hireDate,
      status := if c.status.Some? then c.status else Some("ACTIVE"),
      createdAt := None,
      updatedAt := None))
  }

  /** The tasklet's conversion and the chunk job's processor agree on every record. */
  lemma ConvertAgreesWithProcessor(c: CsvEmployee)
    ensures ConvertToEntity(c) == EmployeeProcessor.Process(c)
  {
  }

  /** Employees are keyed by employeeCode; setId replaces the id. */
  const EmployeeKeying: Keying<Employee> :=
    Keying((e: Employee) => e.employeeCode, (e: Employee) => e.id, (e: Employee, id: Option<int>) => e.(id := id))

  lemma EmployeeKeyingLawful()
    ensures Lawful(EmployeeKeying)
  {
  }

  /** Every converted employee has a code, so it can be saved. */
  lemma ConvertKeepsCode()
    ensures CsvToDbTasklet.KeepsCode(EmployeeKeying, ConvertToEntity)
  {
  }

  /**
   * saveEntity(employee): with a row for the code the employee takes that row's id and
   * replaces it; without one it is inserted. A failing mapper call throws.
   */
  method SaveEntity(employeeMapper: Table<Employee>, employee: Employee, fails: bool) returns (ok: bool)
    requires employeeMapper.keying == EmployeeKeying && employee.employeeCode.Some?
    modifies employeeMapper
    ensures ok == !fails
    ensures employeeMapper.State() ==
      if fails then old(employeeMapper.State()) else Upsert(EmployeeKeying, old(employeeMapper.State()), employee)
  {
    EmployeeKeyingLawful();
    ok := EntityTable.SaveEntity(employeeMapper, employee, fails);
  }

  /** execute(...) of the employee tasklet. */
  method Execute(params: map<string, string>, parsed: Result<seq<CsvEmployee>>, employeeMapper: Table<Employee>, faults: set<nat>)
    returns (r: Result<RepeatStatus>, processed: nat, errors: nat)
    requires employeeMapper.keying == EmployeeKeying
    modifies employeeMapper
    ensures PathMissing(params, CsvToDbTasklet.InputFilePath) ==>
      r == Err(CsvToDbTasklet.MissingInputPath) && employeeMapper.State() == old(employeeMapper.State())
    ensures !PathMissing(params, CsvToDbTasklet.InputFilePath) && parsed.Err? ==>
      r == Err(parsed.error) && employeeMapper.State() == old(employeeMapper.State())
    ensures !PathMissing(params, CsvToDbTasklet.InputFilePath) && parsed.Ok? ==>
      r == Ok(Finished) &&
      CsvToDbTasklet.Import(EmployeeKeying, old(employeeMapper.State()), parsed.value, ConvertToEntity, faults)
        == CsvToDbTasklet.Outcome(employeeMapper.State(), processed, errors)
  {
    EmployeeKeyingLawful();
    ConvertKeepsCode();
    r, processed, errors := CsvToDbTasklet.Execute(params, parsed, ConvertToEntity, employeeMapper, faults);
  }
}
