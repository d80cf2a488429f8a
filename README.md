# Spring Batch demo: a verified model of its batch core

This project models the deterministic core of a Spring Batch demo application. The application moves three kinds of master data between CSV files and a relational database:

- employees, keyed by employee code;
- products, keyed by product code;
- sales, keyed by transaction id.

The model covers these parts of the application:

- the tasklet jobs, which import a CSV file into a table and export a table into a CSV file;
- the chunk-oriented jobs, which do the same through a reader, a processor and a writer;
- the employee processor and the Bean Validation rules on `CsvEmployee`;
- the item validator and the job-parameter validator;
- the range partitioner;
- the decider of the conditional flow, and the flow's routing;
- the command-line runner that turns `key=value` arguments into job parameters and checks the file paths they name;
- the two application exceptions.

Each operation is modelled as one of two things:

- a function on values, with lemmas about it;
- a method on a `Table` object, used where the source writes through a MyBatis mapper. The `Table` stands for one database table addressed by its business code.

Where Java has `null`, the model has `Option`. Where a call throws, the model returns `Result.Err` with the exception. These inputs are made parameters of the model:

- the contents of a parsed file;
- the set of writes that fail;
- the file system;
- the clock.

Module layout:

- `JavaLang`, `Streams` and `BatchCore` hold the library behaviour the core relies on:
  - `String.trim`, `isBlank`, `toLowerCase`, `split`, `String.join`, `Integer.parseInt`;
  - `Stream.map` over a list;
  - the step's `RepeatStatus`, and the constraint-violation record.
- `Records` holds the entities, the CSV DTOs and their column bindings.
- `EntityTable` holds the keyed table and the upsert that all the `saveEntity` methods and chunk writers perform.
- The remaining modules follow the source classes one by one.

`RangePartitioner.partition` returns no partitions when the table is empty. Once the count is positive it divides by `gridSize`, so a grid size of 0 throws `ArithmeticException`; `RangePartitioner.Partition` returns that error.

## Model

| member | source | states |
|---|---|---|
| JavaLang.BlankIffAllTrimmed | src/main/java/com/example/batch/tasklet/EmployeeCsvToDbTasklet.java:27-30 | `trim().isEmpty()` holds exactly when every character of the string is one that `trim` removes |
| JavaLang.LowerCaseIdempotent | src/main/java/com/example/batch/processor/EmployeeProcessor.java:49-51 | lower-casing a string twice gives the same result as lower-casing it once |
| JavaLang.ParseInt | src/main/java/com/example/batch/validator/JobParametersValidator.java:56-66 | text is accepted exactly when it is digits, '+' then digits, or '-' then digits, and the value fits in 32 bits; the result is the digits' value, negated after '-'; anything else is a NumberFormatException |
| JavaLang.ParseIntExamples | src/main/java/com/example/batch/validator/JobParametersValidator.java:58 | "+5" is 5, "-0" is 0, "0100" is 100, and "-" and "" are rejected |
| JavaLang.ParseIntToString | src/main/java/com/example/batch/validator/JobParametersValidator.java:55-65 | `Integer.parseInt` reads back the decimal text of every 32-bit int |
| JavaLang.SplitNine | src/main/java/com/example/batch/tasklet/EmployeeDbToCsvTasklet.java:45-47 | splitting nine comma-free names joined by commas gives back exactly those nine names |
| Records.BindingsInPositionOrder | src/main/java/com/example/batch/dto/CsvEmployee.java:26-86 | each DTO binds field i to CSV position i, and its column and field lists are the declared ones (also CsvProduct.java and CsvSales.java, lines 25-67) |
| EntityTable.Upsert | src/main/java/com/example/batch/tasklet/EmployeeCsvToDbTasklet.java:46-56 | saving an entity adds at most its own code to the table's codes, and the id counter moves by at most one |
| EntityTable.UpsertOneRow | src/main/java/com/example/batch/tasklet/EmployeeCsvToDbTasklet.java:46-56 | after saving an entity, its code's row holds the entity; an existing row keeps its id; a new row gets the next id; every other row is unchanged |
| EntityTable.UpsertKeepsIds | src/main/java/com/example/batch/tasklet/EmployeeCsvToDbTasklet.java:46-56 | a save never changes the id of an existing row; the id counter advances exactly when the code is new |
| EntityTable.UpsertWellKeyed | src/main/java/com/example/batch/tasklet/EmployeeCsvToDbTasklet.java:46-56 | a save keeps every row under its own code and all ids distinct and below the counter |
| EntityTable.UpsertIdempotent | src/main/java/com/example/batch/tasklet/EmployeeCsvToDbTasklet.java:46-56 | saving the same entity twice leaves the table as one save does |
| EntityTable.CodesSnoc | src/main/java/com/example/batch/job/CsvToDbChunkJobConfig.java:123-138 | the codes of a list of saves are the codes of all but the last, plus the last one's code |
| EntityTable.UpsertAll | src/main/java/com/example/batch/job/CsvToDbChunkJobConfig.java:123-138 | saving a sequence removes no row and generates at most one id per entity |
| EntityTable.UpsertAllRows | src/main/java/com/example/batch/job/CsvToDbChunkJobConfig.java:123-138 | after saving a sequence, the table's codes are the old codes plus the saved ones; rows of other codes are unchanged; the table stays well keyed |
| EntityTable.UpsertAllLastWins | src/main/java/com/example/batch/job/CsvToDbChunkJobConfig.java:123-138 | the row of a code carries the last saved entity with that code |
| EntityTable.Table.constructor | src/main/java/com/example/batch/mapper/EmployeeMapper.java:20 | a table starts in the given state, with the given keying |
| EntityTable.Table.SelectByCode | src/main/java/com/example/batch/mapper/EmployeeMapper.java:37 | returns null exactly when no row has the code, and otherwise that row |
| EntityTable.Table.Update | src/main/java/com/example/batch/mapper/EmployeeMapper.java:53 | replaces the row of the entity's code and leaves the id counter alone |
| EntityTable.Table.Insert | src/main/java/com/example/batch/mapper/EmployeeMapper.java:45 | adds a row under the entity's code, carrying the next generated id, and advances the counter |
| EntityTable.SaveEntity | src/main/java/com/example/batch/tasklet/EmployeeCsvToDbTasklet.java:46-56 | select then update or insert: the new table is the upsert of the entity; a failing write leaves the table as it was |
| CsvToDbTasklet.Import | src/main/java/com/example/batch/tasklet/CsvToDbTasklet.java:62-77 | each record is counted at most once, as processed or as an error; no row is removed; ids are generated only for processed records |
| CsvToDbTasklet.Execute | src/main/java/com/example/batch/tasklet/CsvToDbTasklet.java:42-83 | a missing or empty input path throws before anything is read; a parse failure throws with the table untouched; otherwise the table and the two counters are those of `Import`, and the step is FINISHED |
| CsvToDbTasklet.ImportTally | src/main/java/com/example/batch/tasklet/CsvToDbTasklet.java:66-77 | every record is either filtered, saved or counted as an error: processed + errors + filtered = number of records |
| CsvToDbTasklet.ImportWithoutFaults | src/main/java/com/example/batch/tasklet/CsvToDbTasklet.java:73-76 | with no failing write, the error count is 0 |
| CsvToDbTasklet.ImportIsUpsertAll | src/main/java/com/example/batch/tasklet/CsvToDbTasklet.java:66-77 | the import's table is the upsert, in file order, of the converted records whose write succeeds, and `processed` counts them |
| CsvToDbTasklet.ImportRows | src/main/java/com/example/batch/tasklet/CsvToDbTasklet.java:66-77 | after an import the table holds the old codes plus those of the saved records; other rows are unchanged; the table stays well keyed |
| DbToCsvTasklet.Execute | src/main/java/com/example/batch/tasklet/DbToCsvTasklet.java:44-85 | a missing or empty output path, a failing load and a file that cannot be opened each throw and write nothing; otherwise the file is the header line followed by the non-null conversions, and the count is theirs |
| DbToCsvTasklet.NonNull | src/main/java/com/example/batch/tasklet/DbToCsvTasklet.java:59-65 | the export never has more records than were loaded |
| DbToCsvTasklet.NonNullMembers | src/main/java/com/example/batch/tasklet/DbToCsvTasklet.java:59-65 | a record is exported exactly when some loaded entity converts to it |
| DbToCsvTasklet.NonNullAppend | src/main/java/com/example/batch/tasklet/DbToCsvTasklet.java:59-65 | filtering keeps load order: the export of a concatenation is the concatenation of the exports |
| DbToCsvTasklet.NonNullTotal | src/main/java/com/example/batch/tasklet/DbToCsvTasklet.java:59-65 | when every conversion succeeds, the export is the conversion of each entity, in order |
| EmployeeProcessor.LowerEmail | src/main/java/com/example/batch/processor/EmployeeProcessor.java:49-51 | a null email stays null; a given one becomes lower case, with the same length |
| EmployeeProcessor.Process | src/main/java/com/example/batch/processor/EmployeeProcessor.java:25-55 | filters the record (returns null) exactly when its code is null or blank; otherwise every field is copied, the email is lower-cased and a missing status becomes ACTIVE |
| EmployeeProcessor.ProcessNormalisesEmail | src/main/java/com/example/batch/processor/EmployeeProcessor.java:49-51 | the processed email is the lower-cased input, and lower-casing it again changes nothing |
| EmployeeProcessor.ProcessStable | src/main/java/com/example/batch/processor/EmployeeProcessor.java:25-55 | processing the processed record's own fields again gives the same employee |
| EmployeeCsvToDbTasklet.ConvertToEntity | src/main/java/com/example/batch/tasklet/EmployeeCsvToDbTasklet.java:26-43 | returns null exactly when the code is null or blank |
| EmployeeCsvToDbTasklet.ConvertAgreesWithProcessor | src/main/java/com/example/batch/tasklet/EmployeeCsvToDbTasklet.java:26-43 | the tasklet's conversion is the chunk job's `EmployeeProcessor.process`, for every record |
| EmployeeCsvToDbTasklet.EmployeeKeyingLawful | src/main/java/com/example/batch/tasklet/EmployeeCsvToDbTasklet.java:46-56 | employees are keyed by code: setting the id keeps the code and the other fields |
| EmployeeCsvToDbTasklet.ConvertKeepsCode | src/main/java/com/example/batch/tasklet/EmployeeCsvToDbTasklet.java:26-43 | a converted entity carries the record's code |
| EmployeeCsvToDbTasklet.SaveEntity | src/main/java/com/example/batch/tasklet/EmployeeCsvToDbTasklet.java:46-56 | the employee table after the save is the upsert of the employee |
| EmployeeCsvToDbTasklet.Execute | src/main/java/com/example/batch/tasklet/CsvToDbTasklet.java:42-83 | the generic tasklet instantiated with employees |
| ProductCsvToDbTasklet.ConvertToEntity | src/main/java/com/example/batch/tasklet/ProductCsvToDbTasklet.java:26-43 | returns null exactly when the product code is null or blank; otherwise copies every field, and a missing isActive becomes true |
| ProductCsvToDbTasklet.ProductKeyingLawful | src/main/java/com/example/batch/tasklet/ProductCsvToDbTasklet.java:46-56 | products are keyed by code: setting the id keeps the code and the other fields |
| ProductCsvToDbTasklet.ConvertKeepsCode | src/main/java/com/example/batch/tasklet/ProductCsvToDbTasklet.java:26-43 | a converted product carries the record's code |
| ProductCsvToDbTasklet.SaveEntity | src/main/java/com/example/batch/tasklet/ProductCsvToDbTasklet.java:46-56 | the product table after the save is the upsert of the product |
| ProductCsvToDbTasklet.Execute | src/main/java/com/example/batch/tasklet/CsvToDbTasklet.java:42-83 | the generic tasklet instantiated with products |
| SalesCsvToDbTasklet.ConvertToEntity | src/main/java/com/example/batch/tasklet/SalesCsvToDbTasklet.java:26-43 | returns null exactly when the transaction id is null or blank; otherwise copies every field, and a missing status becomes COMPLETED |
| SalesCsvToDbTasklet.SalesKeyingLawful | src/main/java/com/example/batch/tasklet/SalesCsvToDbTasklet.java:46-56 | sales are keyed by transaction id: setting the id keeps the key and the other fields |
| SalesCsvToDbTasklet.ConvertKeepsCode | src/main/java/com/example/batch/tasklet/SalesCsvToDbTasklet.java:26-43 | a converted sale carries the record's transaction id |
| SalesCsvToDbTasklet.SaveEntity | src/main/java/com/example/batch/tasklet/SalesCsvToDbTasklet.java:46-56 | the sales table after the save is the upsert of the sale |
| SalesCsvToDbTasklet.Execute | src/main/java/com/example/batch/tasklet/CsvToDbTasklet.java:42-83 | the generic tasklet instantiated with sales |
| EmployeeDbToCsvTasklet.ConvertToCsvDto | src/main/java/com/example/batch/tasklet/EmployeeDbToCsvTasklet.java:28-42 | never null; carries each of the nine CSV fields of the entity |
| EmployeeDbToCsvTasklet.HeaderColumns | src/main/java/com/example/batch/tasklet/EmployeeDbToCsvTasklet.java:45-47 | the header names the nine `CsvEmployee` columns in position order |
| EmployeeDbToCsvTasklet.ExportsEveryEmployee | src/main/java/com/example/batch/tasklet/EmployeeDbToCsvTasklet.java:28-42 | every loaded employee is exported, in load order |
| EmployeeDbToCsvTasklet.RoundTripFromCsv | src/main/java/com/example/batch/tasklet/EmployeeDbToCsvTasklet.java:28-42 | CSV to entity to CSV gives the record back exactly when its code is non-blank, its status is set and its email is null or lower case |
| EmployeeDbToCsvTasklet.RoundTripFromEntity | src/main/java/com/example/batch/tasklet/EmployeeDbToCsvTasklet.java:28-42 | entity to CSV to entity gives the entity back without id and timestamps, under those same conditions |
| ProductDbToCsvTasklet.ConvertToCsvDto | src/main/java/com/example/batch/tasklet/ProductDbToCsvTasklet.java:28-42 | never null; carries each CSV field of the product |
| ProductDbToCsvTasklet.HeaderColumns | src/main/java/com/example/batch/tasklet/ProductDbToCsvTasklet.java:45-47 | the header names the nine `CsvProduct` columns in position order |
| ProductDbToCsvTasklet.ExportsEveryProduct | src/main/java/com/example/batch/tasklet/ProductDbToCsvTasklet.java:28-42 | every loaded product is exported, in load order |
| ProductDbToCsvTasklet.RoundTripFromCsv | src/main/java/com/example/batch/tasklet/ProductDbToCsvTasklet.java:28-42 | CSV to entity to CSV gives the record back exactly when its code is non-blank and isActive is given |
| ProductDbToCsvTasklet.RoundTripFromEntity | src/main/java/com/example/batch/tasklet/ProductDbToCsvTasklet.java:28-42 | entity to CSV to entity gives the product back without id and timestamps when its code is non-blank and isActive is set |
| SalesDbToCsvTasklet.ConvertToCsvDto | src/main/java/com/example/batch/tasklet/SalesDbToCsvTasklet.java:28-42 | never null; carries each CSV field of the sale |
| SalesDbToCsvTasklet.HeaderColumns | src/main/java/com/example/batch/tasklet/SalesDbToCsvTasklet.java:45-47 | the header names the nine `CsvSales` columns in position order |
| SalesDbToCsvTasklet.ExportsEverySale | src/main/java/com/example/batch/tasklet/SalesDbToCsvTasklet.java:28-42 | every loaded sale is exported, in load order |
| SalesDbToCsvTasklet.RoundTripFromCsv | src/main/java/com/example/batch/tasklet/SalesDbToCsvTasklet.java:28-42 | CSV to entity to CSV gives the record back exactly when its transaction id is non-blank and its status is given |
| SalesDbToCsvTasklet.RoundTripFromEntity | src/main/java/com/example/batch/tasklet/SalesDbToCsvTasklet.java:28-42 | entity to CSV to entity gives the sale back without id and timestamps when its transaction id is non-blank and its status is set |
| CsvToDbChunkJobConfig.ProductProcessor | src/main/java/com/example/batch/job/CsvToDbChunkJobConfig.java:194-213 | filters exactly the records with a null or blank product code; a missing isActive becomes true |
| CsvToDbChunkJobConfig.SalesProcessor | src/main/java/com/example/batch/job/CsvToDbChunkJobConfig.java:292-311 | filters exactly the records with a null or blank transaction id; a missing status becomes COMPLETED |
| CsvToDbChunkJobConfig.ProductProcessorAgrees | src/main/java/com/example/batch/job/CsvToDbChunkJobConfig.java:194-213 | the product processor converts every record exactly as the product tasklet does |
| CsvToDbChunkJobConfig.SalesProcessorAgrees | src/main/java/com/example/batch/job/CsvToDbChunkJobConfig.java:292-311 | the sales processor converts every record exactly as the sales tasklet does |
| CsvToDbChunkJobConfig.FirstFault | src/main/java/com/example/batch/job/CsvToDbChunkJobConfig.java:123-138 | the position found is a failing write, and no earlier position fails; None means no write fails |
| CsvToDbChunkJobConfig.Written | src/main/java/com/example/batch/job/CsvToDbChunkJobConfig.java:123-138 | the writer gets through the items before the first failing position, or the whole chunk when none fails: every item before the count is written, and a count short of the chunk is a failing position |
| CsvToDbChunkJobConfig.WriteChunk | src/main/java/com/example/batch/job/CsvToDbChunkJobConfig.java:121-141 | items are upserted in order up to the first failing one, which is rethrown; the table is the upsert of exactly the items before it |
| CsvToDbChunkJobConfig.FirstFaultAt | src/main/java/com/example/batch/job/CsvToDbChunkJobConfig.java:135-137 | a failing position with no failure before it is the first fault |
| CsvToDbChunkJobConfig.FirstFaultNone | src/main/java/com/example/batch/job/CsvToDbChunkJobConfig.java:123-138 | with no failing position there is no first fault |
| CsvToDbChunkJobConfig.CleanChunkRows | src/main/java/com/example/batch/job/CsvToDbChunkJobConfig.java:123-138 | a chunk written without failure leaves one row per code, other rows unchanged, and each code's row carrying its last item |
| CsvToDbChunkJobConfig.EmployeeWriter | src/main/java/com/example/batch/job/CsvToDbChunkJobConfig.java:121-141 | the shared writer behaviour on the employee table |
| CsvToDbChunkJobConfig.ProductWriter | src/main/java/com/example/batch/job/CsvToDbChunkJobConfig.java:220-238 | the shared writer behaviour on the product table |
| CsvToDbChunkJobConfig.SalesWriter | src/main/java/com/example/batch/job/CsvToDbChunkJobConfig.java:318-336 | the shared writer behaviour on the sales table |
| DbToCsvChunkJobConfig.EmployeeToCsvProcessor | src/main/java/com/example/batch/job/DbToCsvChunkJobConfig.java:97-113 | never filters; carries each CSV field of the employee |
| DbToCsvChunkJobConfig.ProductToCsvProcessor | src/main/java/com/example/batch/job/DbToCsvChunkJobConfig.java:181-197 | never filters; carries each CSV field of the product |
| DbToCsvChunkJobConfig.SalesToCsvProcessor | src/main/java/com/example/batch/job/DbToCsvChunkJobConfig.java:265-281 | never filters; carries each CSV field of the sale |
| DbToCsvChunkJobConfig.ProcessorsAgreeWithTasklets | src/main/java/com/example/batch/job/DbToCsvChunkJobConfig.java:97-113 | each chunk processor converts exactly as the matching tasklet does (also lines 181-197 and 265-281) |
| DbToCsvChunkJobConfig.HeadersMatchTasklets | src/main/java/com/example/batch/job/DbToCsvChunkJobConfig.java:135 | each chunk writer's header line is the matching tasklet's header (also lines 219 and 303) |
| DbToCsvChunkJobConfig.EmployeeNamesMatchHeader | src/main/java/com/example/batch/job/DbToCsvChunkJobConfig.java:124-125 | the extracted field names line up with the header's columns |
| DbToCsvChunkJobConfig.ProductNamesMatchHeader | src/main/java/com/example/batch/job/DbToCsvChunkJobConfig.java:208-209 | the extracted field names line up with the header's columns |
| DbToCsvChunkJobConfig.SalesNamesMatchHeader | src/main/java/com/example/batch/job/DbToCsvChunkJobConfig.java:292-293 | the extracted field names line up with the header's columns |
| InputDataValidator.Entries | src/main/java/com/example/batch/validator/InputDataValidator.java:25-27 | one `path: message` entry per violation, in visiting order |
| InputDataValidator.Validate | src/main/java/com/example/batch/validator/InputDataValidator.java:21-32 | throws exactly when there is a violation; the exception is a ValidationException whose message starts with "Validation failed: " |
| InputDataValidator.ValidateMessage | src/main/java/com/example/batch/validator/InputDataValidator.java:25-30 | the message is the prefix followed by the entries joined by ", ", one entry per violation |
| InputDataValidator.IterationSize | src/main/java/com/example/batch/validator/InputDataValidator.java:24-27 | a visiting order of the violation set is as long as the set |
| InputDataValidator.DistinctOnce | src/main/java/com/example/batch/validator/InputDataValidator.java:24-27 | each violation occurs once in a visiting order |
| InputDataValidator.IterationsPermute | src/main/java/com/example/batch/validator/InputDataValidator.java:24-27 | any two visiting orders of the set are permutations of each other |
| InputDataValidator.MessageUpToOrder | src/main/java/com/example/batch/validator/InputDataValidator.java:25-27 | whatever the order, the message holds the same entries: one for each violation and nothing else |
| InputDataValidator.SingleViolation | src/main/java/com/example/batch/validator/InputDataValidator.java:21-32 | one violation gives "Validation failed: path: message" |
| CsvEmployeeConstraints.Check | src/main/java/com/example/batch/dto/CsvEmployee.java:26-86 | a single rule yields at most one violation, on its own path |
| CsvEmployeeConstraints.On | src/main/java/com/example/batch/dto/CsvEmployee.java:26-86 | selects exactly the violations on one property path |
| CsvEmployeeConstraints.IsValid | src/main/java/com/example/batch/dto/CsvEmployee.java:26-86 | a valid record has every @NotBlank and @NotNull field present |
| CsvEmployeeConstraints.Violations | src/main/java/com/example/batch/dto/CsvEmployee.java:26-86 | every violation reported names one of the nine constrained properties |
| CsvEmployeeConstraints.ValidIffNoViolations | src/main/java/com/example/batch/dto/CsvEmployee.java:26-86 | a record has no violation exactly when every field satisfies its annotations |
| CsvEmployeeConstraints.ValidatorAcceptsIffValid | src/main/java/com/example/batch/validator/InputDataValidator.java:21-32 | the item validator accepts a record exactly when it satisfies all its annotations |
| CsvEmployeeConstraints.OnUnion | src/main/java/com/example/batch/dto/CsvEmployee.java:26-86 | selecting a path distributes over union |
| CsvEmployeeConstraints.OnUniform | src/main/java/com/example/batch/dto/CsvEmployee.java:26-86 | a group whose violations share a path: selecting that path gives the whole group, any other path nothing |
| CsvEmployeeConstraints.Isolate | src/main/java/com/example/batch/dto/CsvEmployee.java:26-86 | the violations on one path are the union of what each field's group puts there |
| CsvEmployeeConstraints.GroupsOnOwnPath | src/main/java/com/example/batch/dto/CsvEmployee.java:26-86 | each field's annotations report on that field's own path |
| CsvEmployeeConstraints.OnlyCodeRules | src/main/java/com/example/batch/dto/CsvEmployee.java:26-30 | the violations on employeeCode come from the employeeCode annotations alone |
| CsvEmployeeConstraints.OnlyDepartmentRules | src/main/java/com/example/batch/dto/CsvEmployee.java:54-58 | the violations on department come from the department annotations alone |
| CsvEmployeeConstraints.OnlySalaryRules | src/main/java/com/example/batch/dto/CsvEmployee.java:67-72 | the violations on salary come from the salary annotations alone |
| CsvEmployeeConstraints.OnlyStatusRules | src/main/java/com/example/batch/dto/CsvEmployee.java:83-86 | the violations on status come from the status annotation alone |
| CsvEmployeeConstraints.EmployeeCodeRules | src/main/java/com/example/batch/dto/CsvEmployee.java:26-30 | the not-blank violation is present exactly when the code is null or blank; the pattern violation exactly when a given code is not EMP plus six digits; at most two violations on the path |
| CsvEmployeeConstraints.DepartmentRules | src/main/java/com/example/batch/dto/CsvEmployee.java:54-58 | the not-blank violation is present exactly when the department is blank; the pattern violation exactly when a given department is none of the five allowed |
| CsvEmployeeConstraints.SalaryRules | src/main/java/com/example/batch/dto/CsvEmployee.java:67-72 | a null salary gives exactly the not-null violation; a given one violates the minimum exactly when it is at most 0, and the maximum exactly when it exceeds 99999999.99; never both |
| CsvEmployeeConstraints.StatusRules | src/main/java/com/example/batch/dto/CsvEmployee.java:83-86 | a status violation is present exactly when a given status is none of ACTIVE, INACTIVE, SUSPENDED; a null status is accepted |
| CsvEmployeeConstraints.EmployeeCodeNotBlank | src/main/java/com/example/batch/dto/CsvEmployee.java:26-30 | a valid record's code is neither null nor blank |
| CsvEmployeeConstraints.ValidRecordsAreProcessed | src/main/java/com/example/batch/processor/EmployeeProcessor.java:29-32 | the processor never filters a record that passed validation |
| CsvEmployeeConstraints.StartsWithText | src/main/java/com/example/batch/dto/CsvEmployee.java:29 | a code of the pattern has text, so it passes the not-blank rule |
| CsvEmployeeConstraints.SampleIsValid | src/main/java/com/example/batch/dto/CsvEmployee.java:26-86 | a complete sample record satisfies every rule |
| CsvEmployeeConstraints.OnlyTheCodeVaries | src/main/java/com/example/batch/dto/CsvEmployee.java:26-30 | on the sample with its code replaced, the violations are exactly those of the code |
| CsvEmployeeConstraints.ShortCodeRejected | src/main/java/com/example/batch/dto/CsvEmployee.java:29 | "EMP12345" gives the pattern violation only |
| CsvEmployeeConstraints.BlankCodeRejectedTwice | src/main/java/com/example/batch/dto/CsvEmployee.java:28-29 | a blank code gives both the not-blank and the pattern violation |
| JobParametersValidator.Validate | src/main/java/com/example/batch/validator/JobParametersValidator.java:27-76 | the required keys are checked first, then the input file, output file, chunk size and processing date, each only when present |
| JobParametersValidator.ValidateAcceptsIff | src/main/java/com/example/batch/validator/JobParametersValidator.java:27-76 | validation passes exactly when both required keys are present and every present parameter is acceptable |
| JobParametersValidator.MissingRequiredKeyRejected | src/main/java/com/example/batch/validator/JobParametersValidator.java:21-28 | a missing required key is reported, and only missing required keys are reported |
| JobParametersValidator.InputExtensionRejected | src/main/java/com/example/batch/validator/JobParametersValidator.java:33-41 | an input file not ending in ".csv" is rejected with its name in the message |
| JobParametersValidator.InputTraversalRejected | src/main/java/com/example/batch/validator/JobParametersValidator.java:33-41 | a ".csv" input file containing ".." is rejected as path traversal |
| JobParametersValidator.OutputFileChecked | src/main/java/com/example/batch/validator/JobParametersValidator.java:44-52 | with a valid input file, an output file that does not end in ".csv" or ".pdf" is rejected with "Output file must be CSV or PDF: " plus the name, and one with such a suffix that contains ".." with "Invalid file path: " plus the name |
| JobParametersValidator.ChunkSizeChecked | src/main/java/com/example/batch/validator/JobParametersValidator.java:55-65 | a chunk size that is not an int is rejected as a number error; an int outside 1..10000 is rejected as a range error |
| JobParametersValidator.ProcessingDateChecked | src/main/java/com/example/batch/validator/JobParametersValidator.java:68-75 | a date that is not an ISO local date is rejected with its text in the message |
| JobParametersValidator.RangeMessageNamesBounds | src/main/java/com/example/batch/validator/JobParametersValidator.java:62 | the range message names the bounds 1 and 10000 |
| JobParametersValidator.SingleDotName | src/main/java/com/example/batch/validator/JobParametersValidator.java:37-39 | a name and an extension without dots, joined by one dot, contain no ".." |
| JobParametersValidator.TestFileNamesOk | src/test/java/com/example/batch/validator/JobParametersValidatorTest.java:21-30 | "input.csv" and "output.csv" pass their checks |
| JobParametersValidator.ValidParametersAccepted | src/test/java/com/example/batch/validator/JobParametersValidatorTest.java:21-30 | the complete parameter set from the test is accepted |
| JobParametersValidator.MissingOutputFileRejected | src/test/java/com/example/batch/validator/JobParametersValidatorTest.java:33-40 | without outputFile the parameters are rejected, naming outputFile |
| JobParametersValidator.TxtInputFileRejected | src/test/java/com/example/batch/validator/JobParametersValidatorTest.java:43-55 | "input.txt" is rejected as an invalid parameter whose message contains "CSV file" |
| JobParametersValidator.ChunkSize20000Rejected | src/test/java/com/example/batch/validator/JobParametersValidatorTest.java:58-71 | chunk size 20000 is rejected with the bounds in the message |
| JobParametersValidator.DayFirstDateRejected | src/test/java/com/example/batch/validator/JobParametersValidatorTest.java:74-87 | "01-01-2024" is rejected as a date |
| JobParametersValidator.TraversalPathRejected | src/test/java/com/example/batch/validator/JobParametersValidatorTest.java:90-102 | "../../../etc/passwd.csv" is rejected as path traversal |
| RangePartitioner.PartitionSize | src/main/java/com/example/batch/partitioner/RangePartitioner.java:36 | the rows per partition are never negative, and at least one when there are rows |
| RangePartitioner.ContextFor | src/main/java/com/example/batch/partitioner/RangePartitioner.java:40-50 | partition i starts at i * size and ends at the smaller of its last slot and the last row; it carries its number i and the name "partition" + i |
| RangePartitioner.PartitionNameInjective | src/main/java/com/example/batch/partitioner/RangePartitioner.java:48-50 | different partition numbers give different names |
| RangePartitioner.Partition | src/main/java/com/example/batch/partitioner/RangePartitioner.java:23-56 | a null or zero count gives no partitions; a grid size of 0 then throws ArithmeticException; a negative one gives none; otherwise there are gridSize partitions, partition i covering [i*size, min((i+1)*size, total)-1] |
| RangePartitioner.PartitionSizeIsCeiling | src/main/java/com/example/batch/partitioner/RangePartitioner.java:36 | the partition size is the least size with size * gridSize >= total |
| RangePartitioner.ContextBounds | src/main/java/com/example/batch/partitioner/RangePartitioner.java:41-42 | each range starts at 0 or later, ends by total-1 and holds at most size values |
| RangePartitioner.ContextsAscending | src/main/java/com/example/batch/partitioner/RangePartitioner.java:40-53 | later partitions start later |
| RangePartitioner.ContextsDisjoint | src/main/java/com/example/batch/partitioner/RangePartitioner.java:40-53 | no value falls in two partitions |
| RangePartitioner.ContextsCover | src/main/java/com/example/batch/partitioner/RangePartitioner.java:40-53 | every value from 0 to total-1 falls in some partition |
| RangePartitioner.EmptyIffPastEnd | src/main/java/com/example/batch/partitioner/RangePartitioner.java:41-42 | a partition's range is empty exactly when it starts at or past the total |
| RangePartitioner.EmptyPartitionsTrail | src/main/java/com/example/batch/partitioner/RangePartitioner.java:40-53 | once a partition is empty, every later one is too |
| RangePartitioner.TwentyThreeOverFive | src/main/java/com/example/batch/partitioner/RangePartitioner.java:36-42 | 23 rows over 5 partitions: size 5, ranges 0-4, 5-9, 10-14, 15-19, 20-22 |
| RangePartitioner.ThreeOverFive | src/main/java/com/example/batch/partitioner/RangePartitioner.java:36-42 | 3 rows over 5 partitions: size 1, with the last two partitions empty |
| JobFlowDecider.Decide | src/main/java/com/example/batch/decider/JobFlowDecider.java:15-42 | no step execution gives COMPLETED; HIGH_SKIP_RATE exactly when more than one record in ten was skipped; NO_DATA only when nothing was read or skipped; LARGE_DATA only above 10000 reads |
| JobFlowDecider.DecisionTable | src/main/java/com/example/batch/decider/JobFlowDecider.java:15-42 | states for each decision exactly which counts lead to it |
| JobFlowDecider.NullStepIsCompleted | src/main/java/com/example/batch/decider/JobFlowDecider.java:17 | without a step execution the decision is COMPLETED |
| JobFlowDecider.SkipsWithoutReadsAreHighRate | src/main/java/com/example/batch/decider/JobFlowDecider.java:22-25 | skips with no reads count as a high skip rate |
| JobFlowDecider.HighSkipRateWins | src/main/java/com/example/batch/decider/JobFlowDecider.java:22-37 | a high skip rate is decided whatever the read count |
| JobFlowDecider.TenPercentIsNotHigh | src/main/java/com/example/batch/decider/JobFlowDecider.java:22-25 | a skip rate of exactly 10% is not high |
| JobFlowDecider.LargeDataBoundary | src/main/java/com/example/batch/decider/JobFlowDecider.java:34-41 | 10000 reads is COMPLETED and 10001 is LARGE_DATA |
| JobFlowDecider.NamesDistinct | src/main/java/com/example/batch/decider/JobFlowDecider.java:22-41 | the four statuses the decider returns have distinct names |
| ConditionalFlowJobConfig.Route | src/main/java/com/example/batch/job/ConditionalFlowJobConfig.java:30-39 | each decision is routed to its step: HIGH_SKIP_RATE to error handling, NO_DATA to the no-data step, LARGE_DATA to large processing, COMPLETED to normal processing |
| ConditionalFlowJobConfig.RouteTable | src/main/java/com/example/batch/job/ConditionalFlowJobConfig.java:30-39 | the four transitions as a table |
| ConditionalFlowJobConfig.ExactlyOneTransition | src/main/java/com/example/batch/job/ConditionalFlowJobConfig.java:30-39 | exactly one transition matches each decision |
| ConditionalFlowJobConfig.TargetsDistinct | src/main/java/com/example/batch/job/ConditionalFlowJobConfig.java:30-39 | different decisions go to different steps |
| ConditionalFlowJobConfig.ValidationExit | src/main/java/com/example/batch/job/ConditionalFlowJobConfig.java:43-61 | the validation step fails exactly when the input file parameter is null or empty |
| ConditionalFlowJobConfig.ErrorHandlingExit | src/main/java/com/example/batch/job/ConditionalFlowJobConfig.java:90-100 | errorHandlingStep always ends FAILED |
| ConditionalFlowJobConfig.TargetExit | src/main/java/com/example/batch/job/ConditionalFlowJobConfig.java:64-111 | of the four routed steps only errorHandlingStep ends FAILED |
| ConditionalFlowJobConfig.RunFlow | src/main/java/com/example/batch/job/ConditionalFlowJobConfig.java:30-111 | the flow runs validation first, then the decider, then the routed step |
| ConditionalFlowJobConfig.DeciderAfterValidation | src/main/java/com/example/batch/job/ConditionalFlowJobConfig.java:30-39 | validation always runs first; the decider runs exactly when validation completes, and the second step is the routed one; otherwise the job stops FAILED after validation |
| ConditionalFlowJobConfig.FailedOnlyOnHighSkipRate | src/main/java/com/example/batch/job/ConditionalFlowJobConfig.java:90-100 | after a successful validation the job ends FAILED exactly on a high skip rate |
| ConditionalFlowJobConfig.ValidatedRunsEndInNoData | src/main/java/com/example/batch/job/ConditionalFlowJobConfig.java:103-111 | a validated run with nothing read or skipped ends in the no-data step |
| DataValidationException.New | src/main/java/com/example/batch/exception/DataValidationException.java:9-12 | keeps the message and the list as given, with no cause |
| DataValidationException.NewWithCause | src/main/java/com/example/batch/exception/DataValidationException.java:14-17 | keeps the message, the list and the cause as given |
| DataValidationException.ErrorTexts | src/main/java/com/example/batch/exception/DataValidationException.java:24-29 | one text per error, a null error written as "null" |
| DataValidationException.GetMessage | src/main/java/com/example/batch/exception/DataValidationException.java:24-29 | without errors the message is the base one; with errors it starts with the base message (a null base written as "null") and " - Errors: " |
| DataValidationException.ErrorsAsGiven | src/main/java/com/example/batch/exception/DataValidationException.java:9-21 | the getter returns the list the exception was built with, null included |
| DataValidationException.MessageUnchangedIff | src/main/java/com/example/batch/exception/DataValidationException.java:24-29 | getMessage differs from the base message exactly when the list is non-null and non-empty |
| DataValidationException.EveryErrorInMessage | src/main/java/com/example/batch/exception/DataValidationException.java:24-29 | every error, as text, occurs in the message |
| DataValidationException.TwoErrorsExample | src/main/java/com/example/batch/exception/DataValidationException.java:24-29 | "bad" with errors "x" and null gives "bad - Errors: x, null" |
| DataValidationException.NullBaseExample | src/main/java/com/example/batch/exception/DataValidationException.java:24-29 | a null base message with error "x" gives "null - Errors: x" |
| BusinessException.Full | src/main/java/com/example/batch/exception/BusinessException.java:32-36 | every field is as given |
| BusinessException.WithMessage | src/main/java/com/example/batch/exception/BusinessException.java:8-12 | code "BUS001", not retryable, no cause |
| BusinessException.WithCode | src/main/java/com/example/batch/exception/BusinessException.java:14-18 | the given code, not retryable, no cause |
| BusinessException.WithCodeAndFlag | src/main/java/com/example/batch/exception/BusinessException.java:20-24 | the given code and flag, no cause |
| BusinessException.WithCause | src/main/java/com/example/batch/exception/BusinessException.java:26-30 | code "BUS001", not retryable, the given cause |
| BusinessException.ConstructorsAreFull | src/main/java/com/example/batch/exception/BusinessException.java:8-36 | each shorter constructor is the full one with the defaults filled in |
| BusinessException.RetryableOnlyWhenAsked | src/main/java/com/example/batch/exception/BusinessException.java:8-44 | only a constructor given the flag true makes a retryable exception |
| JobRunner.SplitFirst | src/main/java/com/example/batch/runner/JobRunner.java:62 | `split("=", 2)` gives two pieces exactly when the argument holds '=' and one piece otherwise |
| JobRunner.SplitFirstIff | src/main/java/com/example/batch/runner/JobRunner.java:62-63 | an argument splits into (key, value) exactly when it is key=value with no '=' in the key |
| JobRunner.SplitFirstNoEquals | src/main/java/com/example/batch/runner/JobRunner.java:62-63 | an argument without '=' splits into itself |
| JobRunner.LastSlash | src/main/java/com/example/batch/runner/JobRunner.java:126-127 | finds the last '/' of a path, if there is one |
| JobRunner.ParentOf | src/main/java/com/example/batch/runner/JobRunner.java:126-127 | a path without a '/' has no parent; every other path except "/" has one; the parent is the text before the last '/', or "/" when that '/' is the first character |
| JobRunner.ValidateFilePathAsWritten | src/main/java/com/example/batch/runner/JobRunner.java:119-133 | an input key passes exactly when the file exists, with the message "Input file not found: " plus the path; an output key whose path has no parent throws NullPointerException, and otherwise fails exactly when its missing parent cannot be created and leaves that parent existing; other keys change nothing; files are only ever added |
| JobRunner.ValidateFilePath | src/main/java/com/example/batch/runner/JobRunner.java:119-133 | an input key passes exactly when the file exists, with the message "Input file not found: " plus the path; an output key fails exactly when its missing parent cannot be created, and otherwise that parent exists afterwards; other keys change nothing; files are only ever added |
| JobRunner.ValidateFilePathCorrection | src/main/java/com/example/batch/runner/JobRunner.java:125-131 | the two versions differ exactly on output keys whose path has no parent |
| JobRunner.OutputKeyNamesOutput | src/main/java/com/example/batch/runner/JobRunner.java:68 | "output.file.path" is an output file-path key and not an input key |
| JobRunner.OutputInWorkingDirectory | src/main/java/com/example/batch/runner/JobRunner.java:125-131 | "output.file.path=out.csv" throws NullPointerException as written and passes when corrected |
| JobRunner.AddArgument | src/main/java/com/example/batch/runner/JobRunner.java:61-75 | the loop body as written, with validateFilePath's NullPointerException for an output path without a parent: after a throw nothing changes; without '=' the argument is ignored; files are only ever added and the blocked directories stay blocked |
| JobRunner.AddArguments | src/main/java/com/example/batch/runner/JobRunner.java:61-75 | once something was thrown the remaining arguments change nothing; parameters are only added or replaced; files are only added and the blocked directories stay blocked |
| JobRunner.RunSpec | src/main/java/com/example/batch/runner/JobRunner.java:37-88 | run as written: no arguments: no job specified; an unknown first argument: job not found; a known job is launched exactly when no argument check throws and the launcher does not fail, with the parameters the loop built; otherwise the argument's exception or the launcher's failure is rethrown |
| JobRunner.Run | src/main/java/com/example/batch/runner/JobRunner.java:37-88 | the loop over the arguments ends in the outcome and file system of RunSpec |
| JobRunner.AddArgumentsStep | src/main/java/com/example/batch/runner/JobRunner.java:61-75 | handling one more argument is one more AddArgument step |
| JobRunner.AddArgumentsStopped | src/main/java/com/example/batch/runner/JobRunner.java:61-75 | once an argument throws, the remaining arguments change nothing |
| JobRunner.AddArgumentsPrefix | src/main/java/com/example/batch/runner/JobRunner.java:61-75 | if the whole list passes, every prefix passes, and with fewer files |
| JobRunner.IgnoredArgument | src/main/java/com/example/batch/runner/JobRunner.java:62-63 | an argument without '=' can be dropped from anywhere in the list |
| JobRunner.LastValueIff | src/main/java/com/example/batch/runner/JobRunner.java:72 | the last value of a key is v exactly when some argument is key=v and no later argument sets that key |
| JobRunner.LastValueFound | src/main/java/com/example/batch/runner/JobRunner.java:72 | a last value comes from an argument with no later one for that key |
| JobRunner.LastValueOfLastPair | src/main/java/com/example/batch/runner/JobRunner.java:72 | the last argument that sets a key gives its last value |
| JobRunner.AddArgumentsParams | src/main/java/com/example/batch/runner/JobRunner.java:54-75 | a key is a parameter exactly when it was one before or some argument sets it, and then its value is the last one given |
| JobRunner.AddArgumentsInputsExist | src/main/java/com/example/batch/runner/JobRunner.java:68-70 | after the loop passes, every input file path given exists |
| JobRunner.AddArgumentsOutputDirsExist | src/main/java/com/example/batch/runner/JobRunner.java:68-70 | after the loop passes, every output file path given has a parent, and that parent exists |
| JobRunner.RunTimeAlwaysPassed | src/main/java/com/example/batch/runner/JobRunner.java:57-58 | a launched job always gets run.time, set to the clock's value unless an argument overrides it |
| JobRunner.LaunchedParameters | src/main/java/com/example/batch/runner/JobRunner.java:54-80 | a launched job's parameters are run.time and the last value of each key set by an argument |
| JobRunner.LaunchedPathsChecked | src/main/java/com/example/batch/runner/JobRunner.java:68-70 | a job is launched only when every input file given exists and every output file path given has a parent that exists |
| JobRunner.InputKeyNamesInput | src/main/java/com/example/batch/runner/JobRunner.java:68 | "input.file.path" is an input file-path key |
| JobRunner.AddOneArgument | src/main/java/com/example/batch/runner/JobRunner.java:61-75 | a one-argument list is one AddArgument step |
| JobRunner.AddArgumentsWithoutPaths | src/main/java/com/example/batch/runner/JobRunner.java:61-75 | arguments whose keys name no file path never throw and leave the file system unchanged |
| JobRunner.LaunchedWithoutPaths | src/main/java/com/example/batch/runner/JobRunner.java:37-88 | a known job whose arguments name no file path is launched, when the launcher does not fail, with the parameters the loop built and the file system unchanged |
| JobRunner.JobNameAlone | src/main/java/com/example/batch/runner/JobRunner.java:37-88 | a known job name with no other arguments launches the job with run.time set to the clock's value as its only parameter |
| JobRunner.BareOutputSplits | src/main/java/com/example/batch/runner/JobRunner.java:62-66 | "output.file.path=out.csv" splits into the key "output.file.path" and the value "out.csv" |
| JobRunner.BareOutputArgument | src/main/java/com/example/batch/runner/JobRunner.java:68-70 | the loop body given "output.file.path=out.csv" throws NullPointerException and changes nothing else |
| JobRunner.BareOutputFileThrows | src/main/java/com/example/batch/runner/JobRunner.java:61-75 | a known job given "output.file.path=out.csv" is not launched: the run throws NullPointerException with the file system unchanged |
| JobRunner.MissingInputFile | src/main/java/com/example/batch/runner/JobRunner.java:120-124 | a known job given "input.file.path=" and a missing file is not launched: IllegalArgumentException("Input file not found: " + path), with the file system unchanged |

## Left out

- File I/O, opencsv parsing and CSV rendering are not modelled. The tasklets receive the parsed records, or the parse failure, as a parameter. The exported file is the header line followed by a rendering function that is also a parameter.
- The Spring Batch runtime is not modelled: chunk scheduling, transactions and rollback, paging readers, skip and retry policies, listeners and metrics. A chunk writer is modelled as one call on a list of items.
- Write failures are a set of positions supplied by the caller. Which database errors happen is not modelled.
- The `ApplicationContext` lookup of a job bean is modelled as a set of job names. A bean with that name that is not a `Job` is not modelled.
- Logging, including `printAvailableJobs`, is left out.
- The clock is not modelled. The `run.time` value is a string parameter.
- `JobParameters` is modelled as a map from key to string. The insertion order of `JobParametersBuilder` is not kept. Only string parameters are modelled.
- The `launchFailure` parameter stands for an exception thrown by `JobLauncher.run`. What the launched job then does is not modelled.
- JobRunner.ParentOf: `Paths.get` is modelled on the raw string. The model does not normalise trailing or doubled '/' or Windows separators, so `out/` has the parent `out` here, where Java finds no parent. `InvalidPathException` for malformed paths is not modelled.
- JobRunner.ValidateFilePathAsWritten: it inherits the path gaps of `JobRunner.ParentOf`. With `output.file.path=out/`, Java throws NullPointerException while the model checks the directory `out`. `createDirectories` adds only the parent directory, not its missing ancestors, and its `IOException` is modelled abstractly as the file system's `blocked` set.
- JobRunner.ValidateFilePath: the corrected check has the same path gaps as `JobRunner.ValidateFilePathAsWritten`.
- JobRunner.ValidateFilePathAsWritten: the NullPointerException carries no helpful message text.
- JobParametersValidator.Validate: only the required-key check of `DefaultJobParametersValidator` is modelled. The optional-key list and the unknown-key check are not.
- JobParametersValidator.Validate: dates follow ISO local-date rules only for years written with four digits. Signed and extended years are not accepted.
- JobFlowDecider.Decide: the double comparison `(double) skip / read > 0.1` is modelled as the exact comparison `10 * skip > read`. A zero read count with skips counts as high, as the infinite quotient does. The rounding of the double quotient is not modelled.
- JavaLang.ParseInt: only the ASCII digits 0-9 are read. `Integer.parseInt` also accepts other Unicode decimal digits through `Character.digit`, such as full-width digits ("１００" is 100); the model rejects those.
- RangePartitioner.Partition: the partition size and the bounds are computed on unbounded integers. The model assumes that `totalCount + gridSize - 1` and `(i + 1) * partitionSize` fit a 32-bit int; Java wraps them (for example `totalCount` 2147483647 with `gridSize` 2), which the model does not reproduce.
- JavaLang.ToLowerCase: only ASCII letters are mapped; Unicode case mapping and locale rules are left out. `trim` removes characters up to U+0020, as Java does.
- CsvEmployeeConstraints.Violations: `@Email` on email and `@PastOrPresent` on hireDate are not checked, because they depend on Hibernate's address grammar and on the current date. `@Size` counts characters, not UTF-16 code units. Salaries are exact reals, not `BigDecimal` with a scale.
- CsvEmployeeConstraints: only the rules on `CsvEmployee` are modelled. `CsvProduct` and `CsvSales` carry no constraints that are checked in the core.
- EntityTable.SaveEntity, CsvToDbChunkJobConfig.EmployeeWriter, ProductWriter and SalesWriter: these require the entity's code to be non-null. That holds for every entity the processors and converters let through. A null code, which the source would pass to `selectBy…Code(null)`, is not modelled.
- EntityTable.Table: the mapper's SQL, `selectAll` ordering and timestamps are not modelled. `selectAll` is the caller-supplied load result.
- RetryConfig, the restartable and parallel jobs, the Jasper report jobs and the listeners are outside the modelled core.

## Findings

| source | as written | input that shows it | evidently intended | confidence | as-written member | corrected member |
|---|---|---|---|---|---|---|
| src/main/java/com/example/batch/runner/JobRunner.java:125-131 | `Files.exists(Paths.get(path).getParent())` is called even when the path has no parent directory, and `Files.exists(null)` throws NullPointerException | `output.file.path=out.csv` | a bare file name lives in the working directory, so there is no directory to check or create, and the path is accepted | not executed | JobRunner.ValidateFilePathAsWritten (counterexample: JobRunner.OutputInWorkingDirectory; whole run: JobRunner.BareOutputFileThrows) | JobRunner.ValidateFilePath |

The command line loop (`JobRunner.AddArgument`, `JobRunner.RunSpec`, `JobRunner.Run`) is modelled as written and calls `JobRunner.ValidateFilePathAsWritten`. `JobRunner.ValidateFilePathCorrection` shows that the corrected check differs from it only on output paths without a parent.
