/**
 * JobParametersValidator: the required/optional key sets set up by its constructor
 * and the ordered chain of checks in validate. Job parameters are a map from key to
 * string value, as JobRunner builds them with addString.
 */
module JobParametersValidator {
  import opened JavaLang

  const InputFile := "inputFile"
  const OutputFile := "outputFile"
  const ChunkSize := "chunkSize"
  const ProcessingDate := "processingDate"

  /** setRequiredKeys in the constructor. */
  const RequiredKeys: set<string> := {InputFile, OutputFile}
  /** setOptionalKeys in the constructor. */
  const OptionalKeys: set<string> := {ChunkSize, ProcessingDate, "run.id"}

  /** Why validate threw JobParametersInvalidException. */
  datatype Rejection =
    | MissingRequiredKeys(missing: set<string>)   // from super.validate
    | InvalidParameter(message: string)           // from one of this class's own checks

  // ---------------------------------------------------------------------------
  // ISO_LOCAL_DATE, four-digit years

  predicate IsLeapYear(y: int)
  {
    y % 4 == 0 && (y % 100 != 0 || y % 400 == 0)
  }

  function DaysInMonth(y: int, m: int): int
    requires 1 <= m <= 12
  {
    if m == 2 then (if IsLeapYear(y) then 29 else 28)
    else if m == 4 || m == 6 || m == 9 || m == 11 then 30
    else 31
  }

  /** `yyyy-MM-dd` with a real month and a day that exists in that month (strict resolution). */
  predicate IsIsoLocalDate(s: string)
  {
    |s| == 10 && s[4] == '-' && s[7] == '-' &&
    AllDigits(s[..4]) && AllDigits(s[5..7]) && AllDigits(s[8..]) &&
    var y := DigitsValue(s[..4]);
    var m := DigitsValue(s[5..7]);
    var d := DigitsValue(s[8..]);
    1 <= m <= 12 && 1 <= d <= DaysInMonth(y, m)
  }

  // ---------------------------------------------------------------------------
  // validate

  const InputMessage := "Input file must be a CSV file: "
  const OutputMessage := "Output file must be CSV or PDF: "
  const PathMessage := "Invalid file path: "
  const RangeMessage := "Chunk size must be between 1 and 10000: "
  const FormatMessage := "Invalid chunk size format: "
  const DateMessage := "Invalid date format. Use YYYY-MM-DD: "

  /** The inputFile check: None when it passes. */
  function CheckInputFile(f: string): Option<Rejection>
  {
    if !EndsWith(f, ".csv") then Some(InvalidParameter(InputMessage + f))
    else if Contains(f, "..") then Some(InvalidParameter(PathMessage + f))
    else None
  }

  /** The outputFile check. */
  function CheckOutputFile(f: string): Option<Rejection>
  {
    if !EndsWith(f, ".csv") && !EndsWith(f, ".pdf") then Some(InvalidParameter(OutputMessage + f))
    else if Contains(f, "..") then Some(InvalidParameter(PathMessage + f))
    else None
  }

  /** The chunkSize check; a failed Integer.parseInt is the NumberFormatException branch. */
  function CheckChunkSize(s: string): Option<Rejection>
  {
    match ParseInt(s)
    case None => Some(InvalidParameter(FormatMessage + s))
    case Some(n) =>
      if n <= 0 || n > 10000 then Some(InvalidParameter(RangeMessage + IntToString(n))) else None
  }

  /** The processingDate check. */
  function CheckProcessingDate(s: string): Option<Rejection>
  {
    if IsIsoLocalDate(s) then None else Some(InvalidParameter(DateMessage + s))
  }

  /** Runs one check when the key is present; an absent optional key is never checked. */
  function CheckIfPresent(params: map<string, string>, key: string, check: string -> Option<Rejection>): Option<Rejection>
  {
    if key in params then check(params[key]) else None
  }

  /** validate(parameters): None when it returns, Some(reason) when it throws. */
  function Validate(params: map<string, string>): Option<Rejection>
  {
    var missing := set k | k in RequiredKeys && k !in params;
    if missing != {} then Some(MissingRequiredKeys(missing))
    else
      var input := CheckIfPresent(params, InputFile, CheckInputFile);
      if input.Some? then input
      else
        var output := CheckIfPresent(params, OutputFile, CheckOutputFile);
        if output.Some? then output
        else
          var chunk := CheckIfPresent(params, ChunkSize, CheckChunkSize);
          if chunk.Some? then chunk
          else CheckIfPresent(params, ProcessingDate, CheckProcessingDate)
  }

  // ---------------------------------------------------------------------------
  // What each check accepts, independent of the order the checks run in

  predicate InputFileOk(f: string)
  {
    EndsWith(f, ".csv") && !Contains(f, "..")
  }

  predicate OutputFileOk(f: string)
  {
    (EndsWith(f, ".csv") || EndsWith(f, ".pdf")) && !Contains(f, "..")
  }

  predicate ChunkSizeOk(s: string)
  {
    exists n :: ParseInt(s) == Some(n) && 1 <= n <= 10000
  }

  /** Every required key present and every value that is present well formed. */
  predicate Acceptable(params: map<string, string>)
  {
    InputFile in params && OutputFile in params &&
    InputFileOk(params[InputFile]) && OutputFileOk(params[OutputFile]) &&
    (ChunkSize in params ==> ChunkSizeOk(params[ChunkSize])) &&
    (ProcessingDate in params ==> IsIsoLocalDate(params[ProcessingDate]))
  }

  /** validate returns normally exactly when the parameters are acceptable. */
  lemma ValidateAcceptsIff(params: map<string, string>)
    ensures Validate(params).None? <==> Acceptable(params)
  {
    var missing := set k | k in RequiredKeys && k !in params;
    assert missing == {} <==> InputFile in params && OutputFile in params by {
      if InputFile !in params { assert InputFile in missing; }
      if OutputFile !in params { assert OutputFile in missing; }
    }
    if ChunkSize in params {
      var s := params[ChunkSize];
      if ParseInt(s).Some? {
        assert ChunkSizeOk(s) <==> 1 <= ParseInt(s).value <= 10000;
      }
    }
  }

  /** A missing required key is reported before any value is looked at. */
  lemma MissingRequiredKeyRejected(params: map<string, string>, key: string)
    requires key in RequiredKeys && key !in params
    ensures var r := Validate(params); r.Some? && r.value.MissingRequiredKeys? && key in r.value.missing
    ensures var r := Validate(params); r.Some? && r.value.MissingRequiredKeys? ==>
      r.value.missing == RequiredKeys - params.Keys
  {
  }

  /** An inputFile without the .csv suffix is rejected with the CSV message, whatever else it holds. */
  lemma InputExtensionRejected(params: map<string, string>)
    requires InputFile in params && OutputFile in params
    requires !EndsWith(params[InputFile], ".csv")
    ensures Validate(params) == Some(InvalidParameter(InputMessage + params[InputFile]))
  {
  }

  /** The suffix check comes first: a .csv input containing ".." gets the path message. */
  lemma InputTraversalRejected(params: map<string, string>)
    requires InputFile in params && OutputFile in params
    requires EndsWith(params[InputFile], ".csv") && Contains(params[InputFile], "..")
    ensures Validate(params) == Some(InvalidParameter(PathMessage + params[InputFile]))
  {
  }

  /** With a good inputFile, the outputFile check decides about its own value first. */
  lemma OutputFileChecked(params: map<string, string>)
    requires InputFile in params && OutputFile in params && InputFileOk(params[InputFile])
    ensures var f := params[OutputFile];
      !OutputFileOk(f) ==> Validate(params) == Some(InvalidParameter(
        (if !EndsWith(f, ".csv") && !EndsWith(f, ".pdf") then OutputMessage else PathMessage) + f))
  {
  }

  /** With good file names, a chunk size that is no integer or lies outside 1..10000 is rejected. */
  lemma ChunkSizeChecked(params: map<string, string>)
    requires InputFile in params && OutputFile in params
    requires InputFileOk(params[InputFile]) && OutputFileOk(params[OutputFile])
    requires ChunkSize in params
    ensures var s := params[ChunkSize];
      ParseInt(s).None? ==> Validate(params) == Some(InvalidParameter(FormatMessage + s))
    ensures var s := params[ChunkSize];
      ParseInt(s).Some? && !(1 <= ParseInt(s).value <= 10000) ==>
        Validate(params) == Some(InvalidParameter(RangeMessage + IntToString(ParseInt(s).value)))
  {
  }

  /** The date check is last: with every other value good, a non-ISO date is rejected. */
  lemma ProcessingDateChecked(params: map<string, string>)
    requires InputFile in params && OutputFile in params
    requires InputFileOk(params[InputFile]) && OutputFileOk(params[OutputFile])
    requires ChunkSize in params ==> ChunkSizeOk(params[ChunkSize])
    requires ProcessingDate in params && !IsIsoLocalDate(params[ProcessingDate])
    ensures Validate(params) == Some(InvalidParameter(DateMessage + params[ProcessingDate]))
  {
    if ChunkSize in params {
      var n :| ParseInt(params[ChunkSize]) == Some(n) && 1 <= n <= 10000;
    }
  }

  // ---------------------------------------------------------------------------
  // The cases the unit tests pin down

  lemma ContainsAt(s: string, part: string, i: nat)
    requires i + |part| <= |s| && s[i..i + |part|] == part
    ensures Contains(s, part)
  {
    assert OccursAt(s, part, i);
  }

  lemma ContainsExtended(x: string, part: string, y: string)
    requires Contains(x, part)
    ensures Contains(x + y, part)
  {
    var i :| 0 <= i <= |x| && OccursAt(x, part, i);
    assert (x + y)[i..i + |part|] == x[i..i + |part|];
    assert OccursAt(x + y, part, i);
  }

  lemma RangeMessageNamesBounds()
    ensures Contains(RangeMessage, "between 1 and 10000")
  {
    var x, part, y := "Chunk size must be ", "between 1 and 10000", ": ";
    assert RangeMessage == x + part + y;
    assert (x + part + y)[|x|..|x| + |part|] == part;
    assert OccursAt(RangeMessage, part, |x|);
  }

  /** A name with one dot holds no "..". */
  lemma SingleDotName(a: string, b: string)
    requires '.' !in a && '.' !in b
    ensures !Contains(a + "." + b, "..")
  {
    var s := a + "." + b;
    forall i | 0 <= i <= |s| ensures !OccursAt(s, "..", i) {
      if i + 2 <= |s| {
        assert s[i..i + 2] == [s[i], s[i + 1]];
        if i < |a| {
          assert s[i] == a[i];
        } else {
          assert s[i + 1] == b[i - |a|];
        }
      }
    }
  }

  /** The file names the unit tests use as valid ones. */
  lemma TestFileNamesOk()
    ensures InputFileOk("input.csv") && OutputFileOk("output.csv")
  {
    assert "input.csv" == "input" + "." + "csv";
    assert "output.csv" == "output" + "." + "csv";
    SingleDotName("input", "csv");
    SingleDotName("output", "csv");
  }

  /** The chunk size the unit tests use as a valid one. */
  lemma TestChunkSizeOk()
    ensures ChunkSizeOk("100")
  {
    assert ParseInt("100") == Some(100) by {
      assert IntToString(100) == "100" by {
        assert NatToString(1) == "1";
        assert NatToString(10) == "10";
      }
      ParseIntToString(100);
    }
  }

  /** The processing date the unit tests use as a valid one. */
  lemma TestDateOk()
    ensures IsIsoLocalDate("2024-01-01")
  {
    var d := "2024-01-01";
    assert d[..4] == "2024" && d[5..7] == "01" && d[8..] == "01";
    assert "2024"[..3] == "202" && "202"[..2] == "20" && "20"[..1] == "2";
    assert "01"[..1] == "0";
  }

  /** testValidParameters */
  lemma ValidParametersAccepted()
    ensures Validate(map[InputFile := "input.csv", OutputFile := "output.csv",
                         ChunkSize := "100", ProcessingDate := "2024-01-01"]) == None
  {
    var p := map[InputFile := "input.csv", OutputFile := "output.csv",
                 ChunkSize := "100", ProcessingDate := "2024-01-01"];
    TestChunkSizeOk();
    TestDateOk();
    TestFileNamesOk();
    ValidateAcceptsIff(p);
  }

  /** testMissingRequiredParameters */
  lemma MissingOutputFileRejected()
    ensures Validate(map[InputFile := "input.csv"]) == Some(MissingRequiredKeys({OutputFile}))
  {
    var p := map[InputFile := "input.csv"];
    assert (set k | k in RequiredKeys && k !in p) == {OutputFile};
  }

  /** testInvalidInputFileExtension */
  lemma TxtInputFileRejected()
    ensures var r := Validate(map[InputFile := "input.txt", OutputFile := "output.csv"]);
      r.Some? && r.value.InvalidParameter? && Contains(r.value.message, "CSV file")
  {
    var m := InputMessage + "input.txt";
    ContainsAt(m, "CSV file", 21);
  }

  /** testInvalidChunkSize */
  lemma ChunkSize20000Rejected()
    ensures var r := Validate(map[InputFile := "input.csv", OutputFile := "output.csv", ChunkSize := "20000"]);
      r.Some? && r.value.InvalidParameter? && Contains(r.value.message, "between 1 and 10000")
  {
    var p := map[InputFile := "input.csv", OutputFile := "output.csv", ChunkSize := "20000"];
    TestFileNamesOk();
    assert IntToString(20000) == "20000" by {
      assert NatToString(2) == "2";
      assert NatToString(20) == "20";
      assert NatToString(200) == "200";
      assert NatToString(2000) == "2000";
    }
    ParseIntToString(20000);
    ChunkSizeChecked(p);
    assert Validate(p) == Some(InvalidParameter(RangeMessage + "20000"));
    RangeMessageNamesBounds();
    ContainsExtended(RangeMessage, "between 1 and 10000", "20000");
  }

  /** testInvalidDateFormat */
  lemma DayFirstDateRejected()
    ensures var r := Validate(map[InputFile := "input.csv", OutputFile := "output.csv", ProcessingDate := "01-01-2024"]);
      r.Some? && r.value.InvalidParameter? && Contains(r.value.message, "YYYY-MM-DD")
  {
    var p := map[InputFile := "input.csv", OutputFile := "output.csv", ProcessingDate := "01-01-2024"];
    assert !IsIsoLocalDate("01-01-2024") by {
      assert "01-01-2024"[4] == '1';
    }
    TestFileNamesOk();
    ProcessingDateChecked(p);
    var x, part, y := "Invalid date format. Use ", "YYYY-MM-DD", ": " + "01-01-2024";
    assert DateMessage + "01-01-2024" == x + part + y;
    assert (x + part + y)[|x|..|x| + |part|] == part;
    ContainsAt(x + part + y, part, |x|);
  }

  /** testPathTraversalAttack */
  lemma TraversalPathRejected()
    ensures var r := Validate(map[InputFile := "../../../etc/passwd.csv", OutputFile := "output.csv"]);
      r.Some? && r.value.InvalidParameter? && Contains(r.value.message, "Invalid file path")
  {
    var f := "../../../etc/passwd.csv";
    ContainsAt(f, "..", 0);
    ContainsAt(PathMessage + f, "Invalid file path", 0);
  }
}
