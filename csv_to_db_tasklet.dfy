/**
 * CsvToDbTasklet.execute: read every record of the CSV file, convert each one, and
 * save the non-null conversions through the entity's mapper, counting the saved
 * records and the records whose save threw. Opening and parsing the file is an
 * input (`parsed`); which saves throw is an input too (`faults`, by record position).
 */
module CsvToDbTasklet {
  import opened JavaLang
  import opened EntityTable
  import opened BatchCore

  /** The job parameter that names the CSV file. */
  const InputFilePath := "input.file.path"

  const MissingInputPath := IllegalArgumentException("input.file.path parameter is required")

  /** Every entity the conversion returns has a business code. */
  ghost predicate KeepsCode<T(!new), E>(k: Keying<E>, convert: T -> Option<E>)
  {
    forall x: T :: convert(x).Some? ==> k.codeOf(convert(x).value).Some?
  }

  /** The table and the two counters after a run of the loop. */
  datatype Outcome<E> = Outcome(table: TableState<E>, processed: nat, errors: nat)

  /**
   * The loop over records, one record at a time in list order: a null conversion is
   * skipped, a save that throws counts an error and leaves the table alone, any other
   * record is upserted and counted as processed.
   */
  function Import<T(!new), E>(k: Keying<E>, t: TableState<E>, records: seq<T>, convert: T -> Option<E>, faults: set<nat>): (r: Outcome<E>)
    requires KeepsCode(k, convert)
    // every record is counted at most once, no row is removed, and only processed records generate ids
    ensures r.processed + r.errors <= |records|
    ensures t.rows.Keys <= r.table.rows.Keys
    ensures t.nextId <= r.table.nextId <= t.nextId + r.processed
    decreases |records|
  {
    if records == [] then Outcome(t, 0, 0)
    else
      var n := |records| - 1;
      var before := Import(k, t, records[..n], convert, faults);
      var entity := convert(records[n]);
      if entity.None? then before
      else if n in faults then before.(errors := before.errors + 1)
      else Outcome(Upsert(k, before.table, entity.value), before.processed + 1, before.errors)
  }

  /** The number of records whose conversion is null. */
  function Filtered<T, E>(records: seq<T>, convert: T -> Option<E>): nat
    decreases |records|
  {
    if records == [] then 0
    else Filtered(records[..|records| - 1], convert) + (if convert(records[|records| - 1]).None? then 1 else 0)
  }

  /** The entities that reach the table, in the order they are saved. */
  function Saved<T, E>(records: seq<T>, convert: T -> Option<E>, faults: set<nat>): seq<E>
    decreases |records|
  {
    if records == [] then []
    else
      var n := |records| - 1;
      var entity := convert(records[n]);
      Saved(records[..n], convert, faults) + (if entity.None? || n in faults then [] else [entity.value])
  }

  /**
   * execute(contribution, chunkContext). A missing or empty input.file.path throws
   * before anything is read; a file that cannot be read throws its exception; otherwise
   * every record is handled and the step reports FINISHED.
   */
  method Execute<T(!new), E(!new)>(params: map<string, string>, parsed: Result<seq<T>>,
                                  convert: T -> Option<E>, table: Table<E>, faults: set<nat>)
    returns (r: Result<RepeatStatus>, processed: nat, errors: nat)
    requires Lawful(table.keying) && KeepsCode(table.keying, convert)
    modifies table
    ensures PathMissing(params, InputFilePath) ==>
      r == Err(MissingInputPath) && table.State() == old(table.State()) && processed == 0 && errors == 0
    ensures !PathMissing(params, InputFilePath) && parsed.Err? ==>
      r == Err(parsed.error) && table.State() == old(table.State()) && processed == 0 && errors == 0
    ensures !PathMissing(params, InputFilePath) && parsed.Ok? ==>
      r == Ok(Finished) &&
      Import(table.keying, old(table.State()), parsed.value, convert, faults) == Outcome(table.State(), processed, errors)
  {
    processed, errors := 0, 0;
    if PathMissing(params, InputFilePath) {
      return Err(MissingInputPath), processed, errors;
    }
    if parsed.Err? {
      return Err(parsed.error), processed, errors;
    }
    var records := parsed.value;
    ghost var start := table.State();
    var i := 0;
    while i < |records|
      invariant 0 <= i <= |records|
      invariant Import(table.keying, start, records[..i], convert, faults) == Outcome(table.State(), processed, errors)
    {
      var entity := convert(records[i]);
      if entity.Some? {
        var ok := SaveEntity(table, entity.value, i in faults);
        if ok {
          processed := processed + 1;
        } else {
          errors := errors + 1;
        }
      }
      assert records[..i + 1][..i] == records[..i];
      i := i + 1;
    }
    assert records[..i] == records;
    r := Ok(Finished);
  }

  // ---------------------------------------------------------------------------
  // What the loop adds up to

  /** Every record is saved, fails or is filtered: processed + errors + filtered = records. */
  lemma {:induction false} ImportTally<T(!new), E>(k: Keying<E>, t: TableState<E>, records: seq<T>, convert: T -> Option<E>, faults: set<nat>)
    requires KeepsCode(k, convert)
    ensures var o := Import(k, t, records, convert, faults);
      o.processed + o.errors + Filtered(records, convert) == |records| &&
      o.processed + o.errors <= |records|
    decreases |records|
  {
    if records != [] {
      ImportTally(k, t, records[..|records| - 1], convert, faults);
    }
  }

  /** Without a failing save no error is counted. */
  lemma {:induction false} ImportWithoutFaults<T(!new), E>(k: Keying<E>, t: TableState<E>, records: seq<T>, convert: T -> Option<E>, faults: set<nat>)
    requires KeepsCode(k, convert)
    requires forall i :: 0 <= i < |records| ==> i !in faults
    ensures Import(k, t, records, convert, faults).errors == 0
    decreases |records|
  {
    if records != [] {
      ImportWithoutFaults(k, t, records[..|records| - 1], convert, faults);
    }
  }

  /**
   * The table after the loop is the table after saving the saved entities one after
   * the other, and processedCount is how many there are.
   */
  lemma {:induction false} ImportIsUpsertAll<T(!new), E>(k: Keying<E>, t: TableState<E>, records: seq<T>, convert: T -> Option<E>, faults: set<nat>)
    requires KeepsCode(k, convert)
    ensures AllKeyed(k, Saved(records, convert, faults))
    ensures Import(k, t, records, convert, faults).table == UpsertAll(k, t, Saved(records, convert, faults))
    ensures Import(k, t, records, convert, faults).processed == |Saved(records, convert, faults)|
    decreases |records|
  {
    if records != [] {
      var n := |records| - 1;
      var init := records[..n];
      ImportIsUpsertAll(k, t, init, convert, faults);
      var entity := convert(records[n]);
      var s := Saved(records, convert, faults);
      if entity.Some? && n !in faults {
        assert s == Saved(init, convert, faults) + [entity.value];
        assert s[..|s| - 1] == Saved(init, convert, faults);
        forall i | 0 <= i < |s| ensures k.codeOf(s[i]).Some? {
          if i < |s| - 1 {
            assert s[i] == Saved(init, convert, faults)[i];
          }
        }
      } else {
        assert s == Saved(init, convert, faults);
      }
    }
  }

  /**
   * After the loop the table holds the old codes and the saved ones, rows of other
   * codes are untouched, and codes and ids stay unique.
   */
  lemma ImportRows<T(!new), E(!new)>(k: Keying<E>, t: TableState<E>, records: seq<T>, convert: T -> Option<E>, faults: set<nat>)
    requires Lawful(k) && KeepsCode(k, convert) && WellKeyed(k, t)
    ensures AllKeyed(k, Saved(records, convert, faults))
    ensures var r := Import(k, t, records, convert, faults).table; var codes := Codes(k, Saved(records, convert, faults));
      r.rows.Keys == t.rows.Keys + codes &&
      (forall c :: c in t.rows && c !in codes ==> r.rows[c] == t.rows[c]) &&
      WellKeyed(k, r)
  {
    ImportIsUpsertAll(k, t, records, convert, faults);
    UpsertAllRows(k, t, Saved(records, convert, faults));
  }
}
