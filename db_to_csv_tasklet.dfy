/**
 * DbToCsvTasklet.execute: load every entity, convert each to its CSV DTO keeping the
 * non-null conversions in order, then write the header line and the records. Loading
 * is an input (`loaded`), so is a failure to open the output file (`openFailure`), and
 * opencsv's rendering of the records is the function `render`.
 */
module DbToCsvTasklet {
  import opened JavaLang
  import opened BatchCore

  /** The job parameter that names the output file. */
  const OutputFilePath := "output.file.path"

  const MissingOutputPath := IllegalArgumentException("output.file.path parameter is required")

  /** The non-null conversions of entities, in entity order. */
  function NonNull<E, T>(entities: seq<E>, convert: E -> Option<T>): (r: seq<T>)
    // the export never holds more records than were loaded
    ensures |r| <= |entities|
    decreases |entities|
  {
    if entities == [] then []
    else
      var last := convert(entities[|entities| - 1]);
      NonNull(entities[..|entities| - 1], convert) + (if last.Some? then [last.value] else [])
  }

  /** What the step leaves in the output file. */
  function FileContents<T>(header: string, csvRecords: seq<T>, render: seq<T> -> string): string
  {
    header + "\n" + render(csvRecords)
  }

  /**
   * execute(contribution, chunkContext). Returns the status, the text written and the
   * exported count (csvRecords.size()).
   */
  method Execute<E, T>(params: map<string, string>, loaded: Result<seq<E>>, convert: E -> Option<T>,
                       header: string, render: seq<T> -> string, openFailure: Option<Throwable>)
    returns (r: Result<RepeatStatus>, written: string, exported: nat)
    ensures PathMissing(params, OutputFilePath) ==> r == Err(MissingOutputPath) && written == "" && exported == 0
    ensures !PathMissing(params, OutputFilePath) && loaded.Err? ==> r == Err(loaded.error) && written == "" && exported == 0
    ensures !PathMissing(params, OutputFilePath) && loaded.Ok? && openFailure.Some? ==>
      r == Err(openFailure.value) && written == "" && exported == 0
    ensures !PathMissing(params, OutputFilePath) && loaded.Ok? && openFailure.None? ==>
      r == Ok(Finished) &&
      exported == |NonNull(loaded.value, convert)| &&
      written == FileContents(header, NonNull(loaded.value, convert), render)
  {
    written, exported := "", 0;
    if PathMissing(params, OutputFilePath) {
      return Err(MissingOutputPath), written, exported;
    }
    if loaded.Err? {
      return Err(loaded.error), written, exported;
    }
    var entities := loaded.value;
    var csvRecords: seq<T> := [];
    var i := 0;
    while i < |entities|
      invariant 0 <= i <= |entities|
      invariant csvRecords == NonNull(entities[..i], convert)
    {
      var csvRecord := convert(entities[i]);
      if csvRecord.Some? {
        csvRecords := csvRecords + [csvRecord.value];
      }
      assert entities[..i + 1][..i] == entities[..i];
      i := i + 1;
    }
    assert entities[..i] == entities;
    if openFailure.Some? {
      return Err(openFailure.value), written, exported;
    }
    written := header + "\n";
    written := written + render(csvRecords);
    exported := |csvRecords|;
    r := Ok(Finished);
  }

  // ---------------------------------------------------------------------------
  // Properties of the filter

  /** A record is exported exactly when it is the conversion of some loaded entity. */
  lemma {:induction false} NonNullMembers<E, T>(entities: seq<E>, convert: E -> Option<T>, x: T)
    ensures x in NonNull(entities, convert) <==> exists i :: 0 <= i < |entities| && convert(entities[i]) == Some(x)
    decreases |entities|
  {
    if entities != [] {
      var init := entities[..|entities| - 1];
      NonNullMembers(init, convert, x);
      if exists i :: 0 <= i < |init| && convert(init[i]) == Some(x) {
        var i :| 0 <= i < |init| && convert(init[i]) == Some(x);
        assert entities[i] == init[i];
      }
      if exists i :: 0 <= i < |entities| && convert(entities[i]) == Some(x) {
        var i :| 0 <= i < |entities| && convert(entities[i]) == Some(x);
        if i < |init| {
          assert init[i] == entities[i];
        }
      }
    }
  }

  /** Filtering a concatenation filters each part: the order of the entities is kept. */
  lemma {:induction false} NonNullAppend<E, T>(a: seq<E>, b: seq<E>, convert: E -> Option<T>)
    ensures NonNull(a + b, convert) == NonNull(a, convert) + NonNull(b, convert)
    decreases |b|
  {
    if b != [] {
      var b' := b[..|b| - 1];
      assert (a + b)[..|a + b| - 1] == a + b';
      assert (a + b)[|a + b| - 1] == b[|b| - 1];
      NonNullAppend(a, b', convert);
      var last := convert(b[|b| - 1]);
      var tail: seq<T> := if last.Some? then [last.value] else [];
      assert NonNull(a + b, convert) == NonNull(a + b', convert) + tail;
      assert NonNull(b, convert) == NonNull(b', convert) + tail;
    } else {
      assert a + b == a;
    }
  }

  /** A conversion that never returns null exports one record per entity, position by position. */
  lemma {:induction false} NonNullTotal<E, T>(entities: seq<E>, convert: E -> Option<T>)
    requires forall i :: 0 <= i < |entities| ==> convert(entities[i]).Some?
    ensures |NonNull(entities, convert)| == |entities|
    ensures forall i :: 0 <= i < |entities| ==> NonNull(entities, convert)[i] == convert(entities[i]).value
    decreases |entities|
  {
    if entities != [] {
      var init := entities[..|entities| - 1];
      NonNullTotal(init, convert);
      forall i | 0 <= i < |entities| ensures NonNull(entities, convert)[i] == convert(entities[i]).value {
        if i < |init| {
          assert init[i] == entities[i];
        }
      }
    }
  }
}
