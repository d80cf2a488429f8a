/**
 * DataValidationException: a runtime exception that carries the list of validation
 * errors it was raised for and appends them to its message. The list and its elements
 * may be null; String.join writes a null element as "null".
 */
module DataValidationException {
  import opened JavaLang
  import opened Streams

  datatype DataValidationException = DataValidationException(
    message: Option<string>,
    validationErrors: Option<seq<Option<string>>>,
    cause: Option<Throwable>)

  /** What getMessage puts between the base message and the errors. */
  const ErrorsMarker := " - Errors: "

  /** What String.join puts between two errors. */
  const ErrorSeparator := ", "

  /** new DataValidationException(message, validationErrors) */
  function New(message: Option<string>, validationErrors: Option<seq<Option<string>>>): (e: DataValidationException)
    ensures e.validationErrors == validationErrors && e.message == message && e.cause.None?
  {
    DataValidationException(message, validationErrors, None)
  }

  /** new DataValidationException(message, validationErrors, cause) */
  function NewWithCause(message: Option<string>, validationErrors: Option<seq<Option<string>>>,
                        cause: Option<Throwable>): (e: DataValidationException)
    ensures e.validationErrors == validationErrors && e.message == message && e.cause == cause
  {
    DataValidationException(message, validationErrors, cause)
  }

  function GetValidationErrors(e: DataValidationException): Option<seq<Option<string>>>
  {
    e.validationErrors
  }

  /** The list is non-null and holds at least one element. */
  predicate HasErrors(e: DataValidationException)
  {
    e.validationErrors.Some? && e.validationErrors.value != []
  }

  /** The errors as String.join writes them. */
  function ErrorTexts(errors: seq<Option<string>>): (r: seq<string>)
    ensures |r| == |errors|
    ensures forall i :: 0 <= i < |errors| ==> r[i] == Str(errors[i])
  {
    MapSeq(Str, errors)
  }

  /**
   * getMessage(): the base message, followed by the joined errors when there are any.
   * The concatenation writes a null base message as "null".
   */
  function GetMessage(e: DataValidationException): (r: Option<string>)
    ensures !HasErrors(e) ==> r == e.message
    ensures HasErrors(e) ==> r.Some? && Str(e.message) + ErrorsMarker <= r.value
  {
    if HasErrors(e) then
      Some(Str(e.message) + ErrorsMarker + Join(ErrorTexts(e.validationErrors.value), ErrorSeparator))
    else
      e.message
  }

  // ---------------------------------------------------------------------------
  // Properties

  /** Either constructor hands the list back unchanged through the getter, null included. */
  lemma ErrorsAsGiven(message: Option<string>, errors: Option<seq<Option<string>>>, cause: Option<Throwable>)
    ensures GetValidationErrors(New(message, errors)) == errors
    ensures GetValidationErrors(NewWithCause(message, errors, cause)) == errors
    ensures GetMessage(New(message, errors)) == GetMessage(NewWithCause(message, errors, cause))
  {
  }

  /** getMessage differs from the base message exactly when the list is non-null and non-empty. */
  lemma MessageUnchangedIff(e: DataValidationException)
    ensures GetMessage(e) == e.message <==> !HasErrors(e)
  {
    if HasErrors(e) && e.message.Some? {
      assert |GetMessage(e).value| > |e.message.value|;
    }
  }

  /** Every error, as text, occurs in the message. */
  lemma EveryErrorInMessage(e: DataValidationException, i: nat)
    requires e.validationErrors.Some? && i < |e.validationErrors.value|
    ensures GetMessage(e).Some? && Contains(GetMessage(e).value, Str(e.validationErrors.value[i]))
  {
    var texts := ErrorTexts(e.validationErrors.value);
    JoinHoldsPiece(texts, ErrorSeparator, i);
    var head := Str(e.message) + ErrorsMarker;
    var j :| 0 <= j <= |Join(texts, ErrorSeparator)| && OccursAt(Join(texts, ErrorSeparator), texts[i], j);
    assert GetMessage(e).value == head + Join(texts, ErrorSeparator);
    OccursShifted(head, Join(texts, ErrorSeparator), texts[i], j);
  }

  /** An occurrence in b is an occurrence in a + b, |a| further on. */
  lemma OccursShifted(a: string, b: string, part: string, j: nat)
    requires OccursAt(b, part, j)
    ensures OccursAt(a + b, part, |a| + j) && Contains(a + b, part)
  {
    assert (a + b)[|a| + j..|a| + j + |part|] == b[j..j + |part|];
    assert OccursAt(a + b, part, |a| + j);
  }

  /** Each piece of a join occurs in it. */
  lemma {:induction false} JoinHoldsPiece(xs: seq<string>, sep: string, i: nat)
    requires i < |xs|
    ensures Contains(Join(xs, sep), xs[i])
    decreases |xs|
  {
    if |xs| == 1 {
      OccursShifted("", xs[0], xs[0], 0);
    } else if i == 0 {
      var s := xs[0] + (sep + Join(xs[1..], sep));
      assert Join(xs, sep) == s;
      assert s[0..|xs[0]|] == xs[0];
      assert OccursAt(s, xs[0], 0);
    } else {
      JoinHoldsPiece(xs[1..], sep, i - 1);
      assert xs[1..][i - 1] == xs[i];
      var rest := Join(xs[1..], sep);
      var j :| 0 <= j <= |rest| && OccursAt(rest, xs[i], j);
      assert Join(xs, sep) == (xs[0] + sep) + rest;
      OccursShifted(xs[0] + sep, rest, xs[i], j);
    }
  }

  /** A null element is joined as "null". */
  lemma TwoErrorsExample()
    ensures GetMessage(New(Some("bad"), Some([Some("x"), None]))) == Some("bad - Errors: x, null")
  {
    var e := New(Some("bad"), Some([Some("x"), None]));
    var texts := ErrorTexts([Some("x"), None]);
    assert texts == ["x", "null"];
    assert Join(texts, ErrorSeparator) == "x" + ", " + "null" by {
      assert texts[1..] == ["null"];
    }
    assert HasErrors(e);
    assert GetMessage(e) == Some("bad" + " - Errors: " + ("x" + ", " + "null"));
    assert "bad" + " - Errors: " + ("x" + ", " + "null") == "bad - Errors: x, null";
  }

  /** A null base message with errors is written as "null". */
  lemma NullBaseExample()
    ensures GetMessage(New(None, Some([Some("x")]))) == Some("null - Errors: x")
  {
    var e := New(None, Some([Some("x")]));
    assert ErrorTexts([Some("x")]) == ["x"];
    assert HasErrors(e);
    assert GetMessage(e) == Some("null" + " - Errors: " + "x");
    assert "null" + " - Errors: " + "x" == "null - Errors: x";
  }
}
