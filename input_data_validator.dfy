/**
 * InputDataValidator.validate(item): ask the Jakarta validator for the item's
 * violations and, when there are any, throw a ValidationException whose message lists
 * them. The violations arrive as a Set; the stream visits them in the set's iteration
 * order, which is an input here (`order`), so the message is determined only up to the
 * order of its entries.
 */
module InputDataValidator {
  import opened JavaLang
  import opened BatchCore
  import opened Streams

  const ValidationExceptionClass := "org.springframework.batch.item.validator.ValidationException"

  /** The text in front of the entries. */
  const Prefix := "Validation failed: "

  /** What Collectors.joining puts between two entries. */
  const Separator := ", "

  function ValidationException(message: string): Throwable
  {
    Throwable(ValidationExceptionClass, Some(message))
  }

  /** `order` visits every element of `violations` exactly once. */
  predicate IsIterationOf(order: seq<ConstraintViolation>, violations: set<ConstraintViolation>)
  {
    (forall i, j :: 0 <= i < j < |order| ==> order[i] != order[j]) &&
    (forall i :: 0 <= i < |order| ==> order[i] in violations) &&
    (forall v :: v in violations ==> v in order)
  }

  /** The entry one violation contributes, `getPropertyPath() + ": " + getMessage()`. */
  function Entry(v: ConstraintViolation): string
  {
    v.propertyPath + ": " + v.message
  }

  /** The stream's `map` step: one entry per violation, in visiting order. */
  function Entries(order: seq<ConstraintViolation>): (r: seq<string>)
    ensures |r| == |order|
    ensures forall i :: 0 <= i < |order| ==> r[i] == Entry(order[i])
  {
    MapSeq(Entry, order)
  }

  /**
   * validate(item). None: the method returns normally. Some(e): it throws e, a
   * ValidationException whose message is the prefix and the joined entries.
   */
  function Validate(violations: set<ConstraintViolation>, order: seq<ConstraintViolation>): (r: Option<Throwable>)
    requires IsIterationOf(order, violations)
    ensures r.None? <==> violations == {}
    ensures r.Some? ==> r.value.className == ValidationExceptionClass && r.value.message.Some? &&
                        Prefix <= r.value.message.value
  {
    if order == [] then
      assert forall v :: v !in violations;
      None
    else
      assert order[0] in violations;
      Some(ValidationException(Prefix + Join(Entries(order), Separator)))
  }

  /** The message of a failed validation: the prefix, then its entries joined by ", ". */
  lemma ValidateMessage(violations: set<ConstraintViolation>, order: seq<ConstraintViolation>)
    requires IsIterationOf(order, violations) && violations != {}
    ensures Validate(violations, order) == Some(ValidationException(Prefix + Join(Entries(order), Separator)))
    ensures |Entries(order)| == |violations|
  {
    IterationSize(order, violations);
  }

  // ---------------------------------------------------------------------------
  // One entry per violation, in whatever order the set is visited

  /** A visiting order is as long as the set. */
  lemma {:induction false} IterationSize(order: seq<ConstraintViolation>, violations: set<ConstraintViolation>)
    requires IsIterationOf(order, violations)
    ensures |order| == |violations|
    decreases |order|
  {
    if order != [] {
      var rest := order[1..];
      assert IsIterationOf(rest, violations - {order[0]}) by {
        forall v ensures v in rest <==> v in violations - {order[0]} {
          if v in rest {
            var j :| 0 <= j < |rest| && rest[j] == v;
            assert order[j + 1] == v;
          }
          if v in violations - {order[0]} {
            var j :| 0 <= j < |order| && order[j] == v;
            assert rest[j - 1] == v;
          }
        }
      }
      IterationSize(rest, violations - {order[0]});
    } else {
      assert violations == {};
    }
  }

  /** Each violation occurs once in a visiting order. */
  lemma {:induction false} DistinctOnce(order: seq<ConstraintViolation>, v: ConstraintViolation)
    requires forall i, j :: 0 <= i < j < |order| ==> order[i] != order[j]
    ensures multiset(order)[v] == if v in order then 1 else 0
    decreases |order|
  {
    if order != [] {
      assert order == [order[0]] + order[1..];
      DistinctOnce(order[1..], v);
      if v == order[0] {
        assert v !in order[1..];
      }
    }
  }

  /** Two visiting orders of one set hold the same violations: they are permutations. */
  lemma IterationsPermute(violations: set<ConstraintViolation>, o1: seq<ConstraintViolation>, o2: seq<ConstraintViolation>)
    requires IsIterationOf(o1, violations) && IsIterationOf(o2, violations)
    ensures multiset(o1) == multiset(o2)
  {
    forall v ensures multiset(o1)[v] == multiset(o2)[v] {
      DistinctOnce(o1, v);
      DistinctOnce(o2, v);
    }
  }

  /**
   * Whatever order the set is visited in, the message holds the same entries, one per
   * violation: the entry lists of any two visiting orders are permutations of each other.
   */
  lemma MessageUpToOrder(violations: set<ConstraintViolation>, o1: seq<ConstraintViolation>, o2: seq<ConstraintViolation>)
    requires IsIterationOf(o1, violations) && IsIterationOf(o2, violations)
    ensures multiset(Entries(o1)) == multiset(Entries(o2))
    ensures forall v :: v in violations ==> Entry(v) in Entries(o1)
    ensures forall e :: e in Entries(o1) ==> exists v :: v in violations && e == Entry(v)
  {
    IterationsPermute(violations, o1, o2);
    MapPermute(Entry, o1, o2);
    forall v | v in violations ensures Entry(v) in Entries(o1) {
      var i :| 0 <= i < |o1| && o1[i] == v;
      assert Entries(o1)[i] == Entry(v);
    }
    forall e | e in Entries(o1) ensures exists v :: v in violations && e == Entry(v) {
      var i :| 0 <= i < |o1| && Entries(o1)[i] == e;
      assert o1[i] in violations;
    }
  }

  /** One violation: the message names its path and its message. */
  lemma SingleViolation(v: ConstraintViolation)
    ensures Validate({v}, [v]) == Some(ValidationException("Validation failed: " + v.propertyPath + ": " + v.message))
  {
    assert Entries([v]) == [Entry(v)];
    assert Join(Entries([v]), Separator) == Entry(v);
    assert Prefix + Entry(v) == "Validation failed: " + v.propertyPath + ": " + v.message;
  }
}
