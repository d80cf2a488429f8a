/**
 * The database tables behind EmployeeMapper, ProductMapper and SalesMapper, as far as
 * the batch code uses them: a row per business code (employee code, product code,
 * transaction id), looked up with selectBy<Code>, replaced with update and added with
 * insert. The SQL itself is not part of this model; the table is a map from business
 * code to row plus the next identity value the database hands out on insert.
 */
module EntityTable {
  import opened JavaLang

  /** How one entity type exposes its business code and its id (getCode, getId, setId). */
  datatype Keying<!E> = Keying(codeOf: E -> Option<string>, idOf: E -> Option<int>, withId: (E, Option<int>) -> E)

  /** setId changes the id to the one given and leaves the business code alone. */
  ghost predicate Lawful<E(!new)>(k: Keying<E>)
  {
    forall e: E, id: Option<int> :: k.idOf(k.withId(e, id)) == id && k.codeOf(k.withId(e, id)) == k.codeOf(e)
  }

  datatype TableState<E> = TableState(rows: map<string, E>, nextId: int)

  /**
   * Each row is stored under its own code, carries an id below the next identity value,
   * and no two rows share an id.
   */
  ghost predicate WellKeyed<E>(k: Keying<E>, t: TableState<E>)
  {
    (forall c :: c in t.rows ==> k.codeOf(t.rows[c]) == Some(c)) &&
    (forall c :: c in t.rows ==> k.idOf(t.rows[c]).Some? && k.idOf(t.rows[c]).value < t.nextId) &&
    (forall c1, c2 :: c1 in t.rows && c2 in t.rows && c1 != c2 ==> k.idOf(t.rows[c1]) != k.idOf(t.rows[c2]))
  }

  /**
   * saveEntity on the abstract table: an existing row with the same code gives the entity
   * its id and is replaced (update); otherwise the entity is inserted under a fresh id.
   */
  function Upsert<E>(k: Keying<E>, t: TableState<E>, e: E): (r: TableState<E>)
    requires k.codeOf(e).Some?
    // the table gains at most the entity's code, and the id counter moves by at most one
    ensures r.rows.Keys == t.rows.Keys + {k.codeOf(e).value}
    ensures t.nextId <= r.nextId <= t.nextId + 1
  {
    var code := k.codeOf(e).value;
    if code in t.rows then TableState(t.rows[code := k.withId(e, k.idOf(t.rows[code]))], t.nextId)
    else TableState(t.rows[code := k.withId(e, Some(t.nextId))], t.nextId + 1)
  }

  /** After an upsert the table holds one row for the code; every other row is unchanged. */
  lemma UpsertOneRow<E(!new)>(k: Keying<E>, t: TableState<E>, e: E)
    requires Lawful(k) && k.codeOf(e).Some?
    ensures var r := Upsert(k, t, e); var code := k.codeOf(e).value;
      r.rows.Keys == t.rows.Keys + {code} &&
      (forall c :: c in t.rows && c != code ==> r.rows[c] == t.rows[c]) &&
      r.rows[code] == k.withId(e, k.idOf(r.rows[code])) &&
      k.idOf(r.rows[code]) == (if code in t.rows then k.idOf(t.rows[code]) else Some(t.nextId))
  {
    var code := k.codeOf(e).value;
    if code in t.rows {
      assert k.idOf(k.withId(e, k.idOf(t.rows[code]))) == k.idOf(t.rows[code]);
    } else {
      assert k.idOf(k.withId(e, Some(t.nextId))) == Some(t.nextId);
    }
  }

  /** An update keeps the row's id; only an insert draws a new one. */
  lemma UpsertKeepsIds<E(!new)>(k: Keying<E>, t: TableState<E>, e: E, c: string)
    requires Lawful(k) && k.codeOf(e).Some? && c in t.rows
    ensures var r := Upsert(k, t, e); c in r.rows && k.idOf(r.rows[c]) == k.idOf(t.rows[c])
    ensures k.codeOf(e).value in t.rows <==> Upsert(k, t, e).nextId == t.nextId
  {
    UpsertOneRow(k, t, e);
  }

  /** Upserting keeps every row under its own code with its own unique id. */
  lemma UpsertWellKeyed<E(!new)>(k: Keying<E>, t: TableState<E>, e: E)
    requires Lawful(k) && k.codeOf(e).Some? && WellKeyed(k, t)
    ensures WellKeyed(k, Upsert(k, t, e))
  {
    var code := k.codeOf(e).value;
    var r := Upsert(k, t, e);
    UpsertOneRow(k, t, e);
    assert k.codeOf(r.rows[code]) == Some(code) by {
      assert k.codeOf(k.withId(e, k.idOf(r.rows[code]))) == k.codeOf(e);
    }
    forall c1, c2 | c1 in r.rows && c2 in r.rows && c1 != c2
      ensures k.idOf(r.rows[c1]) != k.idOf(r.rows[c2])
    {
      if c1 != code && c2 != code {
        assert r.rows[c1] == t.rows[c1] && r.rows[c2] == t.rows[c2];
      }
    }
  }

  /** Saving the same entity twice leaves the table as saving it once. */
  lemma UpsertIdempotent<E(!new)>(k: Keying<E>, t: TableState<E>, e: E)
    requires Lawful(k) && k.codeOf(e).Some?
    ensures Upsert(k, Upsert(k, t, e), e) == Upsert(k, t, e)
  {
    var code := k.codeOf(e).value;
    var once := Upsert(k, t, e);
    UpsertOneRow(k, t, e);
    var id := k.idOf(once.rows[code]);
    assert once.rows[code := k.withId(e, id)] == once.rows;
  }

  // ---------------------------------------------------------------------------
  // A sequence of saves, in order

  predicate AllKeyed<E>(k: Keying<E>, es: seq<E>)
  {
    forall i :: 0 <= i < |es| ==> k.codeOf(es[i]).Some?
  }

  /** The table after saving es one after the other. */
  function UpsertAll<E>(k: Keying<E>, t: TableState<E>, es: seq<E>): (r: TableState<E>)
    requires AllKeyed(k, es)
    // no row is removed, and at most one id is generated per saved entity
    ensures t.rows.Keys <= r.rows.Keys
    ensures t.nextId <= r.nextId <= t.nextId + |es|
    decreases |es|
  {
    if es == [] then t
    else Upsert(k, UpsertAll(k, t, es[..|es| - 1]), es[|es| - 1])
  }

  function Codes<E>(k: Keying<E>, es: seq<E>): set<string>
    requires AllKeyed(k, es)
  {
    set i | 0 <= i < |es| :: k.codeOf(es[i]).value
  }

  lemma CodesSnoc<E>(k: Keying<E>, es: seq<E>)
    requires es != [] && AllKeyed(k, es)
    ensures Codes(k, es) == Codes(k, es[..|es| - 1]) + {k.codeOf(es[|es| - 1]).value}
  {
    var init := es[..|es| - 1];
    forall c | c in Codes(k, es) ensures c in Codes(k, init) + {k.codeOf(es[|es| - 1]).value} {
      var i :| 0 <= i < |es| && k.codeOf(es[i]).value == c;
      if i < |es| - 1 {
        assert init[i] == es[i];
      }
    }
    forall c | c in Codes(k, init) ensures c in Codes(k, es) {
      var i :| 0 <= i < |init| && k.codeOf(init[i]).value == c;
      assert es[i] == init[i];
    }
  }

  /**
   * Saving a sequence: the table then holds exactly the old codes and the saved ones,
   * rows with other codes are unchanged, and the table stays well keyed.
   */
  lemma {:induction false} UpsertAllRows<E(!new)>(k: Keying<E>, t: TableState<E>, es: seq<E>)
    requires Lawful(k) && AllKeyed(k, es) && WellKeyed(k, t)
    ensures var r := UpsertAll(k, t, es);
      r.rows.Keys == t.rows.Keys + Codes(k, es) &&
      (forall c :: c in t.rows && c !in Codes(k, es) ==> r.rows[c] == t.rows[c]) &&
      WellKeyed(k, r) && r.nextId >= t.nextId
    decreases |es|
  {
    if es != [] {
      var init := es[..|es| - 1];
      var last := es[|es| - 1];
      assert AllKeyed(k, init) by {
        forall i | 0 <= i < |init| ensures k.codeOf(init[i]).Some? { assert init[i] == es[i]; }
      }
      UpsertAllRows(k, t, init);
      var mid := UpsertAll(k, t, init);
      UpsertOneRow(k, mid, last);
      UpsertWellKeyed(k, mid, last);
      CodesSnoc(k, es);
    }
  }

  /** The row stored for a code is the last entity saved with that code, with the row's id. */
  lemma {:induction false} UpsertAllLastWins<E(!new)>(k: Keying<E>, t: TableState<E>, es: seq<E>, j: nat)
    requires Lawful(k) && AllKeyed(k, es) && j < |es|
    requires forall i :: j < i < |es| ==> k.codeOf(es[i]) != k.codeOf(es[j])
    ensures var r := UpsertAll(k, t, es); var code := k.codeOf(es[j]).value;
      code in r.rows && r.rows[code] == k.withId(es[j], k.idOf(r.rows[code]))
    decreases |es|
  {
    var init := es[..|es| - 1];
    var last := es[|es| - 1];
    assert AllKeyed(k, init) by {
      forall i | 0 <= i < |init| ensures k.codeOf(init[i]).Some? { assert init[i] == es[i]; }
    }
    var mid := UpsertAll(k, t, init);
    UpsertOneRow(k, mid, last);
    if j < |es| - 1 {
      forall i | j < i < |init| ensures k.codeOf(init[i]) != k.codeOf(init[j]) {
        assert init[i] == es[i];
      }
      assert init[j] == es[j];
      UpsertAllLastWins(k, t, init, j);
    }
  }

  // ---------------------------------------------------------------------------
  // The mapper as an object whose state the batch code changes

  /** One table, reached through its mapper. */
  class Table<E> {
    const keying: Keying<E>
    var rows: map<string, E>
    var nextId: int

    function State(): TableState<E>
      reads this
    {
      TableState(rows, nextId)
    }

    constructor (keying: Keying<E>, initial: TableState<E>)
      ensures this.keying == keying && State() == initial
    {
      this.keying := keying;
      rows := initial.rows;
      nextId := initial.nextId;
    }

    /** selectBy<Code>: the row stored under the code, or null. */
    method SelectByCode(code: string) returns (r: Option<E>)
      ensures r.None? <==> code !in rows
      ensures r.Some? ==> r.value == rows[code]
    {
      if code in rows {
        r := Some(rows[code]);
      } else {
        r := None;
      }
    }

    /** update: replace the row stored under the entity's code. */
    method Update(e: E)
      requires keying.codeOf(e).Some? && keying.codeOf(e).value in rows
      modifies this
      ensures rows == old(rows)[keying.codeOf(e).value := e] && nextId == old(nextId)
    {
      rows := rows[keying.codeOf(e).value := e];
    }

    /** insert: add a row under the entity's code with the next identity value. */
    method Insert(e: E)
      requires keying.codeOf(e).Some? && keying.codeOf(e).value !in rows
      modifies this
      ensures rows == old(rows)[keying.codeOf(e).value := keying.withId(e, Some(old(nextId)))]
      ensures nextId == old(nextId) + 1
    {
      rows := rows[keying.codeOf(e).value := keying.withId(e, Some(nextId))];
      nextId := nextId + 1;
    }
  }

  /**
   * The body every saveEntity and every chunk writer shares: select by code, then
   * setId + update or insert. A failing database call throws and leaves the table as it was.
   */
  method SaveEntity<E(!new)>(table: Table<E>, e: E, fails: bool) returns (ok: bool)
    requires Lawful(table.keying) && table.keying.codeOf(e).Some?
    modifies table
    ensures ok == !fails
    ensures table.State() == if fails then old(table.State()) else Upsert(table.keying, old(table.State()), e)
  {
    if fails {
      return false;
    }
    var k := table.keying;
    var existing := table.SelectByCode(k.codeOf(e).value);
    if existing.Some? {
      table.Update(k.withId(e, k.idOf(existing.value)));
    } else {
      table.Insert(e);
    }
    ok := true;
  }
}
