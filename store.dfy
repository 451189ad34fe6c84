/** The `ipo_entries` table: rows keyed by IPO id, filled with
    `INSERT OR IGNORE` and read back as the set of known ids. */
module Store {
  import opened Common
  import opened Entry

  /** The non-key columns of a row (`first_seen` is left out). */
  datatype Row = Row(
    symbolClean: string,
    companyName: string,
    units: string,
    openingDate: string,
    closingDate: string,
    issueManager: string,
    price: string,
    status: string,
    url: Option<string>)

  /** The columns `save_ipo_entries` writes for an entry (the raw `symbol` is not stored). */
  function RowOf(e: IpoEntry): Row {
    Row(e.symbolClean, e.companyName, e.units, e.openingDate, e.closingDate,
        e.issueManager, e.price, e.status, e.url)
  }

  /** One `INSERT OR IGNORE`: a row whose id is already present is never overwritten. */
  function InsertIfAbsent(table: map<int, Row>, e: IpoEntry): map<int, Row> {
    if e.id in table then table else table[e.id := RowOf(e)]
  }

  /** The table after the statements for `es` ran in order. */
  function InsertAll(table: map<int, Row>, es: seq<IpoEntry>): map<int, Row>
    decreases |es|
  {
    if es == [] then table else InsertIfAbsent(InsertAll(table, es[..|es| - 1]), es[|es| - 1])
  }

  /** After a save every id of the batch is stored, no other key appears, and rows
      that were stored before keep their contents. */
  lemma {:induction false} InsertAllShape(table: map<int, Row>, es: seq<IpoEntry>)
    ensures InsertAll(table, es).Keys == table.Keys + Ids(es)
    ensures forall k :: k in table ==> InsertAll(table, es)[k] == table[k]
    decreases |es|
  {
    if es != [] {
      var init := es[..|es| - 1];
      assert es == init + [es[|es| - 1]];
      assert Ids(es) == Ids(init) + {es[|es| - 1].id};
      InsertAllShape(table, init);
    }
  }

  /** When a batch repeats an id that was not stored before, the row of its first
      occurrence is the one kept. */
  lemma {:induction false} InsertAllFirstWins(table: map<int, Row>, es: seq<IpoEntry>, i: nat)
    requires i < |es| && es[i].id !in table
    requires forall j :: 0 <= j < i ==> es[j].id != es[i].id
    ensures es[i].id in InsertAll(table, es) && InsertAll(table, es)[es[i].id] == RowOf(es[i])
    decreases |es|
  {
    var init := es[..|es| - 1];
    var last := es[|es| - 1];
    InsertAllShape(table, init);
    if i < |es| - 1 {
      InsertAllFirstWins(table, init, i);
    } else {
      assert es[i].id !in Ids(init);
    }
  }

  /** A batch whose ids are all stored already leaves the table as it was. */
  lemma {:induction false} InsertAllKnown(table: map<int, Row>, es: seq<IpoEntry>)
    requires Ids(es) <= table.Keys
    ensures InsertAll(table, es) == table
    decreases |es|
  {
    if es != [] {
      var init := es[..|es| - 1];
      assert Ids(init) <= Ids(es);
      InsertAllKnown(table, init);
      assert es[|es| - 1] in es;
    }
  }

  /** Saving the same batch a second time changes nothing. */
  lemma InsertAllIdempotent(table: map<int, Row>, es: seq<IpoEntry>)
    ensures InsertAll(InsertAll(table, es), es) == InsertAll(table, es)
  {
    InsertAllShape(table, es);
    InsertAllKnown(InsertAll(table, es), es);
  }

  /** Saving `a + b` in one call is the same as saving `a`, then `b`. */
  lemma {:induction false} InsertAllAppend(table: map<int, Row>, a: seq<IpoEntry>, b: seq<IpoEntry>)
    ensures InsertAll(table, a + b) == InsertAll(InsertAll(table, a), b)
    decreases |b|
  {
    if b == [] {
      assert a + b == a;
    } else {
      var ab, b', last := a + b, b[..|b| - 1], b[|b| - 1];
      assert ab[..|ab| - 1] == a + b';
      assert ab[|ab| - 1] == last;
      InsertAllAppend(table, a, b');
      calc {
        InsertAll(table, ab);
        InsertIfAbsent(InsertAll(table, ab[..|ab| - 1]), ab[|ab| - 1]);
        InsertIfAbsent(InsertAll(table, a + b'), last);
        InsertIfAbsent(InsertAll(InsertAll(table, a), b'), last);
        InsertAll(InsertAll(table, a), b);
      }
    }
  }

  /** The SQLite table; each method opens it, works on it and commits. */
  class IpoStore {
    var table: map<int, Row>

    /** An existing database file holding `rows`. */
    constructor (rows: map<int, Row>)
      ensures table == rows
    {
      table := rows;
    }

    /** `get_known_ipo_ids`: `SELECT id FROM ipo_entries`. */
    function KnownIds(): (ids: set<int>)
      reads this
      ensures forall id :: id in ids <==> id in table
    {
      table.Keys
    }

    /** `save_ipo_entries`: one `INSERT OR IGNORE` per entry, in order. */
    method SaveEntries(entries: seq<IpoEntry>)
      modifies this
      ensures table == InsertAll(old(table), entries)
      ensures table.Keys == old(table).Keys + Ids(entries)
      ensures forall k :: k in old(table) ==> table[k] == old(table)[k]
    {
      var i := 0;
      while i < |entries|
        invariant 0 <= i <= |entries|
        invariant table == InsertAll(old(table), entries[..i])
      {
        assert entries[..i + 1][..i] == entries[..i];
        var e := entries[i];
        if e.id !in table {
          table := table[e.id := RowOf(e)];
        }
        i := i + 1;
      }
      assert entries[..i] == entries;
      InsertAllShape(old(table), entries);
    }
  }
}
