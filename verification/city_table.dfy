/**
 * The relational `city` table: its rows, the check constraints on latitude
 * and longitude, the primary key on `id`, and the serial sequence that
 * supplies `id` when a row is inserted without one. Inserts that break a
 * constraint are rejected and leave the table as it was.
 */
module CityTable {
  import opened Wrappers
  import opened Schemas

  datatype CityRow = CityRow(
    id: int,
    name: string,
    region: Option<string>,
    country: string,
    latitude: real,
    longitude: real,
    population: int,
    timezone: string,
    alternatenames: seq<string>)

  /** The values of a row inserted without an id. */
  datatype NewCity = NewCity(
    name: string,
    region: Option<string>,
    country: string,
    latitude: real,
    longitude: real,
    population: int,
    timezone: string,
    alternatenames: seq<string>)

  function WithId(c: NewCity, id: int): CityRow
  {
    CityRow(id, c.name, c.region, c.country, c.latitude, c.longitude, c.population, c.timezone, c.alternatenames)
  }

  predicate RowChecks(r: CityRow)
  {
    ValidCoordinates(r.latitude, r.longitude)
  }

  predicate DistinctIds(rows: seq<CityRow>)
  {
    forall i, j :: 0 <= i < j < |rows| ==> rows[i].id != rows[j].id
  }

  /** What the table's constraints guarantee of its contents. */
  predicate TableInvariant(rows: seq<CityRow>)
  {
    (forall i :: 0 <= i < |rows| ==> RowChecks(rows[i])) && DistinctIds(rows)
  }

  /** A batch is accepted when each new row meets the check constraints and no id repeats. */
  predicate Accepts(rows: seq<CityRow>, newRows: seq<CityRow>)
  {
    (forall i :: 0 <= i < |newRows| ==> RowChecks(newRows[i])) && DistinctIds(rows + newRows)
  }

  /** No row carries `id`. */
  predicate IdFree(rows: seq<CityRow>, id: int)
  {
    forall i :: 0 <= i < |rows| ==> rows[i].id != id
  }

  /** A single row is accepted when it meets the check constraints and its id is not taken. */
  predicate AcceptsRow(rows: seq<CityRow>, row: CityRow)
  {
    RowChecks(row) && IdFree(rows, row.id)
  }

  /** For a table whose ids are distinct, accepting one row is accepting a batch of one. */
  lemma AcceptsOne(rows: seq<CityRow>, row: CityRow)
    requires DistinctIds(rows)
    ensures AcceptsRow(rows, row) <==> Accepts(rows, [row])
  {
    var all := rows + [row];
    if AcceptsRow(rows, row) {
      forall i, j | 0 <= i < j < |all| ensures all[i].id != all[j].id {
        if j == |rows| { assert all[i] == rows[i]; }
      }
    }
    if Accepts(rows, [row]) {
      assert [row][0] == row;
      forall i | 0 <= i < |rows| ensures rows[i].id != row.id {
        assert all[i] == rows[i] && all[|rows|] == row;
      }
    }
  }

  /** An accepted batch keeps the table's constraints. */
  lemma AcceptedKeepsInvariant(rows: seq<CityRow>, newRows: seq<CityRow>)
    requires TableInvariant(rows) && Accepts(rows, newRows)
    ensures TableInvariant(rows + newRows)
  {
    var all := rows + newRows;
    forall i | 0 <= i < |all| ensures RowChecks(all[i]) {
      if i >= |rows| { assert all[i] == newRows[i - |rows|]; }
    }
  }

  class Table {
    var rows: seq<CityRow>
    /** The next value of the sequence behind the serial `id` column. */
    var nextId: int

    ghost predicate Valid()
      reads this
    {
      TableInvariant(rows)
    }

    constructor (initial: seq<CityRow>, sequenceStart: int)
      requires TableInvariant(initial)
      ensures Valid() && rows == initial && nextId == sequenceStart
    {
      rows := initial;
      nextId := sequenceStart;
    }

    /** A multi-row INSERT with explicit ids, all or nothing; it does not advance the sequence. */
    method BulkInsert(newRows: seq<CityRow>) returns (ok: bool)
      requires Valid()
      modifies this
      ensures Valid() && nextId == old(nextId)
      ensures ok == Accepts(old(rows), newRows)
      ensures rows == if ok then old(rows) + newRows else old(rows)
    {
      ok := Accepts(rows, newRows);
      if ok {
        AcceptedKeepsInvariant(rows, newRows);
        rows := rows + newRows;
      }
    }

    /** An INSERT without an id: the sequence value is consumed whether or not the row is accepted. */
    method Insert(c: NewCity) returns (ok: bool, id: int)
      requires Valid()
      modifies this
      ensures Valid()
      ensures id == old(nextId) && nextId == old(nextId) + 1
      ensures ok == AcceptsRow(old(rows), WithId(c, id))
      ensures rows == if ok then old(rows) + [WithId(c, id)] else old(rows)
    {
      id := nextId;
      nextId := nextId + 1;
      AcceptsOne(rows, WithId(c, id));
      ok := AcceptsRow(rows, WithId(c, id));
      if ok {
        AcceptedKeepsInvariant(rows, [WithId(c, id)]);
        rows := rows + [WithId(c, id)];
      }
    }

    /** DELETE FROM city. */
    method DeleteAll()
      requires Valid()
      modifies this
      ensures Valid() && rows == [] && nextId == old(nextId)
    {
      rows := [];
    }
  }
}
