/**
 * The data migration that fills the `city` table from a CSV export of it
 * (`upgrade`) and empties it again (`downgrade`). Every CSV row is
 * converted first; the converted rows are then appended in one batch.
 */
module CityMigration {
  import opened Wrappers
  import opened Text
  import opened CityTable

  /** One CSV record, every cell as text. */
  datatype CsvRow = CsvRow(
    id: string,
    name: string,
    region: string,
    country: string,
    latitude: string,
    longitude: string,
    population: string,
    timezone: string,
    alternatenames: string)

  /** The ValueError of `int()` or `float()` on a cell. */
  datatype RowError = NotAnInteger(text: string) | NotANumber(text: string)

  datatype MigrationOutcome =
    | Applied                 // the rows were appended
    | BadRow(error: RowError) // a cell did not convert: nothing was inserted
    | Rejected                // the batch broke a table constraint: nothing was inserted

  /** `s[1:-1]`: the text without its first and last character. */
  function Inner(s: string): (r: string)
    ensures |s| >= 2 ==> s == [s[0]] + r + [s[|s| - 1]]
    ensures |s| < 2 ==> r == []
  {
    if |s| >= 2 then s[1..|s| - 1] else []
  }

  function StripAll(items: seq<string>): (r: seq<string>)
    ensures |r| == |items| && forall k :: 0 <= k < |items| ==> r[k] == Strip(items[k])
  {
    seq(|items|, k requires 0 <= k < |items| => Strip(items[k]))
  }

  /** The array literal `{a,b,...}` of the export: its items, each stripped. */
  function AlternateNames(field: string): (names: seq<string>)
    ensures |names| == Occurrences(Inner(field), ',') + 1
    ensures forall k :: 0 <= k < |names| ==> names[k] == Strip(Split(Inner(field), ',')[k])
  {
    StripAll(Split(Inner(field), ','))
  }

  /** A name the array literal carries unchanged: no comma in it, no white space at its ends. */
  predicate PlainName(name: string)
  {
    Lacks(name, ',') && (name != [] ==> !IsSpace(name[0]) && !IsSpace(name[|name| - 1]))
  }

  lemma BracedInner(text: string)
    ensures Inner("{" + text + "}") == text
  {
    var field := "{" + text + "}";
    assert field[1..|field| - 1] == text;
  }

  lemma PlainNamesStripped(names: seq<string>)
    requires forall k :: 0 <= k < |names| ==> PlainName(names[k])
    ensures StripAll(names) == names
  {
    forall k | 0 <= k < |names| ensures Strip(names[k]) == names[k] {
      StripUnchanged(names[k]);
    }
  }

  /** Writing plain names as an array literal and reading them back gives the names. */
  lemma AlternateNamesRoundTrip(names: seq<string>)
    requires names != [] && forall k :: 0 <= k < |names| ==> PlainName(names[k])
    ensures AlternateNames("{" + Join(names, ",") + "}") == names
  {
    var joined := Join(names, ",");
    var field := "{" + joined + "}";
    BracedInner(joined);
    assert forall k :: 0 <= k < |names| ==> Lacks(names[k], ',');
    assert "," == [','];
    JoinSplit(names, ',');
    PlainNamesStripped(names);
  }

  /** The processed row of `upgrade`: the numbers converted in cell order, the text cells copied. */
  function ProcessRow(row: CsvRow, parseReal: string -> Option<real>): (r: Result<CityRow, RowError>)
    ensures r.Success? <==>
      ParseInt(row.id).Some? && parseReal(row.latitude).Some? && parseReal(row.longitude).Some?
      && ParseInt(row.population).Some?
    ensures r.Success? ==>
      && Some(r.value.id) == ParseInt(row.id) && Some(r.value.population) == ParseInt(row.population)
      && Some(r.value.latitude) == parseReal(row.latitude) && Some(r.value.longitude) == parseReal(row.longitude)
      && r.value.name == row.name && r.value.region == Some(row.region) && r.value.country == row.country
      && r.value.timezone == row.timezone && r.value.alternatenames == AlternateNames(row.alternatenames)
  {
    var id :- OrFail(ParseInt(row.id), NotAnInteger(row.id));
    var latitude :- OrFail(parseReal(row.latitude), NotANumber(row.latitude));
    var longitude :- OrFail(parseReal(row.longitude), NotANumber(row.longitude));
    var population :- OrFail(ParseInt(row.population), NotAnInteger(row.population));
    Success(CityRow(id, row.name, Some(row.region), row.country, latitude, longitude, population,
                    row.timezone, AlternateNames(row.alternatenames)))
  }

  /**
   * A CSV record for a table row, as a hypothetical export that the
   * migration reads back exactly would write it. The real export is not
   * part of this model.
   */
  function ExportRow(c: CityRow, showReal: real -> string): CsvRow
    requires c.region.Some?
  {
    CsvRow(IntToString(c.id), c.name, c.region.value, c.country, showReal(c.latitude), showReal(c.longitude),
           IntToString(c.population), c.timezone, "{" + Join(c.alternatenames, ",") + "}")
  }

  /**
   * Importing an exported row gives the row back, when the number format
   * reads back exactly and the alternate names are plain.
   */
  lemma ExportImport(c: CityRow, showReal: real -> string, parseReal: string -> Option<real>)
    requires c.region.Some?
    requires parseReal(showReal(c.latitude)) == Some(c.latitude)
    requires parseReal(showReal(c.longitude)) == Some(c.longitude)
    requires c.alternatenames != [] && forall k :: 0 <= k < |c.alternatenames| ==> PlainName(c.alternatenames[k])
    ensures ProcessRow(ExportRow(c, showReal), parseReal) == Success(c)
  {
    IntToStringRoundTrip(c.id);
    IntToStringRoundTrip(c.population);
    AlternateNamesRoundTrip(c.alternatenames);
  }

  /** `ProcessRow` with its number parser fixed. */
  function Processor(parseReal: string -> Option<real>): CsvRow -> Result<CityRow, RowError>
  {
    row => ProcessRow(row, parseReal)
  }

  /** Rows converted in order; the first row that fails decides the error. */
  function ProcessRows(rows: seq<CsvRow>, convert: CsvRow -> Result<CityRow, RowError>): (r: Result<seq<CityRow>, RowError>)
    ensures r.Success? <==> forall i :: 0 <= i < |rows| ==> convert(rows[i]).Success?
    ensures r.Success? ==>
      |r.value| == |rows| && forall i :: 0 <= i < |rows| ==> convert(rows[i]) == Success(r.value[i])
    ensures r.Failure? ==>
      exists i :: (0 <= i < |rows| && convert(rows[i]) == Failure(r.error)
        && forall j :: 0 <= j < i ==> convert(rows[j]).Success?)
  {
    if rows == [] then Success([])
    else
      var front := rows[..|rows| - 1];
      var last := |rows| - 1;
      assert forall i :: 0 <= i < last ==> front[i] == rows[i];
      match ProcessRows(front, convert)
      case Failure(e) => Failure(e)
      case Success(done) =>
        match convert(rows[last])
        case Failure(e) => Failure(e)
        case Success(row) => Success(done + [row])
  }

  /** Once a prefix of the rows fails, the whole batch fails the same way. */
  lemma {:induction false} FailureStays(rows: seq<CsvRow>, n: nat, convert: CsvRow -> Result<CityRow, RowError>)
    requires n <= |rows| && ProcessRows(rows[..n], convert).Failure?
    ensures ProcessRows(rows, convert) == ProcessRows(rows[..n], convert)
    decreases |rows|
  {
    if n < |rows| {
      var front := rows[..|rows| - 1];
      assert front[..n] == rows[..n];
      FailureStays(front, n, convert);
    } else {
      assert rows[..n] == rows;
    }
  }

  /** The processing loop of `upgrade`: it stops at the first row that does not convert. */
  method ProcessAll(rows: seq<CsvRow>, convert: CsvRow -> Result<CityRow, RowError>) returns (r: Result<seq<CityRow>, RowError>)
    ensures r == ProcessRows(rows, convert)
  {
    var processedRows: seq<CityRow> := [];
    var i := 0;
    while i < |rows|
      invariant 0 <= i <= |rows|
      invariant ProcessRows(rows[..i], convert) == Success(processedRows)
    {
      assert rows[..i + 1][..i] == rows[..i];
      var processed := convert(rows[i]);
      if processed.Failure? {
        assert ProcessRows(rows[..i + 1], convert) == Failure(processed.error);
        FailureStays(rows, i + 1, convert);
        return Failure(processed.error);
      }
      processedRows := processedRows + [processed.value];
      i := i + 1;
    }
    assert rows[..i] == rows;
    r := Success(processedRows);
  }

  /**
   * `upgrade`: the rows are processed one by one, in order; the first bad
   * cell stops it before anything is written, otherwise the processed rows
   * are appended in one batch, which the table accepts or rejects whole.
   */
  method Upgrade(table: Table, rows: seq<CsvRow>, parseReal: string -> Option<real>) returns (outcome: MigrationOutcome)
    requires table.Valid()
    modifies table
    ensures table.Valid() && table.nextId == old(table.nextId)
    ensures ProcessRows(rows, Processor(parseReal)).Failure? ==>
      outcome == BadRow(ProcessRows(rows, Processor(parseReal)).error) && table.rows == old(table.rows)
    ensures ProcessRows(rows, Processor(parseReal)).Success? ==>
      var processed := ProcessRows(rows, Processor(parseReal)).value;
      && (outcome == Applied <==> Accepts(old(table.rows), processed))
      && (outcome != Applied ==> outcome == Rejected)
      && table.rows == if outcome == Applied then old(table.rows) + processed else old(table.rows)
  {
    var processedRows := ProcessAll(rows, Processor(parseReal));
    if processedRows.Failure? {
      return BadRow(processedRows.error);
    }
    var ok := table.BulkInsert(processedRows.value);
    outcome := if ok then Applied else Rejected;
  }

  /** `downgrade`: every row of the table is deleted, not only the ones `upgrade` added. */
  method Downgrade(table: Table)
    requires table.Valid()
    modifies table
    ensures table.Valid() && table.rows == [] && table.nextId == old(table.nextId)
  {
    table.DeleteAll();
  }
}
