/**
 * The conversion of the GeoNames `cities1000` dump, one tab-separated line
 * per place, into a list of records. Blank lines are skipped; the first
 * line that cannot be converted stops the conversion.
 */
module GeoNamesParser {
  import opened Wrappers
  import opened Text
  import opened Collections

  datatype GeoNamesRecord = GeoNamesRecord(
    geonameid: int,
    name: string,
    asciiname: string,
    alternatenames: seq<string>,
    latitude: real,
    longitude: real,
    featureClass: string,
    featureCode: string,
    countryCode: string,
    cc2: seq<string>,
    admin1Code: string,
    admin2Code: string,
    admin3Code: string,
    admin4Code: string,
    population: Option<int>,
    elevation: Option<int>,
    dem: string,
    timezone: string,
    modificationDate: string)

  /** The ValueError a line raises: the unpacking of the fields, or one of the numeric conversions. */
  datatype ParseError =
    | WrongFieldCount(count: nat)
    | NotAnInteger(text: string)
    | NotANumber(text: string)

  const FieldCount := 19

  /** The fields of a line: stripped first, then split on tabs. */
  function Fields(line: string): seq<string>
  {
    Split(Strip(line), '\t')
  }

  /** `int(text)`. */
  function Integer(text: string): (r: Result<int, ParseError>)
    ensures r.Success? <==> ParseInt(text).Some?
    ensures r.Success? ==> ParseInt(text) == Some(r.value)
    ensures r.Failure? ==> r.error == NotAnInteger(text)
  {
    OrFail(ParseInt(text), NotAnInteger(text))
  }

  /** `int(text) if text else None`. */
  function OptionalInteger(text: string): (r: Result<Option<int>, ParseError>)
    ensures text == [] ==> r == Success(None)
    ensures text != [] ==> (r.Success? <==> ParseInt(text).Some?)
    ensures text != [] && r.Success? ==> r.value.Some? && ParseInt(text) == r.value
  {
    if text == [] then Success(None)
    else match ParseInt(text)
      case Some(n) => Success(Some(n))
      case None => Failure(NotAnInteger(text))
  }

  /** `float(text)`, with the conversion itself left abstract. */
  function Number(text: string, parseReal: string -> Option<real>): Result<real, ParseError>
  {
    OrFail(parseReal(text), NotANumber(text))
  }

  /**
   * The alternate names through the unicode_escape codec, one by one: every
   * result is printable ASCII, and a name already in printable ASCII without
   * a backslash comes through unchanged.
   */
  function EscapeAll(names: seq<string>): (r: seq<string>)
    ensures |r| == |names| && forall k :: 0 <= k < |names| ==> r[k] == Escape(names[k])
    ensures forall k :: 0 <= k < |r| ==> AllPrintableAscii(r[k])
    ensures forall k :: 0 <= k < |r| && AllPrintableAscii(names[k]) && NoBackslash(names[k]) ==> r[k] == names[k]
  {
    EscapedNames(names);
    seq(|names|, k requires 0 <= k < |names| => Escape(names[k]))
  }

  predicate NoBackslash(s: string)
  {
    forall i :: 0 <= i < |s| ==> s[i] != '\\'
  }

  lemma EscapedNames(names: seq<string>)
    ensures forall k :: 0 <= k < |names| ==> AllPrintableAscii(Escape(names[k]))
    ensures forall k :: 0 <= k < |names| && AllPrintableAscii(names[k]) && NoBackslash(names[k]) ==>
      Escape(names[k]) == names[k]
  {
    forall k | 0 <= k < |names| ensures AllPrintableAscii(Escape(names[k])) {
      EscapePrintable(names[k]);
    }
    forall k | 0 <= k < |names| && AllPrintableAscii(names[k]) && NoBackslash(names[k])
      ensures Escape(names[k]) == names[k]
    {
      EscapeIdentity(names[k]);
    }
  }

  /** `int(text)` reads back the text `str` writes for any integer. */
  lemma IntegerRoundTrip(n: int)
    ensures Integer(IntToString(n)) == Success(n)
  {
    IntToStringRoundTrip(n);
  }

  /** Every numeric field of a 19-field line converts. */
  predicate Convertible(f: seq<string>, parseReal: string -> Option<real>)
    requires |f| == FieldCount
  {
    && ParseInt(f[0]).Some?
    && parseReal(f[4]).Some? && parseReal(f[5]).Some?
    && (f[14] != [] ==> ParseInt(f[14]).Some?)
    && (f[15] != [] ==> ParseInt(f[15]).Some?)
  }

  /** The record is what the fields say, field by field. */
  predicate Describes(f: seq<string>, parseReal: string -> Option<real>, rec: GeoNamesRecord)
    requires |f| == FieldCount
  {
    && ParseInt(f[0]) == Some(rec.geonameid)
    && rec.name == f[1] && rec.asciiname == f[2]
    && rec.alternatenames == EscapeAll(Split(f[3], ','))
    && parseReal(f[4]) == Some(rec.latitude) && parseReal(f[5]) == Some(rec.longitude)
    && rec.featureClass == f[6] && rec.featureCode == f[7] && rec.countryCode == f[8]
    && rec.cc2 == Split(f[9], ',')
    && rec.admin1Code == f[10] && rec.admin2Code == f[11] && rec.admin3Code == f[12] && rec.admin4Code == f[13]
    && (rec.population.None? <==> f[14] == []) && (rec.population.Some? ==> ParseInt(f[14]) == rec.population)
    && (rec.elevation.None? <==> f[15] == []) && (rec.elevation.Some? ==> ParseInt(f[15]) == rec.elevation)
    && rec.dem == f[16] && rec.timezone == f[17] && rec.modificationDate == f[18]
  }

  /** The numeric fields of a line, once converted. */
  datatype Numbers = Numbers(geonameid: int, latitude: real, longitude: real, population: Option<int>, elevation: Option<int>)

  /** The conversions of a 19-field line, in the order the record's fields are written; the first to fail raises. */
  function ConvertNumbers(f: seq<string>, parseReal: string -> Option<real>): (r: Result<Numbers, ParseError>)
    requires |f| == FieldCount
    ensures r.Success? <==> Convertible(f, parseReal)
    ensures r.Success? ==>
      && ParseInt(f[0]) == Some(r.value.geonameid)
      && parseReal(f[4]) == Some(r.value.latitude) && parseReal(f[5]) == Some(r.value.longitude)
      && (r.value.population.None? <==> f[14] == []) && (r.value.population.Some? ==> ParseInt(f[14]) == r.value.population)
      && (r.value.elevation.None? <==> f[15] == []) && (r.value.elevation.Some? ==> ParseInt(f[15]) == r.value.elevation)
  {
    var geonameid :- Integer(f[0]);
    var latitude :- Number(f[4], parseReal);
    var longitude :- Number(f[5], parseReal);
    var population :- OptionalInteger(f[14]);
    var elevation :- OptionalInteger(f[15]);
    Success(Numbers(geonameid, latitude, longitude, population, elevation))
  }

  /** One non-blank line to one record. */
  function ParseLine(line: string, parseReal: string -> Option<real>): (r: Result<GeoNamesRecord, ParseError>)
    ensures var f := Fields(line);
      && (|f| != FieldCount ==> r == Failure(WrongFieldCount(|f|)))
      && (|f| == FieldCount ==> (r.Success? <==> Convertible(f, parseReal)))
      && (r.Success? ==> |f| == FieldCount && Describes(f, parseReal, r.value))
  {
    var f := Fields(line);
    if |f| != FieldCount then Failure(WrongFieldCount(|f|))
    else
      var n :- ConvertNumbers(f, parseReal);
      Success(GeoNamesRecord(
        n.geonameid, f[1], f[2], EscapeAll(Split(f[3], ',')), n.latitude, n.longitude,
        f[6], f[7], f[8], Split(f[9], ','), f[10], f[11], f[12], f[13],
        n.population, n.elevation, f[16], f[17], f[18]))
  }

  /**
   * The list fields lose nothing: one alternate name per comma plus one,
   * the country codes join back into their field, and alternate names in
   * plain printable ASCII without a backslash join back into theirs.
   */
  lemma ListFieldsKept(line: string, parseReal: string -> Option<real>)
    requires ParseLine(line, parseReal).Success?
    ensures var f := Fields(line); var rec := ParseLine(line, parseReal).value;
      && |rec.alternatenames| == Occurrences(f[3], ',') + 1
      && Join(rec.cc2, ",") == f[9]
      && (AllPrintableAscii(f[3]) && (forall i :: 0 <= i < |f[3]| ==> f[3][i] != '\\') ==>
            Join(rec.alternatenames, ",") == f[3])
  {
    var f := Fields(line);
    var rec := ParseLine(line, parseReal).value;
    SplitJoin(f[9], ',');
    if AllPrintableAscii(f[3]) && (forall i :: 0 <= i < |f[3]| ==> f[3][i] != '\\') {
      var names := Split(f[3], ',');
      forall k | 0 <= k < |names| ensures Escape(names[k]) == names[k] {
        AlternateNameClean(f[3], k);
      }
      assert rec.alternatenames == names;
      SplitJoin(f[3], ',');
    }
  }

  /** A piece of a split of clean text is clean: each of its characters is one of the text's. */
  lemma AlternateNameClean(s: string, k: nat)
    requires AllPrintableAscii(s) && (forall i :: 0 <= i < |s| ==> s[i] != '\\')
    requires k < |Split(s, ',')|
    ensures Escape(Split(s, ',')[k]) == Split(s, ',')[k]
  {
    PiecesFromText(s, ',', k);
    EscapeIdentity(Split(s, ',')[k]);
  }

  lemma {:induction false} PiecesFromText(s: string, c: char, k: nat)
    requires k < |Split(s, c)|
    ensures forall j :: 0 <= j < |Split(s, c)[k]| ==> Split(s, c)[k][j] in s
  {
    if s != [] {
      var rest := Split(s[1..], c);
      if s[0] == c {
        if k > 0 {
          PiecesFromText(s[1..], c, k - 1);
        }
      } else {
        if k == 0 {
          PiecesFromText(s[1..], c, 0);
          forall j | 0 <= j < |Split(s, c)[0]| ensures Split(s, c)[0][j] in s {
            if j > 0 { assert Split(s, c)[0][j] == rest[0][j - 1]; }
          }
        } else {
          PiecesFromText(s[1..], c, k);
        }
      }
    }
  }

  /** A line that something is left of once stripped. */
  predicate NonBlank(line: string)
  {
    !AllSpace(line)
  }

  /** The positions of the lines that produce a record. */
  function RecordLines(lines: seq<string>): seq<nat>
  {
    FilterIndices(lines, NonBlank)
  }

  /** The conversion, for any line converter: the non-blank lines converted in order, up to the first failure. */
  function ConvertAll(lines: seq<string>, convert: string -> Result<GeoNamesRecord, ParseError>)
    : (r: Result<seq<GeoNamesRecord>, ParseError>)
    ensures r.Success? ==> |r.value| <= |lines|
    ensures r.Failure? ==> lines != [] && exists i :: 0 <= i < |lines| && convert(lines[i]) == Failure(r.error)
  {
    if lines == [] then Success([])
    else
      var last := |lines| - 1;
      match ConvertAll(lines[..last], convert)
      case Failure(e) => Failure(e)
      case Success(done) =>
        if !NonBlank(lines[last]) then Success(done)
        else
          match convert(lines[last])
          case Failure(e) => Failure(e)
          case Success(record) => Success(done + [record])
  }

  /** A successful conversion holds one record per non-blank line, in input order. */
  lemma {:induction false} ConvertAllValues(lines: seq<string>, convert: string -> Result<GeoNamesRecord, ParseError>)
    ensures var idx := RecordLines(lines); var r := ConvertAll(lines, convert);
      r.Success? ==>
        (|r.value| == |idx| && forall k :: 0 <= k < |idx| ==> convert(lines[idx[k]]) == Success(r.value[k]))
  {
    if lines != [] && ConvertAll(lines, convert).Success? {
      var last := |lines| - 1;
      var front := lines[..last];
      ConvertAllValues(front, convert);
      var before := RecordLines(front);
      var idx := RecordLines(lines);
      var done := ConvertAll(front, convert).value;
      var r := ConvertAll(lines, convert).value;
      assert idx == before + (if NonBlank(lines[last]) then [last] else []);
      assert r == done + (if NonBlank(lines[last]) then [convert(lines[last]).value] else []);
      forall k | 0 <= k < |idx| ensures convert(lines[idx[k]]) == Success(r[k]) {
        if k < |before| {
          assert idx[k] == before[k] && lines[idx[k]] == front[before[k]] && r[k] == done[k];
        }
      }
    }
  }

  /** A failed conversion reports the first non-blank line that does not convert. */
  lemma {:induction false} ConvertAllFailure(lines: seq<string>, convert: string -> Result<GeoNamesRecord, ParseError>)
    ensures var r := ConvertAll(lines, convert);
      r.Failure? ==>
        exists i :: (0 <= i < |lines| && NonBlank(lines[i]) && convert(lines[i]) == Failure(r.error)
          && forall j :: 0 <= j < i && NonBlank(lines[j]) ==> convert(lines[j]).Success?)
  {
    if lines != [] {
      var last := |lines| - 1;
      var front := lines[..last];
      var r := ConvertAll(lines, convert);
      if ConvertAll(front, convert).Failure? {
        ConvertAllFailure(front, convert);
        var i :| 0 <= i < |front| && NonBlank(front[i]) && convert(front[i]) == Failure(r.error)
          && forall j :: 0 <= j < i && NonBlank(front[j]) ==> convert(front[j]).Success?;
        assert lines[i] == front[i];
        assert forall j :: 0 <= j < i ==> lines[j] == front[j];
      } else if r.Failure? {
        ConvertAllValues(front, convert);
        var before := RecordLines(front);
        forall j | 0 <= j < last && NonBlank(lines[j]) ensures convert(lines[j]).Success? {
          assert front[j] == lines[j];
          FilterIndicesComplete(front, NonBlank, j);
          var k :| 0 <= k < |before| && before[k] == j;
        }
      }
    }
  }

  /** The conversion succeeds exactly when every non-blank line converts. */
  lemma ConvertAllSuccess(lines: seq<string>, convert: string -> Result<GeoNamesRecord, ParseError>)
    ensures var idx := RecordLines(lines);
      ConvertAll(lines, convert).Success? <==> forall k :: 0 <= k < |idx| ==> convert(lines[idx[k]]).Success?
  {
    var idx := RecordLines(lines);
    ConvertAllValues(lines, convert);
    ConvertAllFailure(lines, convert);
    if ConvertAll(lines, convert).Failure? {
      var i :| 0 <= i < |lines| && NonBlank(lines[i]) && convert(lines[i]).Failure?;
      FilterIndicesComplete(lines, NonBlank, i);
      var k :| 0 <= k < |idx| && idx[k] == i;
    }
  }

  /** Once a prefix of the lines fails, the whole conversion fails the same way. */
  lemma {:induction false} ConvertFailureStays(lines: seq<string>, n: nat, convert: string -> Result<GeoNamesRecord, ParseError>)
    requires n <= |lines| && ConvertAll(lines[..n], convert).Failure?
    ensures ConvertAll(lines, convert) == ConvertAll(lines[..n], convert)
    decreases |lines|
  {
    if n < |lines| {
      var front := lines[..|lines| - 1];
      assert front[..n] == lines[..n];
      ConvertFailureStays(front, n, convert);
    } else {
      assert lines[..n] == lines;
    }
  }

  /** The conversion loop: each line stripped, blank ones skipped, the first failure returned. */
  method ConvertLines(lines: seq<string>, convert: string -> Result<GeoNamesRecord, ParseError>)
    returns (r: Result<seq<GeoNamesRecord>, ParseError>)
    ensures r == ConvertAll(lines, convert)
  {
    var data: seq<GeoNamesRecord> := [];
    var i := 0;
    while i < |lines|
      invariant 0 <= i <= |lines|
      invariant ConvertAll(lines[..i], convert) == Success(data)
    {
      assert lines[..i + 1][..i] == lines[..i];
      var line := Strip(lines[i]);
      StripEmpty(lines[i]);
      if line != [] {
        var record := convert(lines[i]);
        if record.Failure? {
          assert ConvertAll(lines[..i + 1], convert) == Failure(record.error);
          ConvertFailureStays(lines, i + 1, convert);
          return Failure(record.error);
        }
        data := data + [record.value];
      }
      i := i + 1;
    }
    assert lines[..i] == lines;
    r := Success(data);
  }

  /** The dump's conversion: `ConvertLines` with `ParseLine`. */
  method ParseLines(lines: seq<string>, parseReal: string -> Option<real>)
    returns (r: Result<seq<GeoNamesRecord>, ParseError>)
    ensures var idx := RecordLines(lines);
      r.Success? <==> forall k :: 0 <= k < |idx| ==> ParseLine(lines[idx[k]], parseReal).Success?
    ensures var idx := RecordLines(lines);
      r.Success? ==>
        (|r.value| == |idx| && forall k :: 0 <= k < |idx| ==> ParseLine(lines[idx[k]], parseReal) == Success(r.value[k]))
    ensures r.Failure? ==>
      exists i :: (0 <= i < |lines| && NonBlank(lines[i]) && ParseLine(lines[i], parseReal) == Failure(r.error)
        && forall j :: 0 <= j < i && NonBlank(lines[j]) ==> ParseLine(lines[j], parseReal).Success?)
  {
    r := ConvertLines(lines, line => ParseLine(line, parseReal));
    ConvertAllValues(lines, line => ParseLine(line, parseReal));
    ConvertAllSuccess(lines, line => ParseLine(line, parseReal));
    ConvertAllFailure(lines, line => ParseLine(line, parseReal));
  }
}
