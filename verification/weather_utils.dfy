/**
 * City lookups over the rows of the city table, and the relabelling of a
 * provider payload into the location and weather groups shown to the user.
 */
module WeatherUtils {
  import opened Wrappers
  import opened Text
  import opened Collections
  import opened Schemas
  import opened CityTable
  import opened WeatherApi

  // ---------------------------------------------------------------- rows to records

  /** Why a lookup raised instead of returning a city. */
  datatype LookupFailure =
    | InvalidRecord(id: int)   // the row has a null region, which `CityInDB` refuses
    | NoSuchCity               // no row has the requested id

  /** `CityInDB(**row)`: every column is carried over; a null region is refused. */
  function ToCityInDB(row: CityRow): (r: Option<CityInDB>)
    ensures r.Some? <==> row.region.Some?
    ensures r.Some? ==> FromCityInDB(r.value) == row
  {
    match row.region
    case None => None
    case Some(region) =>
      Some(CityInDB(row.id, row.name, region, row.country, row.latitude, row.longitude,
                    row.population, row.timezone, row.alternatenames))
  }

  /** The table row a validated record came from: the record drops nothing but the region's `None`. */
  function FromCityInDB(city: CityInDB): CityRow
  {
    CityRow(city.id, city.name, Some(city.region), city.country, city.latitude, city.longitude,
            city.population, city.timezone, city.alternatenames)
  }

  // ---------------------------------------------------------------- search_cities_db

  /** The query equals the title-cased name or one title-cased alternate name (the query itself is not normalised). */
  predicate NameMatches(query: string, row: CityRow)
  {
    query == Title(row.name) || exists k :: 0 <= k < |row.alternatenames| && query == Title(row.alternatenames[k])
  }

  function Matcher(query: string): CityRow -> bool
  {
    row => NameMatches(query, row)
  }

  /** The positions of the matching rows, in table order. */
  function MatchingRows(rows: seq<CityRow>, query: string): seq<nat>
  {
    FilterIndices(rows, Matcher(query))
  }

  /**
   * The matching rows are exactly the rows whose name matches, each once,
   * in table order; an empty table has none.
   */
  lemma MatchingRowsExact(rows: seq<CityRow>, query: string)
    ensures var idx := MatchingRows(rows, query);
      && (forall i :: 0 <= i < |rows| ==> (i in idx <==> NameMatches(query, rows[i])))
      && (forall k, l :: 0 <= k < l < |idx| ==> idx[k] < idx[l])
      && (rows == [] ==> idx == [])
  {
    var idx := MatchingRows(rows, query);
    FilterIndicesIncreasing(rows, Matcher(query));
    forall i | 0 <= i < |rows| && NameMatches(query, rows[i]) ensures i in idx {
      FilterIndicesComplete(rows, Matcher(query), i);
    }
    forall i | 0 <= i < |rows| && i in idx ensures NameMatches(query, rows[i]) {
      var k :| 0 <= k < |idx| && idx[k] == i;
    }
  }

  /**
   * `search_cities_db`: every matching row as a `CityInDB`, in table order;
   * the first matching row with a null region makes the validation fail.
   */
  method SearchCitiesDb(cityName: string, rows: seq<CityRow>) returns (r: Result<seq<CityInDB>, LookupFailure>)
    ensures var idx := MatchingRows(rows, cityName);
      r.Success? <==> forall k :: 0 <= k < |idx| ==> rows[idx[k]].region.Some?
    ensures var idx := MatchingRows(rows, cityName);
      r.Success? ==> |r.value| == |idx| && forall k :: 0 <= k < |idx| ==> ToCityInDB(rows[idx[k]]) == Some(r.value[k])
    ensures r.Failure? ==> exists i :: 0 <= i < |rows| && NameMatches(cityName, rows[i]) && rows[i].region.None?
                                       && r.error == InvalidRecord(rows[i].id)
  {
    var result: seq<CityInDB> := [];
    ghost var idx: seq<nat> := [];
    var i := 0;
    while i < |rows|
      invariant 0 <= i <= |rows|
      invariant idx == FilterIndices(rows[..i], Matcher(cityName))
      invariant |result| == |idx| && forall k :: 0 <= k < |idx| ==> ToCityInDB(rows[idx[k]]) == Some(result[k])
    {
      FilterIndicesStep(rows, Matcher(cityName), i);
      if NameMatches(cityName, rows[i]) {
        var city := ToCityInDB(rows[i]);
        if city.None? {
          FilterIndicesComplete(rows, Matcher(cityName), i);
          ghost var all := MatchingRows(rows, cityName);
          ghost var k :| 0 <= k < |all| && all[k] == i;
          assert rows[all[k]].region.None?;
          return Failure(InvalidRecord(rows[i].id));
        }
        result := result + [city.value];
        idx := idx + [i];
      }
      i := i + 1;
    }
    assert rows[..i] == rows;
    r := Success(result);
  }

  // ---------------------------------------------------------------- get_city_data_by_id

  /** `get_city_data_by_id`: the row whose id is `cityId`; no such row makes `row.tuple()` fail. */
  function GetCityDataById(rows: seq<CityRow>, cityId: int): (r: Result<CityInDB, LookupFailure>)
    ensures r == Failure(NoSuchCity) <==> forall i :: 0 <= i < |rows| ==> rows[i].id != cityId
    ensures r.Success? ==> exists i :: 0 <= i < |rows| && rows[i].id == cityId && ToCityInDB(rows[i]) == Some(r.value)
    ensures r.Success? ==> r.value.id == cityId
    ensures r.Failure? && r.error.InvalidRecord? ==>
      r.error.id == cityId && exists i :: 0 <= i < |rows| && rows[i].id == cityId && rows[i].region.None?
  {
    if rows == [] then Failure(NoSuchCity)
    else if rows[0].id == cityId then
      match ToCityInDB(rows[0])
      case Some(city) => Success(city)
      case None => Failure(InvalidRecord(cityId))
    else
      var r := GetCityDataById(rows[1..], cityId);
      assert forall i :: 1 <= i < |rows| ==> rows[i] == rows[1..][i - 1];
      r
  }

  /** With unique ids, the lookup returns the one row that carries the id. */
  lemma {:induction false} GetCityDataByIdUnique(rows: seq<CityRow>, i: nat)
    requires DistinctIds(rows) && i < |rows| && rows[i].region.Some?
    ensures GetCityDataById(rows, rows[i].id) == Success(ToCityInDB(rows[i]).value)
  {
    if i > 0 {
      assert rows[0].id != rows[i].id;
      assert rows[1..][i - 1] == rows[i];
      GetCityDataByIdUnique(rows[1..], i - 1);
    }
  }

  // ---------------------------------------------------------------- process_weather_data

  /** A value of the location or weather group. */
  datatype LabelValue = TextValue(text: string) | RealValue(number: real) | IntValue(whole: int)

  /** A dictionary with its keys in insertion order. */
  type Labelled = seq<(string, LabelValue)>

  datatype WeatherView = WeatherView(locationData: Labelled, weatherData: Labelled)

  const LocationLabels: seq<string> :=
    ["location", "region", "country", "latitude", "longitude", "timezone", "local time"]
  const WeatherLabels: seq<string> :=
    ["temperature, °C", "feels like, °C", "weather condition", "last updated", "wind, kph", "humidity, %", "cloudiness, %"]

  function Labels(d: Labelled): (ls: seq<string>)
    ensures |ls| == |d|
  {
    seq(|d|, k requires 0 <= k < |d| => d[k].0)
  }

  /** `d[key]`: the value under the first entry with that key. */
  function Get(d: Labelled, key: string): Option<LabelValue>
  {
    if d == [] then None else if d[0].0 == key then Some(d[0].1) else Get(d[1..], key)
  }

  predicate Distinct(ls: seq<string>)
  {
    forall j, k :: 0 <= j < k < |ls| ==> ls[j] != ls[k]
  }

  predicate DistinctLabels(d: Labelled)
  {
    Distinct(Labels(d))
  }

  lemma LocationLabelsDistinct()
    ensures Distinct(LocationLabels)
  {
  }

  lemma WeatherLabelsDistinct()
    ensures Distinct(WeatherLabels)
  {
  }

  lemma {:induction false} GetDistinct(d: Labelled, k: nat)
    requires DistinctLabels(d) && k < |d|
    ensures Get(d, d[k].0) == Some(d[k].1)
  {
    if k > 0 {
      assert Labels(d[1..]) == Labels(d)[1..];
      assert d[0].0 == Labels(d)[0] && d[k].0 == Labels(d)[k];
      GetDistinct(d[1..], k - 1);
    }
  }

  /** `process_weather_data`: the payload's fields under fixed labels; an absent region is a KeyError. */
  function ProcessWeatherData(data: Payload): (r: Option<WeatherView>)
    ensures r.Some? <==> data.location.region.Some?
    ensures r.Some? ==> Labels(r.value.locationData) == LocationLabels && Labels(r.value.weatherData) == WeatherLabels
  {
    var loc := data.location;
    var cur := data.current;
    match loc.region
    case None => None
    case Some(region) =>
      Some(WeatherView(
        [ ("location", TextValue(loc.name)),
          ("region", TextValue(region)),
          ("country", TextValue(loc.country)),
          ("latitude", RealValue(loc.lat)),
          ("longitude", RealValue(loc.lon)),
          ("timezone", TextValue(loc.tzId)),
          ("local time", TextValue(loc.localtime)) ],
        [ ("temperature, °C", RealValue(cur.tempC)),
          ("feels like, °C", RealValue(cur.feelslikeC)),
          ("weather condition", TextValue(cur.condition.text)),
          ("last updated", TextValue(cur.lastUpdated)),
          ("wind, kph", RealValue(cur.windKph)),
          ("humidity, %", IntValue(cur.humidity)),
          ("cloudiness, %", IntValue(cur.cloud)) ]))
  }

  /** Reading the payload back from the two groups, by label. */
  function RecoverPayload(v: WeatherView): Option<Payload>
  {
    var l := v.locationData;
    var w := v.weatherData;
    match (Get(l, "location"), Get(l, "region"), Get(l, "country"), Get(l, "latitude"),
           Get(l, "longitude"), Get(l, "timezone"), Get(l, "local time"))
    case (Some(TextValue(name)), Some(TextValue(region)), Some(TextValue(country)), Some(RealValue(lat)),
          Some(RealValue(lon)), Some(TextValue(tz)), Some(TextValue(localtime))) =>
      (match (Get(w, "temperature, °C"), Get(w, "feels like, °C"), Get(w, "weather condition"),
              Get(w, "last updated"), Get(w, "wind, kph"), Get(w, "humidity, %"), Get(w, "cloudiness, %"))
       case (Some(RealValue(temp)), Some(RealValue(feels)), Some(TextValue(cond)), Some(TextValue(updated)),
             Some(RealValue(wind)), Some(IntValue(humidity)), Some(IntValue(cloud))) =>
         Some(Payload(Location(name, Some(region), country, lat, lon, tz, localtime),
                      Current(temp, feels, Condition(cond), updated, wind, humidity, cloud)))
       case _ => None)
    case _ => None
  }

  /** The relabelling is verbatim: every field of the payload can be read back under its label. */
  lemma ProcessWeatherDataLossless(data: Payload)
    requires data.location.region.Some?
    ensures RecoverPayload(ProcessWeatherData(data).value) == Some(data)
  {
    var v := ProcessWeatherData(data).value;
    LocationLabelsDistinct();
    WeatherLabelsDistinct();
    GetDistinct(v.locationData, 0);
    GetDistinct(v.locationData, 1);
    GetDistinct(v.locationData, 2);
    GetDistinct(v.locationData, 3);
    GetDistinct(v.locationData, 4);
    GetDistinct(v.locationData, 5);
    GetDistinct(v.locationData, 6);
    GetDistinct(v.weatherData, 0);
    GetDistinct(v.weatherData, 1);
    GetDistinct(v.weatherData, 2);
    GetDistinct(v.weatherData, 3);
    GetDistinct(v.weatherData, 4);
    GetDistinct(v.weatherData, 5);
    GetDistinct(v.weatherData, 6);
  }
}
