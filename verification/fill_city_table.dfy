/**
 * The script that adds to the `city` table every catalog city whose
 * coordinates the table does not have yet: each city's region is asked of
 * the weather provider, its country name is looked up, its name is
 * title-cased, and the row is inserted.
 */
module FillCityTable {
  import opened Wrappers
  import opened Text
  import opened Collections
  import opened CityTable
  import opened WeatherApi

  /** A catalog city: the fields of the library's city dictionary that the script reads or sets. */
  datatype GeoCity = GeoCity(
    geonameid: int,
    name: string,
    countrycode: string,
    country: Option<string>,
    latitude: real,
    longitude: real,
    population: int,
    timezone: string,
    alternatenames: seq<string>)

  /** The catalog: city dictionaries under their keys, in the library's order. */
  type Catalog = seq<(string, GeoCity)>

  /** A city dictionary, which `get_city_dict_with_country` updates in place. */
  class CityDict {
    var geonameid: int
    var name: string
    var countrycode: string
    var country: Option<string>
    var latitude: real
    var longitude: real
    var population: int
    var timezone: string
    var alternatenames: seq<string>

    /** The dictionary's current contents. */
    function Value(): GeoCity
      reads this
    {
      GeoCity(geonameid, name, countrycode, country, latitude, longitude, population, timezone, alternatenames)
    }

    constructor (c: GeoCity)
      ensures Value() == c
    {
      geonameid := c.geonameid;
      name := c.name;
      countrycode := c.countrycode;
      country := c.country;
      latitude := c.latitude;
      longitude := c.longitude;
      population := c.population;
      timezone := c.timezone;
      alternatenames := c.alternatenames;
    }
  }

  // ---------------------------------------------------------------- get_missing_cities

  function Coordinates(c: GeoCity): (real, real)
  {
    (c.latitude, c.longitude)
  }

  /** The (latitude, longitude) pairs of the table's rows. */
  function TableCoordinates(rows: seq<CityRow>): set<(real, real)>
  {
    set i | 0 <= i < |rows| :: (rows[i].latitude, rows[i].longitude)
  }

  /** The (latitude, longitude) pairs of the catalog's cities. */
  function CatalogCoordinates(catalog: Catalog): set<(real, real)>
  {
    set i | 0 <= i < |catalog| :: Coordinates(catalog[i].1)
  }

  function IsMissing(missingCoordinates: set<(real, real)>): ((string, GeoCity)) -> bool
  {
    (entry: (string, GeoCity)) => Coordinates(entry.1) in missingCoordinates
  }

  /** The catalog entries that `get_missing_cities` keeps, in catalog order. */
  function MissingCities(catalog: Catalog, rows: seq<CityRow>): Catalog
  {
    var idx := FilterIndices(catalog, IsMissing(CatalogCoordinates(catalog) - TableCoordinates(rows)));
    Pick(catalog, idx)
  }

  /**
   * `get_missing_cities`: the catalog's coordinates minus the table's, then
   * every catalog entry whose coordinates are left, in catalog order.
   */
  method GetMissingCities(catalog: Catalog, rows: seq<CityRow>) returns (missing: Catalog)
    ensures missing == MissingCities(catalog, rows)
  {
    var missingCoordinates := CatalogCoordinates(catalog) - TableCoordinates(rows);
    missing := [];
    var i := 0;
    while i < |catalog|
      invariant 0 <= i <= |catalog|
      invariant missing == Pick(catalog, FilterIndices(catalog[..i], IsMissing(missingCoordinates)))
    {
      FilterIndicesStep(catalog, IsMissing(missingCoordinates), i);
      var (key, city) := catalog[i];
      if Coordinates(city) in missingCoordinates {
        missing := missing + [(key, city)];
      }
      i := i + 1;
    }
    assert catalog[..i] == catalog;
  }

  /**
   * Exactly the catalog entries whose coordinates no table row has, each
   * once and in catalog order; their keys and dictionaries are the
   * catalog's own.
   */
  lemma MissingCitiesExact(catalog: Catalog, rows: seq<CityRow>)
    ensures var missing := MissingCities(catalog, rows);
      var idx := FilterIndices(catalog, IsMissing(CatalogCoordinates(catalog) - TableCoordinates(rows)));
      && (forall i :: 0 <= i < |catalog| ==>
            (i in idx <==> Coordinates(catalog[i].1) !in TableCoordinates(rows)))
      && (forall k, l :: 0 <= k < l < |idx| ==> idx[k] < idx[l])
      && |missing| == |idx|
      && (forall k :: 0 <= k < |missing| ==> missing[k] == catalog[idx[k]])
  {
    var p := IsMissing(CatalogCoordinates(catalog) - TableCoordinates(rows));
    var idx := FilterIndices(catalog, p);
    FilterIndicesIncreasing(catalog, p);
    forall i | 0 <= i < |catalog| && Coordinates(catalog[i].1) !in TableCoordinates(rows)
      ensures i in idx
    {
      assert Coordinates(catalog[i].1) in CatalogCoordinates(catalog);
      FilterIndicesComplete(catalog, p, i);
    }
  }

  // ---------------------------------------------------------------- get_city_dict_with_country

  /**
   * `get_city_dict_with_country`: the same dictionary, with `country` set
   * to the name of its country and `name` title-cased, nothing else
   * touched; an unknown country code makes `None['name']` raise before
   * the update.
   */
  method GetCityDictWithCountry(cityDict: CityDict, countries: map<string, string>) returns (r: Option<CityDict>)
    modifies cityDict
    ensures old(cityDict.countrycode) !in countries ==> r.None? && cityDict.Value() == old(cityDict.Value())
    ensures old(cityDict.countrycode) in countries ==>
      && r == Some(cityDict)
      && cityDict.Value() == old(cityDict.Value()).(country := Some(countries[old(cityDict.countrycode)]),
                                                   name := Title(old(cityDict.name)))
  {
    var countryCode := cityDict.countrycode;
    if countryCode !in countries {
      return None;
    }
    cityDict.country := Some(countries[countryCode]);
    cityDict.name := Title(cityDict.name);
    r := Some(cityDict);
  }

  // ---------------------------------------------------------------- get_region

  /** The specification of `get_region`: the region it settles on. */
  function RegionOf(provider: Provider, latitude: real, longitude: real, cityName: string, alternateNames: seq<string>)
    : Option<string>
  {
    var first := provider(ByCoordinates(latitude, longitude));
    if first.ErrorReply? then None
    else if first.payload.location.name in alternateNames then first.payload.location.region
    else
      var second := provider(ByText(cityName));
      if second.ErrorReply? then None else second.payload.location.region
  }

  /**
   * There is no region after an error on the request by coordinates, and a
   * region found is the one a reply from the provider carries.
   */
  lemma RegionFromReply(provider: Provider, latitude: real, longitude: real, cityName: string, alternateNames: seq<string>)
    ensures var r := RegionOf(provider, latitude, longitude, cityName, alternateNames);
      var first := provider(ByCoordinates(latitude, longitude));
      var second := provider(ByText(cityName));
      && (first.ErrorReply? ==> r.None?)
      && (r.Some? ==> (first.Reply? && first.payload.location.region == r) ||
                      (second.Reply? && second.payload.location.region == r))
  {
  }

  /** The requests `get_region` makes. */
  function RegionRequests(provider: Provider, latitude: real, longitude: real, cityName: string, alternateNames: seq<string>)
    : seq<Query>
  {
    var first := provider(ByCoordinates(latitude, longitude));
    if first.Reply? && first.payload.location.name !in alternateNames
    then [ByCoordinates(latitude, longitude), ByText(cityName)]
    else [ByCoordinates(latitude, longitude)]
  }

  /**
   * The cases of `get_region`: an error on the request by coordinates gives
   * no region and no second request; a place named like one of the city's
   * alternate names gives that place's region; any other place leads to a
   * second request by the city's name, whose reply decides.
   */
  lemma RegionCases(provider: Provider, latitude: real, longitude: real, cityName: string, alternateNames: seq<string>)
    ensures var first := provider(ByCoordinates(latitude, longitude));
      var region := RegionOf(provider, latitude, longitude, cityName, alternateNames);
      var requests := RegionRequests(provider, latitude, longitude, cityName, alternateNames);
      && requests[0] == ByCoordinates(latitude, longitude)
      && (first.ErrorReply? ==> region.None? && |requests| == 1)
      && (first.Reply? && first.payload.location.name in alternateNames ==>
            region == first.payload.location.region && |requests| == 1)
      && (first.Reply? && first.payload.location.name !in alternateNames ==>
            (|requests| == 2 && requests[1] == ByText(cityName) &&
             region == if provider(ByText(cityName)).ErrorReply? then None
                       else provider(ByText(cityName)).payload.location.region))
  {
  }

  /**
   * `get_region`: asked by coordinates first; an error gives no region; a
   * place named like one of the city's alternate names gives its region;
   * otherwise one more request by the city's name decides, an error again
   * giving no region.
   */
  method GetRegion(provider: Provider, latitude: real, longitude: real, cityName: string, alternateNames: seq<string>)
    returns (region: Option<string>, requests: seq<Query>)
    ensures region == RegionOf(provider, latitude, longitude, cityName, alternateNames)
    ensures requests == RegionRequests(provider, latitude, longitude, cityName, alternateNames)
  {
    var query := ByCoordinates(latitude, longitude);
    var data := provider(query);
    requests := [query];
    if data.ErrorReply? {
      return None, requests;
    }
    if data.payload.location.name !in alternateNames {
      query := ByText(cityName);
      data := provider(query);
      requests := requests + [query];
      if data.ErrorReply? {
        return None, requests;
      }
    }
    region := data.payload.location.region;
  }

  // ---------------------------------------------------------------- main

  datatype FillOutcome =
    | Completed        // every missing city was inserted
    | UnknownCountry   // the next city's country code is not in the country table
    | InsertRejected   // the table refused the next city's row

  /** The values `insert_city` writes for a dictionary and a region. */
  function RowValues(d: GeoCity, region: Option<string>): NewCity
    requires d.country.Some?
  {
    NewCity(d.name, region, d.country.value, d.latitude, d.longitude, d.population, d.timezone, d.alternatenames)
  }

  /** `insert_city`: one INSERT of the dictionary's fields and the region, the id left to the sequence. */
  method InsertCity(table: Table, cityDict: CityDict, region: Option<string>) returns (ok: bool)
    requires table.Valid() && cityDict.country.Some?
    modifies table
    ensures table.Valid() && table.nextId == old(table.nextId) + 1
    ensures var row := WithId(RowValues(cityDict.Value(), region), old(table.nextId));
      && ok == AcceptsRow(old(table.rows), row)
      && table.rows == if ok then old(table.rows) + [row] else old(table.rows)
  {
    var id;
    ok, id := table.Insert(RowValues(cityDict.Value(), region));
  }

  /**
   * The row the script inserts for a city: the region asked for under the
   * city's original name, then the name title-cased and the country named.
   */
  function NewRow(c: GeoCity, countries: map<string, string>, provider: Provider): NewCity
    requires c.countrycode in countries
  {
    RowValues(c.(name := Title(c.name), country := Some(countries[c.countrycode])),
              RegionOf(provider, c.latitude, c.longitude, c.name, c.alternatenames))
  }

  predicate AllKnown(cities: seq<GeoCity>, countries: map<string, string>)
  {
    forall k :: 0 <= k < |cities| ==> cities[k].countrycode in countries
  }

  /** The rows inserted for `cities`, numbered from `firstId` by the table's sequence. */
  function InsertedRows(cities: seq<GeoCity>, countries: map<string, string>, provider: Provider, firstId: int)
    : (rows: seq<CityRow>)
    requires AllKnown(cities, countries)
    ensures |rows| == |cities|
  {
    seq(|cities|, k requires 0 <= k < |cities| => WithId(NewRow(cities[k], countries, provider), firstId + k))
  }

  lemma KnownStep(cities: seq<GeoCity>, n: nat, countries: map<string, string>)
    requires n < |cities| && AllKnown(cities[..n], countries) && cities[n].countrycode in countries
    ensures AllKnown(cities[..n + 1], countries)
  {
    var next := cities[..n + 1];
    forall k | 0 <= k < n + 1 ensures next[k].countrycode in countries {
      if k < n { assert next[k] == cities[..n][k]; }
    }
  }

  lemma InsertedRowsStep(cities: seq<GeoCity>, n: nat, countries: map<string, string>, provider: Provider, firstId: int)
    requires n < |cities| && AllKnown(cities[..n + 1], countries)
    ensures AllKnown(cities[..n], countries)
    ensures InsertedRows(cities[..n + 1], countries, provider, firstId)
         == InsertedRows(cities[..n], countries, provider, firstId)
            + [WithId(NewRow(cities[n], countries, provider), firstId + n)]
  {
    var next := cities[..n + 1];
    assert next[..n] == cities[..n];
    assert next[n] == cities[n];
  }

  /** One more city inserted: the known prefix and the inserted rows grow by that city. */
  lemma RowsStep(initialRows: seq<CityRow>, rowsBefore: seq<CityRow>, rowsAfter: seq<CityRow>,
                 cities: seq<GeoCity>, n: nat, countries: map<string, string>, provider: Provider, firstId: int)
    requires n < |cities| && AllKnown(cities[..n], countries) && cities[n].countrycode in countries
    requires rowsBefore == initialRows + InsertedRows(cities[..n], countries, provider, firstId)
    requires rowsAfter == rowsBefore + [WithId(NewRow(cities[n], countries, provider), firstId + n)]
    ensures AllKnown(cities[..n + 1], countries)
    ensures rowsAfter == initialRows + InsertedRows(cities[..n + 1], countries, provider, firstId)
  {
    KnownStep(cities, n, countries);
    InsertedRowsStep(cities, n, countries, provider, firstId);
  }

  /** The requests made for `cities`, city after city. */
  function AllRegionRequests(cities: seq<GeoCity>, provider: Provider): seq<Query>
  {
    if cities == [] then []
    else
      var c := cities[|cities| - 1];
      AllRegionRequests(cities[..|cities| - 1], provider)
        + RegionRequests(provider, c.latitude, c.longitude, c.name, c.alternatenames)
  }

  lemma RequestsStep(cities: seq<GeoCity>, n: nat, provider: Provider)
    requires n < |cities|
    ensures AllRegionRequests(cities[..n + 1], provider)
         == AllRegionRequests(cities[..n], provider)
            + RegionRequests(provider, cities[n].latitude, cities[n].longitude, cities[n].name, cities[n].alternatenames)
  {
    var next := cities[..n + 1];
    assert next[..n] == cities[..n];
  }

  function Cities(entries: Catalog): (cities: seq<GeoCity>)
    ensures |cities| == |entries| && forall k :: 0 <= k < |entries| ==> cities[k] == entries[k].1
  {
    seq(|entries|, k requires 0 <= k < |entries| => entries[k].1)
  }

  /**
   * One turn of `main`'s loop: the region, asked under the city's original
   * name; then a fresh dictionary updated with its country; then the
   * INSERT. `Completed` here means the city's row was inserted.
   */
  method FillCity(table: Table, city: GeoCity, countries: map<string, string>, provider: Provider)
    returns (outcome: FillOutcome, requests: seq<Query>)
    requires table.Valid()
    modifies table
    ensures table.Valid()
    ensures requests == RegionRequests(provider, city.latitude, city.longitude, city.name, city.alternatenames)
    ensures city.countrycode !in countries ==>
      outcome == UnknownCountry && table.rows == old(table.rows) && table.nextId == old(table.nextId)
    ensures city.countrycode in countries ==>
      var row := WithId(NewRow(city, countries, provider), old(table.nextId));
      && outcome != UnknownCountry
      && table.nextId == old(table.nextId) + 1
      && (outcome == Completed <==> AcceptsRow(old(table.rows), row))
      && table.rows == if outcome == Completed then old(table.rows) + [row] else old(table.rows)
  {
    var region;
    region, requests := GetRegion(provider, city.latitude, city.longitude, city.name, city.alternatenames);
    var cityDict := new CityDict(city);
    var withCountry := GetCityDictWithCountry(cityDict, countries);
    if withCountry.None? {
      return UnknownCountry, requests;
    }
    ghost var row := RowValues(cityDict.Value(), region);
    assert row == NewRow(city, countries, provider);
    var ok := InsertCity(table, withCountry.value, region);
    assert RowValues(cityDict.Value(), region) == row;
    outcome := if ok then Completed else InsertRejected;
  }

  /**
   * What filling the table with `cities` leaves behind: the first
   * `processed` cities inserted in order, numbered by the sequence, and the
   * requests of every city attempted. `Completed` when all were inserted;
   * otherwise the next city's unknown country or refused row stopped it,
   * after its region was asked.
   */
  predicate FillResult(cities: seq<GeoCity>, countries: map<string, string>, provider: Provider,
                       oldRows: seq<CityRow>, firstId: int,
                       outcome: FillOutcome, processed: nat, requests: seq<Query>,
                       rows: seq<CityRow>, nextId: int)
  {
    && processed <= |cities|
    && AllKnown(cities[..processed], countries)
    && rows == oldRows + InsertedRows(cities[..processed], countries, provider, firstId)
    && (outcome == Completed <==> processed == |cities|)
    && (outcome == Completed ==>
          nextId == firstId + processed && requests == AllRegionRequests(cities, provider))
    && (outcome == UnknownCountry ==>
          (processed < |cities| && cities[processed].countrycode !in countries
           && nextId == firstId + processed
           && requests == AllRegionRequests(cities[..processed + 1], provider)))
    && (outcome == InsertRejected ==>
          (processed < |cities| && cities[processed].countrycode in countries
           && nextId == firstId + processed + 1
           && !AcceptsRow(rows, WithId(NewRow(cities[processed], countries, provider), firstId + processed))
           && requests == AllRegionRequests(cities[..processed + 1], provider)))
  }

  /** A city that stops the loop leaves the rows inserted before it and its own requests. */
  lemma Stopped(cities: seq<GeoCity>, countries: map<string, string>, provider: Provider,
                oldRows: seq<CityRow>, firstId: int,
                outcome: FillOutcome, processed: nat, requests: seq<Query>,
                rows: seq<CityRow>, nextId: int)
    requires processed < |cities| && outcome != Completed
    requires AllKnown(cities[..processed], countries)
    requires rows == oldRows + InsertedRows(cities[..processed], countries, provider, firstId)
    requires requests == AllRegionRequests(cities[..processed + 1], provider)
    requires outcome == UnknownCountry ==> cities[processed].countrycode !in countries && nextId == firstId + processed
    requires outcome == InsertRejected ==>
      (cities[processed].countrycode in countries && nextId == firstId + processed + 1
       && !AcceptsRow(rows, WithId(NewRow(cities[processed], countries, provider), firstId + processed)))
    ensures FillResult(cities, countries, provider, oldRows, firstId, outcome, processed, requests, rows, nextId)
  {
  }

  /** The loop of `main`: each city in turn, until one fails. */
  method FillCities(table: Table, cities: seq<GeoCity>, countries: map<string, string>, provider: Provider)
    returns (outcome: FillOutcome, processed: nat, requests: seq<Query>)
    requires table.Valid()
    modifies table
    ensures table.Valid()
    ensures FillResult(cities, countries, provider, old(table.rows), old(table.nextId),
                       outcome, processed, requests, table.rows, table.nextId)
  {
    ghost var firstId := table.nextId;
    ghost var initialRows := table.rows;
    requests := [];
    processed := 0;
    while processed < |cities|
      invariant 0 <= processed <= |cities|
      invariant table.Valid()
      invariant AllKnown(cities[..processed], countries)
      invariant table.rows == initialRows + InsertedRows(cities[..processed], countries, provider, firstId)
      invariant table.nextId == firstId + processed
      invariant requests == AllRegionRequests(cities[..processed], provider)
    {
      ghost var rowsBefore := table.rows;
      var city := cities[processed];
      var step, asked := FillCity(table, city, countries, provider);
      RequestsStep(cities, processed, provider);
      requests := requests + asked;
      if step != Completed {
        Stopped(cities, countries, provider, initialRows, firstId, step, processed, requests, table.rows, table.nextId);
        return step, processed, requests;
      }
      assert city.countrycode in countries;
      RowsStep(initialRows, rowsBefore, table.rows, cities, processed, countries, provider, firstId);
      processed := processed + 1;
    }
    assert cities[..processed] == cities;
    outcome := Completed;
  }

  /**
   * `main`: every missing city in turn, exactly once, in catalog order. The
   * first city whose country is unknown, or whose row the table refuses,
   * stops the script; the rows inserted before it stay.
   */
  method FillMissingCities(table: Table, catalog: Catalog, countries: map<string, string>, provider: Provider)
    returns (outcome: FillOutcome, processed: nat, requests: seq<Query>)
    requires table.Valid()
    modifies table
    ensures table.Valid()
    ensures FillResult(Cities(MissingCities(catalog, old(table.rows))), countries, provider, old(table.rows), old(table.nextId),
                       outcome, processed, requests, table.rows, table.nextId)
  {
    var missing := GetMissingCities(catalog, table.rows);
    outcome, processed, requests := FillCities(table, Cities(missing), countries, provider);
  }
}
