# weather-buddy, the decision and data-import rules in Dafny

This project models the deterministic core of the weather-buddy service.
The surrounding parts (the HTTP client, the SQL and document databases,
the city catalogue library and the web framework) become parameters:
functions, sequences, maps and one class for the table.

**Weather service**
- `GET /weather/info` checks the coordinate range first. It then asks the
  weather provider by coordinates and passes the provider's error message
  through.
  - A coordinate search demands a place strictly within one degree on
    both axes.
  - A named search asks once more, by name, when the place's name differs.
    That second reply replaces the first unchecked.
  - The result is the payload relabelled into a location group and a
    weather group.
- `GET /weather/city_names` assembles the suggestion list from the
  catalogue's matches.
- The route class turns request-validation errors into one 400 message.
- The city lookups run over the `city` table.
- The clothing-document records, the precipitation tag and the
  document-id validator are modelled as data.

**Rate limiter**
- The callback lets flagged requests pass and refuses every other one
  with 429.
- It reports the wait in whole seconds, rounded up.

**City data import**
- The GeoNames `cities1000` line parser.
- The migration that loads the `city` table from a CSV export, and the
  migration that empties it.
- The script that adds the catalogue cities missing from the table. It
  asks the provider for each city's region, names its country, title-cases
  its name and inserts it.

Modules, one file each:
- `Wrappers`: `Option`, `Result`.
- `Text`: the ASCII string operations the source uses.
- `Collections`: positional filtering.
- `Http`: HTTP errors.
- `WeatherApi`: the provider's query and reply shapes.
- `Schemas`.
- `CityTable`: the table as a class with its constraints and its id
  sequence.
- `WeatherUtils`, `WeatherRouter`, `RateLimiter`, `GeoNamesParser`,
  `CityMigration` and `FillCityTable`.

Where the code loops or updates state, the model is a method. Each such
method's ensures gives its result and its new state from its inputs.
Where a specification function exists, the method is proved equal to it,
and the properties are proved about that function. The provider is a function from query to
reply. Every handler that calls it also returns the list of queries it
made, so the number and order of requests can be stated.

## Model

| member | source | states |
|---|---|---|
| Schemas.ParseClothingItem | src/weather_service/schemas.py:36-37 | a clothing item validates exactly when `clothingItems` is present and is a list of strings |
| Schemas.ParseClothingLayers | src/weather_service/schemas.py:40-44 | the layers validate exactly when `BaseLayer`, `MidLayer`, `OuterLayerShell` and `Accessories` are each present and validate as a clothing item, and each layer is its section's validation |
| Schemas.ParsePrecipitationClothing | src/weather_service/schemas.py:47-50 | validates exactly when `UpperBody` and `LowerBody` are present and validate as layers and `Footwear` as a clothing item, and each field is its section's validation |
| Schemas.ParseTemperatureRange | src/weather_service/schemas.py:59-61 | validates exactly when `min` and `max` are both present as integers, and the range's bounds are those integers |
| Schemas.ParsePrecipitation | src/weather_service/schemas.py:53-56 | validates exactly when the `None` section is present and valid and `Rain` and `Snow` are each absent, null or valid; `rain` and `snow` are then their sections' validation, empty when the section is absent or null |
| Schemas.NoneSectionAlone | src/weather_service/schemas.py:53-56 | a document holding only a valid `None` section validates, with neither rain nor snow |
| Schemas.PrecipitationNeedsNone | src/weather_service/schemas.py:53-54 | every validated precipitation object has a `None` section, and the validated `none` field is that section's validation |
| Schemas.ClothingItemRoundTrip | src/weather_service/schemas.py:36-37 | a stored clothing item validates back to itself |
| Schemas.ClothingLayersRoundTrip | src/weather_service/schemas.py:40-44 | the four layers are stored and validated back unchanged |
| Schemas.PrecipitationClothingRoundTrip | src/weather_service/schemas.py:47-50 | upper body, lower body and footwear are stored and validated back unchanged |
| Schemas.OptionalSectionRoundTrip | src/weather_service/schemas.py:55-56 | an optional section written as a section or as null validates back to what was written |
| Schemas.PrecipitationRoundTrip | src/weather_service/schemas.py:53-56 | a stored precipitation object with or without `Rain`/`Snow` validates back to itself |
| Schemas.TemperatureRangeRoundTrip | src/weather_service/schemas.py:59-61 | the integer pair `min`, `max` is stored and validated back unchanged |
| Schemas.FromTag | src/weather_service/schemas.py:114-117 | exactly "None", "Rain" and "Snow" name a member, and the member found carries that tag |
| Schemas.TagRoundTrip | src/weather_service/schemas.py:114-117 | member to tag to member is the identity, and distinct members have distinct tags |
| Schemas.HexValue | src/weather_service/schemas.py:27 | a hexadecimal digit's value is below 16 |
| Schemas.Validate | src/weather_service/schemas.py:26-29 | fails with "Invalid objectid" exactly when the input is not a valid id; otherwise a 12-byte id, the given id itself for an id input, the given bytes for a bytes input |
| Schemas.ObjectIdText | src/weather_service/schemas.py:72 | the text of an id has 24 characters |
| Schemas.ObjectIdTextRoundTrip | src/weather_service/schemas.py:26-29 | validating the text of an id gives the same id back |
| Schemas.ValidTextReadsBack | src/weather_service/schemas.py:26-29 | text that `ObjectId.is_valid` accepts denotes the id whose text is the input in lower case: only the digits' case is lost |
| Text.TitleAt | src/weather_service/utils.py:24 | `str.title()` keeps the length and raises a letter exactly when the character before it is not a letter, and lowers every other letter |
| Text.TitleIdempotent | scripts/fill_city_table.py:28 | title-casing a title-cased name changes nothing |
| Text.Title | src/weather_service/utils.py:24 | `str.title()` keeps the length of the text |
| Text.Capitalize | src/weather_service/router.py:27 | `str.capitalize()` keeps the length, leaves no lower-case first letter and no upper-case letter after the first character; `CapitalizeShape` adds that every character is the input's own up to case, which with the shape fixes the result |
| Text.CapitalizeShape | src/weather_service/router.py:27 | `str.capitalize()` keeps every character of the input up to its case, keeps the length, leaves no upper-case letter after the first character and no lower-case first letter, and is idempotent |
| Text.CapitalizeLowerTail | src/weather_service/router.py:27 | capitalising a text with a lower-case tail only raises its first character |
| Text.TrimStart | cities_text_to_json.py:9 | drops exactly the leading white space |
| Text.TrimEnd | cities_text_to_json.py:9 | drops exactly the trailing white space |
| Text.Strip | cities_text_to_json.py:9 | the stripped text is no longer than the input and has no white space at either end |
| Text.StripUnchanged | alembic/versions/2023-07-16_a7fe9796fe5b_add_data_to_city_table_from_csv.py:44 | text with no white space at its ends is its own stripped form |
| Text.StripEmpty | cities_text_to_json.py:9-10 | a line strips to nothing exactly when it is all white space |
| Text.Split | cities_text_to_json.py:11-12 | `split` on one character gives one piece more than there are separators, and no piece contains the separator |
| Text.SplitJoin | cities_text_to_json.py:24 | joining the pieces of a split with the separator gives the text back |
| Text.JoinSplit | alembic/versions/2023-07-16_a7fe9796fe5b_add_data_to_city_table_from_csv.py:44 | splitting a join of pieces that lack the separator gives the pieces back |
| Text.ReplaceAbsent | src/weather_service/router.py:27 | `replace` leaves a text without the pattern unchanged |
| Text.ReplaceSelf | src/weather_service/router.py:27 | replacing a pattern by itself changes nothing |
| Text.Replace | src/weather_service/router.py:27 | replacing a pattern by text of the same length keeps the length |
| Text.ReplaceAfter | src/weather_service/router.py:27 | for the first occurrence (none starts inside the text `a` before it): `a` is kept, the occurrence becomes the replacement and the rest is replaced in turn; applied occurrence by occurrence and with `ReplaceAbsent` for the rest, this fixes every occurrence |
| Text.OccursSomewhere | src/weather_service/router.py:27 | the scan for the pattern finds it exactly when an occurrence starts at some position of the text |
| Text.ParseDigits | cities_text_to_json.py:15 | `int()` reads a run of decimal digits as its decimal value |
| Text.SeparatorNotSkipped | cities_text_to_json.py:15 | `int()` does not skip the separator characters 0x1c to 0x1f that `strip()` removes: `int("\x1c5")` raises |
| Text.IntToString | src/rate_limiter/callback.py:28 | `str()` of a non-negative integer is decimal digits only; of a negative one, a minus sign followed by decimal digits |
| Text.IntToStringRoundTrip | src/rate_limiter/callback.py:28 | `int(str(n)) == n` for every integer |
| Text.EscapePrintable | cities_text_to_json.py:18 | the `unicode_escape` output is printable ASCII only |
| Text.EscapeIdentity | cities_text_to_json.py:18 | printable ASCII without a backslash passes the escape unchanged |
| Text.EscapeChar | cities_text_to_json.py:18 | a character is escaped to at least one character, and a printable ASCII character other than the backslash stands for itself |
| Text.Escape | cities_text_to_json.py:18 | the escaped text is never shorter than the input |
| Text.Join | src/weather_service/router.py:28 | joining no pieces gives the empty text; joining some starts with the first piece |
| CityTable.AcceptsOne | scripts/fill_city_table.py:54-66 | over a table with distinct ids, a single row is accepted exactly when a batch of that one row is |
| CityTable.AcceptedKeepsInvariant | alembic/versions/2023-07-16_a7fe9796fe5b_add_data_to_city_table_from_csv.py:48 | an accepted batch keeps the check constraints and the primary key |
| CityTable.Table.constructor | scripts/fill_city_table.py:70-73 | a table over rows that meet its constraints, with its id sequence at a given value |
| CityTable.Table.BulkInsert | alembic/versions/2023-07-16_a7fe9796fe5b_add_data_to_city_table_from_csv.py:48 | all or nothing: the rows are appended exactly when the batch is accepted; the sequence is not used |
| CityTable.Table.Insert | scripts/fill_city_table.py:54-66 | takes the next id from the sequence in every case; the row is appended exactly when it meets the constraints and its id is free |
| CityTable.Table.DeleteAll | alembic/versions/2023-07-16_a7fe9796fe5b_add_data_to_city_table_from_csv.py:53-54 | every row is deleted and the sequence is kept |
| WeatherUtils.MatchingRowsExact | src/weather_service/utils.py:22-26 | a row is selected exactly when the query equals its title-cased name or a title-cased alternate name; each row once, in table order; an empty table selects none |
| WeatherUtils.SearchCitiesDb | src/weather_service/utils.py:12-26 | succeeds exactly when every matching row has a region, and then gives one city per matching row, in order; otherwise fails on a matching row with no region |
| WeatherUtils.GetCityDataById | src/weather_service/utils.py:29-38 | fails with "no such city" exactly when no row has the id; on success, a row with that id converted; a row with no region fails |
| WeatherUtils.GetCityDataByIdUnique | src/weather_service/utils.py:29-38 | with unique ids, the lookup of a row's id returns that row |
| WeatherUtils.ProcessWeatherData | src/weather_service/utils.py:41-60 | a result exactly when the payload has a region, under the seven location labels and the seven weather labels, in order |
| WeatherUtils.ProcessWeatherDataLossless | src/weather_service/utils.py:41-60 | all 14 fields can be read back unchanged under their labels: the relabelling is verbatim |
| WeatherUtils.ToCityInDB | src/weather_service/utils.py:25 | `CityInDB(**row)` succeeds exactly when the row has a region, and the record gives the row back column for column |
| WeatherRouter.ErrorMessages | src/weather_service/router.py:26-27 | one message per validation error |
| WeatherRouter.ErrorMessage | src/weather_service/router.py:27 | a message without "value" is only capitalised, and no letter after the first is upper-case |
| WeatherRouter.InnerValueMessage | src/weather_service/router.py:27 | in a message `a + "value" + b` whose first "value" is the one after `a` (as in "invalid value"), the text before is kept, the field name replaces that occurrence and every later occurrence in `b` is replaced too, then the whole is capitalised |
| WeatherRouter.ValidationFailureResponse | src/weather_service/router.py:24-29 | 400 with the messages joined by ". " in error order; an error whose location has no field name gives 500 |
| WeatherRouter.ValueMessage | src/weather_service/router.py:27 | a message that starts with "value" and contains it nowhere else becomes the field name plus the rest, capitalised |
| WeatherRouter.LowerCaseValueMessage | src/weather_service/router.py:27 | for a lower-case field and message, only the field's first letter is raised |
| WeatherRouter.NotAFloatMessage | src/weather_service/router.py:27 | the "not a valid float" message names the field with its first letter raised |
| WeatherRouter.LatitudeNotAFloat | tests/weather_service/test_weather_router.py:44 | the error on `latitude` reads "Latitude is not a valid float" |
| WeatherRouter.LongitudeNotAFloat | tests/weather_service/test_weather_router.py:45 | the error on `longitude` reads "Longitude is not a valid float" |
| WeatherRouter.NotAFloatDetail | src/weather_service/router.py:28 | two malformed fields give one detail: both messages, in order, joined by ". " |
| WeatherRouter.CoordinatesNotAFloatDetail | tests/weather_service/test_weather_router.py:43 | both coordinates malformed give "Latitude is not a valid float. Longitude is not a valid float" |
| WeatherRouter.FindCityNameMatches | src/weather_service/router.py:49-59 | "Invalid city!" exactly when the title-cased search finds nothing; an unknown country code fails; otherwise one entry per match, in order, with that match's name, country name and coordinates |
| WeatherRouter.GetCityWeather | src/weather_service/router.py:73-123 | out-of-range coordinates (inclusive bounds) fail with no request; the first request is by coordinates and its error is passed through; a coordinate search needs the strict ±1° match; a named search asks once more by name exactly when the names differ, and that reply is used unchecked |
| WeatherRouter.OutOfRangeRequest | tests/weather_service/test_weather_router.py:46 | (-100, 200) gives 400 "Invalid coordinates!" and makes no request |
| WeatherRouter.NoMatchingLocationRequest | tests/weather_service/test_weather_router.py:47 | a provider error "No matching location found." is the detail of the 400 |
| WeatherRouter.OneDegreeOffRequest | src/weather_service/router.py:85-90 | a coordinate search answered by a place exactly one degree away fails with "No information found for given coordinates" |
| WeatherRouter.Present | src/weather_service/router.py:96-114 | relabelling the reply used unchecked succeeds exactly for a reply whose place has a region; every failure is the internal error of a missing key |
| WeatherRouter.PresentLossless | src/weather_service/router.py:96-114 | what is presented is the whole payload: every field reads back unchanged |
| RateLimiter.RetrySeconds | src/rate_limiter/callback.py:23 | the least whole number of seconds covering the wait: `(s-1)*1000 < pexpire <= s*1000` |
| RateLimiter.WholeSeconds | src/rate_limiter/callback.py:23 | a multiple of 1000 ms gives exactly that many seconds |
| RateLimiter.RetrySecondsLeast | src/rate_limiter/callback.py:23 | no smaller number of seconds covers the wait |
| RateLimiter.Callback | src/rate_limiter/callback.py:19-29 | passes exactly when the header equals the configured flag; otherwise 429, with the detail "Too many requests. Please try again after {s} seconds." and a `Retry-After` header that is exactly `str(s)`, the only header, which `int()` reads back as `s` |
| GeoNamesParser.IntegerRoundTrip | cities_text_to_json.py:15 | `int()` on the `geonameid` field reads back the text `str` writes for any integer |
| GeoNamesParser.OptionalInteger | cities_text_to_json.py:29-30 | empty text gives `None`; otherwise it succeeds exactly when the text is an integer, with its value |
| GeoNamesParser.EscapeAll | cities_text_to_json.py:18 | every escaped alternate name is printable ASCII, and a name already in printable ASCII without a backslash comes through unchanged |
| GeoNamesParser.ConvertNumbers | cities_text_to_json.py:15-30 | the numeric conversions succeed exactly when each numeric field converts; the values are `int()` of `geonameid`, `float()` of the coordinates, and `None` for an empty population or elevation, otherwise its `int()` |
| GeoNamesParser.ParseLine | cities_text_to_json.py:9-34 | a line whose stripped form does not split into 19 fields fails; a 19-field line converts exactly when its numeric fields do, and the record is then its fields field by field |
| GeoNamesParser.ListFieldsKept | cities_text_to_json.py:18-24 | one alternate name per comma plus one; `cc2` joins back into its field; plain alternate names join back into theirs |
| GeoNamesParser.ConvertAll | cities_text_to_json.py:7-36 | a successful conversion has at most one record per line; a failure carries the error of one of the lines |
| GeoNamesParser.ConvertAllValues | cities_text_to_json.py:7-36 | a successful conversion holds one record per non-blank line, in input order |
| GeoNamesParser.ConvertAllFailure | cities_text_to_json.py:7-36 | a failed conversion reports the first non-blank line that does not convert |
| GeoNamesParser.ConvertAllSuccess | cities_text_to_json.py:7-36 | the conversion succeeds exactly when every non-blank line converts |
| GeoNamesParser.ConvertLines | cities_text_to_json.py:8-36 | the loop computes the conversion: blank lines skipped, stopped at the first failure |
| GeoNamesParser.ParseLines | cities_text_to_json.py:7-36 | succeeds exactly when every non-blank line parses; then one record per non-blank line, in order; otherwise the error of the first non-blank line that does not parse |
| CityMigration.Inner | alembic/versions/2023-07-16_a7fe9796fe5b_add_data_to_city_table_from_csv.py:44 | `s[1:-1]`: the text between the first and last characters, empty for shorter text |
| CityMigration.AlternateNames | alembic/versions/2023-07-16_a7fe9796fe5b_add_data_to_city_table_from_csv.py:44 | one stripped item per comma in the inner text plus one |
| CityMigration.AlternateNamesRoundTrip | alembic/versions/2023-07-16_a7fe9796fe5b_add_data_to_city_table_from_csv.py:44 | plain names written as `{a,b,...}` are read back unchanged |
| CityMigration.ProcessRow | alembic/versions/2023-07-16_a7fe9796fe5b_add_data_to_city_table_from_csv.py:35-45 | succeeds exactly when `id`, `latitude`, `longitude` and `population` convert; the numbers are their conversions and the text cells are copied |
| CityMigration.ExportImport | alembic/versions/2023-07-16_a7fe9796fe5b_add_data_to_city_table_from_csv.py:35-45 | importing the row a hypothetical exact export writes gives the table row back |
| CityMigration.ProcessRows | alembic/versions/2023-07-16_a7fe9796fe5b_add_data_to_city_table_from_csv.py:34-46 | succeeds exactly when every row converts, with one processed row per CSV row in order; otherwise the error of the first row that fails |
| CityMigration.FailureStays | alembic/versions/2023-07-16_a7fe9796fe5b_add_data_to_city_table_from_csv.py:34-46 | once a prefix fails, the whole batch fails with the same error |
| CityMigration.ProcessAll | alembic/versions/2023-07-16_a7fe9796fe5b_add_data_to_city_table_from_csv.py:33-46 | the loop computes the row processing |
| CityMigration.Upgrade | alembic/versions/2023-07-16_a7fe9796fe5b_add_data_to_city_table_from_csv.py:23-48 | a bad cell leaves the table as it was; otherwise the table is its old rows followed by the processed rows when the batch is accepted, and unchanged when rejected |
| CityMigration.Downgrade | alembic/versions/2023-07-16_a7fe9796fe5b_add_data_to_city_table_from_csv.py:52-54 | the table is empty afterwards |
| FillCityTable.CityDict.constructor | scripts/fill_city_table.py:89-90 | a dictionary holding a catalogue city's values |
| FillCityTable.GetMissingCities | scripts/fill_city_table.py:69-84 | the loop computes the catalogue entries whose coordinates remain after the set difference |
| FillCityTable.MissingCitiesExact | scripts/fill_city_table.py:77-83 | an entry is kept exactly when no table row has its coordinates; kept entries are the catalogue's own key and dictionary, each once, in catalogue order |
| FillCityTable.GetCityDictWithCountry | scripts/fill_city_table.py:25-29 | the same dictionary, updated in place: `country` becomes the country name, `name` is title-cased, nothing else changes; an unknown code raises before any update |
| FillCityTable.RegionCases | scripts/fill_city_table.py:38-49 | an error on the first request gives no region; a place named like an alternate name gives its region with one request; otherwise a second request by name decides, an error giving no region |
| FillCityTable.RegionFromReply | scripts/fill_city_table.py:32-49 | no region after an error on the request by coordinates; a region found is the one a reply carries |
| FillCityTable.GetRegion | scripts/fill_city_table.py:32-49 | the region and the requests are those of the cases above |
| FillCityTable.InsertCity | scripts/fill_city_table.py:52-66 | one insert of the dictionary's fields and the region under the next sequence id; appended exactly when the table accepts it |
| FillCityTable.InsertedRows | scripts/fill_city_table.py:90-98 | one row per city inserted |
| FillCityTable.FillCity | scripts/fill_city_table.py:91-98 | the region is asked under the original name; an unknown country stops before the insert; otherwise the title-cased, country-named row is inserted under the next id exactly when the table accepts it |
| FillCityTable.FillCities | scripts/fill_city_table.py:90-98 | each city once, in order: the rows appended are those of the cities processed, numbered by the sequence; it completes exactly when all are processed; otherwise it names the city that stopped it |
| FillCityTable.FillMissingCities | scripts/fill_city_table.py:87-98 | the above over exactly the missing catalogue cities, in catalogue order |

## Left out

- HTTP and database I/O is not modelled: the aiohttp sessions, the SQLAlchemy and document-store sessions, and transactions and commits. The weather provider is a function from query to reply. The `city` table is a sequence of rows with a counter for its id sequence.
- The city catalogue library and its `search_cities`, `get_cities` and `get_countries` are not modelled. Their results are parameters: a search function, a catalogue sequence and a map from country code to country name.
- `float()` is a parameter `parseReal`. Float parsing, float comparison precision and float rendering are not modelled, and coordinates are `real`.
- `str.title()`, `str.capitalize()`, `str.strip()`, `str.isspace()` and `int()` are modelled for ASCII only. `int()` skips tab, line feed, vertical tab, form feed, carriage return and space around the number, and no other character. It does not accept `_` digit separators or non-ASCII digits, and the limit of 4300 digits that newer Python versions put on `int()` is not modelled.
- RateLimiter.RetrySeconds: the source divides as floats before `ceil`. The model uses exact integer ceiling division, which agrees for every wait short enough to be represented exactly.
- The configured `RATE_LIMITER_FLAG` is a parameter, as are the request's headers.
- Templates and HTML responses are not modelled. Each handler returns the data it would hand to its template.
- pydantic's type coercions are not modelled: a `CityInDB` is built from a row field by field, and only a null region is refused.
- The JSON encoders of the document model are not modelled. Only the text form of an id is modelled.
- FillCityTable.FillCity: the source updates the catalogue's own dictionary in place. The model updates a fresh copy, so aliasing between the catalogue and the script's dictionary is not captured.
- FillCityTable.FillCities: an exception ends the source script. The model returns an outcome naming the city that stopped it.
- File I/O is not modelled. The migration's `csv.DictReader` over the export file becomes a sequence of CSV rows. Opening `cities1000.txt` as UTF-8 and reading it line by line with universal newlines (cities_text_to_json.py:7-8) becomes a sequence of lines. The `json.dumps` and `print` of the result (cities_text_to_json.py:39-42) are not modelled.
- Schemas.ParseClothingItem: pydantic v1 coerces numbers in a `List[str]` field to strings. The model accepts strings only, so a list holding numbers validates in the source but not in the model.
- The `city` table's `population`, `timezone`, `alternatenames`, `latitude` and `longitude` columns are nullable (src/models.py:13-17), but a `CityRow` holds a value in each. No writer in this model stores a null there: the migration converts every cell and fails on an empty number, and the fill script builds each row from a catalogue record, which carries all these fields.
- Schemas.IsValidObjectId: only the 12-byte and 24-hex-digit forms are modelled. `bytes.fromhex` inside the id library skips ASCII white space between digit pairs, so 24-character text holding white space can be accepted there as a shorter id; the model rejects it. The id library is not part of this model.
- `select(city)` has no `ORDER BY` (src/weather_service/utils.py:17, scripts/fill_city_table.py:71). The model's sequence of rows stands for the database's scan order. So "in table order" means that order, and so does which null-region row fails first.
- scripts/fill_city_table.py:8 imports `city` from `src.auth.models`, which defines no module-level `city` (src/auth/models.py:9-29 has the `user` table and a `User` class), so the import fails as the script stands. The model uses the `city` table of src/models.py:6-18, the one the rest of the code uses.
- The `weather_service` page route `get_page_weather_search` only renders a template, so it is not part of this model.
