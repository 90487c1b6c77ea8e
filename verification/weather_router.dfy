/**
 * The `/weather` routes: the handler that turns request-validation errors
 * into one 400 message, the city-name suggestions, and the weather lookup
 * by coordinates (optionally refined by a city name).
 */
module WeatherRouter {
  import opened Wrappers
  import opened Text
  import opened Http
  import opened Schemas
  import opened WeatherApi
  import opened WeatherUtils

  // ---------------------------------------------------------------- validation errors

  /** One entry of `RequestValidationError.errors()`: the message and the location path. */
  datatype ValidationError = ValidationError(msg: string, loc: seq<string>)

  predicate HasFieldName(e: ValidationError)
  {
    |e.loc| >= 2
  }

  /**
   * `msg` with "value" replaced by the field name, then capitalised: a
   * message without "value" is only capitalised, and no letter after the
   * first is upper-case.
   */
  function ErrorMessage(e: ValidationError): (r: string)
    requires HasFieldName(e)
    ensures !Occurs(e.msg, "value") ==> r == Capitalize(e.msg)
    ensures forall i :: 1 <= i < |r| ==> !IsUpper(r[i])
  {
    var r := Capitalize(Replace(e.msg, "value", e.loc[1]));
    assert !Occurs(e.msg, "value") ==> r == Capitalize(e.msg) by {
      if !Occurs(e.msg, "value") {
        ReplaceAbsent(e.msg, "value", e.loc[1]);
      }
    }
    r
  }

  function ErrorMessages(errors: seq<ValidationError>): (ms: seq<string>)
    requires forall k :: 0 <= k < |errors| ==> HasFieldName(errors[k])
    ensures |ms| == |errors|
  {
    seq(|errors|, k requires 0 <= k < |errors| => ErrorMessage(errors[k]))
  }

  /**
   * The route handler's answer to a validation failure: 400 with the
   * messages joined by ". " in error order; an error whose location has no
   * field name makes `loc[1]` raise, which the framework answers with 500.
   */
  method ValidationFailureResponse(errors: seq<ValidationError>) returns (response: HttpError)
    ensures (forall k :: 0 <= k < |errors| ==> HasFieldName(errors[k])) ==>
      response == HttpError(BadRequest, Join(ErrorMessages(errors), ". "), map[])
    ensures (exists k :: 0 <= k < |errors| && !HasFieldName(errors[k])) ==> response == ServerFault
  {
    var errorMessages: seq<string> := [];
    var i := 0;
    while i < |errors|
      invariant 0 <= i <= |errors|
      invariant forall k :: 0 <= k < i ==> HasFieldName(errors[k])
      invariant errorMessages == ErrorMessages(errors[..i])
    {
      if !HasFieldName(errors[i]) {
        return ServerFault;
      }
      errorMessages := errorMessages + [ErrorMessage(errors[i])];
      i := i + 1;
    }
    assert errors[..i] == errors;
    response := HttpError(BadRequest, Join(errorMessages, ". "), map[]);
  }

  const FloatTail := " is not a valid float"

  /** The error the framework reports for a query field that does not parse as a float. */
  function NotAFloat(field: string): ValidationError
  {
    ValidationError("value" + FloatTail, ["query", field])
  }

  /** A message that opens with "value" and has no other occurrence of it names the field instead. */
  lemma ValueMessage(tail: string, field: string)
    requires !Occurs(tail, "value")
    ensures ErrorMessage(ValidationError("value" + tail, ["query", field])) == Capitalize(field + tail)
  {
    var msg := "value" + tail;
    assert msg[..5] == "value" && msg[5..] == tail;
    ReplaceAbsent(tail, "value", field);
  }

  /**
   * The first "value" inside a message: the text before it is kept, the
   * field name takes its place, and the rest of the message is replaced in
   * turn.
   */
  lemma InnerValueMessage(a: string, b: string, loc: seq<string>)
    requires |loc| >= 2 && NoEarlier(a + "value" + b, |a|, "value")
    ensures ErrorMessage(ValidationError(a + "value" + b, loc)) == Capitalize(a + loc[1] + Replace(b, "value", loc[1]))
  {
    ReplaceAfter(a, "value", loc[1], b);
  }

  /** The same for a lower-case field and message, whose first letter alone is raised. */
  lemma LowerCaseValueMessage(tail: string, c: char, rest: string)
    requires !Occurs(tail, "value") && LowerAll(rest + tail) == rest + tail
    ensures ErrorMessage(ValidationError("value" + tail, ["query", [c] + rest])) == [ToUpper(c)] + rest + tail
  {
    ValueMessage(tail, [c] + rest);
    assert [c] + rest + tail == [c] + (rest + tail);
    CapitalizeLowerTail(c, rest + tail);
  }

  lemma NotAFloatMessage(field: string, c: char, rest: string)
    requires field == [c] + rest && LowerAll(rest + FloatTail) == rest + FloatTail
    ensures ErrorMessage(NotAFloat(field)) == [ToUpper(c)] + rest + FloatTail
  {
    assert "value"[3] == 'u';
    AbsentChar(FloatTail, "value", 'u');
    LowerCaseValueMessage(FloatTail, c, rest);
  }

  lemma FloatTailLower()
    ensures LowerAll(FloatTail) == FloatTail
  {
  }

  /** The error on `latitude` reads "Latitude is not a valid float". */
  lemma LatitudeNotAFloat(field: string)
    requires field == "latitude"
    ensures ErrorMessage(NotAFloat(field)) == "Latitude is not a valid float"
  {
    FloatTailLower();
    LowerAllConcat(field[1..], FloatTail);
    assert field[1..] == "atitude";
    NotAFloatMessage(field, field[0], field[1..]);
    assert ToUpper(field[0]) == 'L';
    assert [ToUpper(field[0])] + field[1..] + FloatTail == "Latitude" + FloatTail;
    LatitudeText();
  }

  lemma LatitudeText()
    ensures "Latitude" + FloatTail == "Latitude is not a valid float"
  {
  }

  /** The error on `longitude` reads "Longitude is not a valid float". */
  lemma LongitudeNotAFloat(field: string)
    requires field == "longitude"
    ensures ErrorMessage(NotAFloat(field)) == "Longitude is not a valid float"
  {
    FloatTailLower();
    LowerAllConcat(field[1..], FloatTail);
    assert field[1..] == "ongitude";
    NotAFloatMessage(field, field[0], field[1..]);
    assert ToUpper(field[0]) == 'L';
    assert [ToUpper(field[0])] + field[1..] + FloatTail == "Longitude" + FloatTail;
    LongitudeText();
  }

  lemma LongitudeText()
    ensures "Longitude" + FloatTail == "Longitude is not a valid float"
  {
  }

  /** Two malformed fields give one detail: both messages, in order, joined by ". ". */
  lemma NotAFloatDetail(first: string, second: string)
    ensures ValidationErrorDetail([NotAFloat(first), NotAFloat(second)])
         == ErrorMessage(NotAFloat(first)) + ". " + ErrorMessage(NotAFloat(second))
  {
    var a := ErrorMessage(NotAFloat(first));
    var b := ErrorMessage(NotAFloat(second));
    assert ErrorMessages([NotAFloat(first), NotAFloat(second)]) == [a, b];
    assert Join([a, b], ". ") == a + ". " + Join([b], ". ");
  }

  /** Both coordinates malformed: the detail reads "Latitude is not a valid float. Longitude is not a valid float". */
  lemma CoordinatesNotAFloatDetail(latitude: string, longitude: string)
    requires latitude == "latitude" && longitude == "longitude"
    ensures ValidationErrorDetail([NotAFloat(latitude), NotAFloat(longitude)])
         == "Latitude is not a valid float" + ". " + "Longitude is not a valid float"
  {
    LatitudeNotAFloat(latitude);
    LongitudeNotAFloat(longitude);
    NotAFloatDetail(latitude, longitude);
  }

  /** The detail of a validation failure, when every error names its field. */
  function ValidationErrorDetail(errors: seq<ValidationError>): string
    requires forall k :: 0 <= k < |errors| ==> HasFieldName(errors[k])
  {
    Join(ErrorMessages(errors), ". ")
  }

  // ---------------------------------------------------------------- find_city_name_matches

  /** A city as the name-search library returns it. */
  datatype GeoCityInfo = GeoCityInfo(name: string, countrycode: string, latitude: real, longitude: real)

  datatype Coordinates = Coordinates(latitude: real, longitude: real)

  datatype CityChoice = CityChoice(name: string, country: string, coordinates: Coordinates)

  datatype MatchFailure =
    | InvalidCity      // 400 "Invalid city!"
    | UnknownCountry   // a country code the country table lacks: `None['name']` raises

  function MatchFailureResponse(f: MatchFailure): HttpError
  {
    match f
    case InvalidCity => HttpError(BadRequest, "Invalid city!", map[])
    case UnknownCountry => ServerFault
  }

  /**
   * `find_city_name_matches`: the library's matches for the title-cased
   * input, each with its own name, country name and coordinates, in order.
   */
  function FindCityNameMatches(cityInput: string, search: string -> seq<GeoCityInfo>, countries: map<string, string>)
    : (r: Result<seq<CityChoice>, MatchFailure>)
    ensures var found := search(Title(cityInput));
      && (r == Failure(InvalidCity) <==> found == [])
      && (r == Failure(UnknownCountry) <==> found != [] && exists i :: 0 <= i < |found| && found[i].countrycode !in countries)
      && (r.Success? ==>
            |r.value| == |found| &&
            forall i :: 0 <= i < |found| ==>
              && r.value[i].name == found[i].name
              && found[i].countrycode in countries
              && r.value[i].country == countries[found[i].countrycode]
              && r.value[i].coordinates == Coordinates(found[i].latitude, found[i].longitude))
  {
    var found := search(Title(cityInput));
    if found == [] then Failure(InvalidCity)
    else
      var names := seq(|found|, i requires 0 <= i < |found| => found[i].name);
      var codes := seq(|found|, i requires 0 <= i < |found| => found[i].countrycode);
      assert forall i :: 0 <= i < |found| ==> codes[i] == found[i].countrycode;
      if exists i :: 0 <= i < |codes| && codes[i] !in countries then Failure(UnknownCountry)
      else
        var countryNames := seq(|codes|, i requires 0 <= i < |codes| => countries[codes[i]]);
        var coordinates := seq(|found|, i requires 0 <= i < |found| => Coordinates(found[i].latitude, found[i].longitude));
        Success(seq(|names|, i requires 0 <= i < |names| => CityChoice(names[i], countryNames[i], coordinates[i])))
  }

  // ---------------------------------------------------------------- get_city_weather

  /** The `city` value that asks for a search by coordinates only. */
  const SearchByCoordinates := "search_by_coordinates"

  datatype WeatherFailure =
    | InvalidCoordinates           // 400 "Invalid coordinates!"
    | ProviderError(message: string)  // 400 with the provider's own message
    | NoInformationForCoordinates  // 400 "No information found for given coordinates"
    | InternalError                // a KeyError on the payload: 500

  function WeatherFailureResponse(f: WeatherFailure): HttpError
  {
    match f
    case InvalidCoordinates => HttpError(BadRequest, "Invalid coordinates!", map[])
    case ProviderError(m) => HttpError(BadRequest, m, map[])
    case NoInformationForCoordinates => HttpError(BadRequest, "No information found for given coordinates", map[])
    case InternalError => ServerFault
  }

  /** The returned place lies strictly within one degree of the request on both axes. */
  predicate WithinTolerance(latitude: real, longitude: real, place: Location)
  {
    latitude - 1.0 < place.lat < latitude + 1.0 && longitude - 1.0 < place.lon < longitude + 1.0
  }

  /**
   * Relabelling a reply that is used without checking it for an error: it
   * succeeds exactly for a payload whose place has a region, and every
   * failure is the internal error.
   */
  function Present(reply: Response): (r: Result<WeatherView, WeatherFailure>)
    ensures r.Success? <==> reply.Reply? && reply.payload.location.region.Some?
    ensures r.Failure? ==> r.error == InternalError
  {
    if reply.ErrorReply? then Failure(InternalError)
    else match ProcessWeatherData(reply.payload)
      case Some(view) => Success(view)
      case None => Failure(InternalError)
  }

  /** What `Present` shows is the whole payload: relabelling it loses nothing. */
  lemma PresentLossless(reply: Response)
    requires Present(reply).Success?
    ensures RecoverPayload(Present(reply).value) == Some(reply.payload)
  {
    ProcessWeatherDataLossless(reply.payload);
  }

  /**
   * `get_city_weather`. Out-of-range coordinates fail before any request.
   * The first request is always by coordinates and its error is passed
   * through. A coordinate search then demands the ±1° match; a named search
   * never does, but asks once more by name when the place's name differs,
   * and that second reply replaces the first unchecked.
   */
  method GetCityWeather(provider: Provider, latitude: real, longitude: real, city: string)
    returns (outcome: Result<WeatherView, WeatherFailure>, requests: seq<Query>)
    ensures !ValidCoordinates(latitude, longitude) ==> outcome == Failure(InvalidCoordinates) && requests == []
    ensures ValidCoordinates(latitude, longitude) ==>
      var byCoordinates := ByCoordinates(latitude, longitude);
      var first := provider(byCoordinates);
      && 1 <= |requests| <= 2 && requests[0] == byCoordinates
      && (first.ErrorReply? ==> requests == [byCoordinates] && outcome == Failure(ProviderError(first.message)))
      && (first.Reply? && city == SearchByCoordinates ==>
            requests == [byCoordinates] &&
            outcome == if WithinTolerance(latitude, longitude, first.payload.location) then Present(first)
                       else Failure(NoInformationForCoordinates))
      && (first.Reply? && city != SearchByCoordinates && first.payload.location.name == city ==>
            requests == [byCoordinates] && outcome == Present(first))
      && (first.Reply? && city != SearchByCoordinates && first.payload.location.name != city ==>
            requests == [byCoordinates, ByText(city)] && outcome == Present(provider(ByText(city))))
  {
    requests := [];
    if !ValidCoordinates(latitude, longitude) {
      return Failure(InvalidCoordinates), requests;
    }
    var query := ByCoordinates(latitude, longitude);
    var data := provider(query);
    requests := requests + [query];
    if data.ErrorReply? {
      return Failure(ProviderError(data.message)), requests;
    }
    if city == SearchByCoordinates {
      if !WithinTolerance(latitude, longitude, data.payload.location) {
        return Failure(NoInformationForCoordinates), requests;
      }
    }
    if city != SearchByCoordinates && data.payload.location.name != city {
      query := ByText(city);
      data := provider(query);
      requests := requests + [query];
    }
    outcome := Present(data);
  }

  /** The request (-100, 200): rejected with "Invalid coordinates!" and nothing is asked of the provider. */
  method OutOfRangeRequest(provider: Provider) returns (response: HttpError, requests: seq<Query>)
    ensures response == HttpError(BadRequest, "Invalid coordinates!", map[]) && requests == []
  {
    var outcome;
    outcome, requests := GetCityWeather(provider, -100.0, 200.0, SearchByCoordinates);
    response := WeatherFailureResponse(outcome.error);
  }

  /** The request (0, 0) when the provider finds no place: its message is the detail. */
  method NoMatchingLocationRequest(provider: Provider) returns (response: HttpError)
    requires provider(ByCoordinates(0.0, 0.0)) == ErrorReply("No matching location found.")
    ensures response == HttpError(BadRequest, "No matching location found.", map[])
  {
    var outcome, _ := GetCityWeather(provider, 0.0, 0.0, SearchByCoordinates);
    response := WeatherFailureResponse(outcome.error);
  }

  /** A coordinate search answered by a place exactly one degree away is refused. */
  method OneDegreeOffRequest(provider: Provider, place: Payload) returns (response: HttpError)
    requires place.location.lat == 2.0 && place.location.lon == 1.5
    requires provider(ByCoordinates(1.0, 1.0)) == Reply(place)
    ensures response == HttpError(BadRequest, "No information found for given coordinates", map[])
  {
    var outcome, _ := GetCityWeather(provider, 1.0, 1.0, SearchByCoordinates);
    response := WeatherFailureResponse(outcome.error);
  }
}
