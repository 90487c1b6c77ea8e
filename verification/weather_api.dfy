/**
 * The upstream weather provider's request and response shapes (the
 * `current.json` endpoint): a query is either "{lat},{lon}" or free text,
 * and the reply is either an `error` object or `location` plus `current`.
 */
module WeatherApi {
  import opened Wrappers

  datatype Query = ByCoordinates(latitude: real, longitude: real) | ByText(q: string)

  datatype Location = Location(
    name: string,
    region: Option<string>,
    country: string,
    lat: real,
    lon: real,
    tzId: string,
    localtime: string)

  datatype Condition = Condition(text: string)

  datatype Current = Current(
    tempC: real,
    feelslikeC: real,
    condition: Condition,
    lastUpdated: string,
    windKph: real,
    humidity: int,
    cloud: int)

  datatype Payload = Payload(location: Location, current: Current)

  /** A reply carrying an `error` key, or a well-formed payload. */
  datatype Response = ErrorReply(message: string) | Reply(payload: Payload)

  /** The provider, seen as a function from the request's query to its reply. */
  type Provider = Query -> Response
}
