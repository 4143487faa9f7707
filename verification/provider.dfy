/** What crosses the network boundary: the request a client sends and the
    outcome it gets back. JSON bodies are already decoded into records whose
    fields are `None` when the key is absent; values the backend only prints
    (temperatures, titles, provider messages) are kept as the text Python's
    `str()` gives for them. */
module Provider {
  import opened Optional

  /** Text of a JSON value as an f-string renders it. */
  type Shown = string

  /** Result of `requests.get(...)`, `raise_for_status()` and `json()`.
      `RequestError` carries `str(e)` of any `requests` exception other than a
      timeout (connection failure, HTTP error status, undecodable body). */
  datatype Outcome<+T> = Timeout | RequestError(reason: string) | Received(data: T)

  const WeatherUrl := "https://api.openweathermap.org/data/2.5/weather"
  const SearchUrl := "https://www.googleapis.com/customsearch/v1"

  /** An outbound GET with its query parameters. */
  datatype Request =
    | WeatherRequest(url: string, q: string, appid: string, units: string)
    | SearchRequest(url: string, key: string, cx: string, q: string, num: nat, safe: string)

  const MetricUnits := "metric"
  /** The `num` parameter: how many results are asked for. Nothing checks
      how many come back. */
  const ResultCount: nat := 3
  const SafeSearch := "active"

  /** `{"q": city, "appid": key, "units": "metric"}`. */
  function WeatherRequestFor(city: string, key: string): Request {
    WeatherRequest(WeatherUrl, city, key, MetricUnits)
  }

  /** `{"key": key, "cx": cx, "q": q, "num": 3, "safe": "active"}`. */
  function SearchRequestFor(key: string, cx: string, q: string): Request {
    SearchRequest(SearchUrl, key, cx, q, ResultCount, SafeSearch)
  }

  /** The request a client sent (if any) together with what it produced. */
  datatype Call<+R> = Call(sent: Option<Request>, result: R)

  // ------------------------------------------------------------ weather body

  /** The `cod` field: OpenWeather sends a number on success and often a
      string on failure; only the number 200 compares equal to `200`. */
  datatype Cod = CodNumber(n: int) | CodText(t: string)

  datatype MainBlock = MainBlock(temp: Option<Shown>, feelsLike: Option<Shown>, humidity: Option<Shown>)
  datatype Condition = Condition(description: Option<string>)
  datatype WindBlock = WindBlock(speed: Option<Shown>)

  datatype WeatherData = WeatherData(
    cod: Option<Cod>,
    message: Option<Shown>,
    main: Option<MainBlock>,
    weather: Option<seq<Condition>>,
    wind: Option<WindBlock>
  )

  /** `data.get("cod") == 200`. */
  predicate CodIsOk(cod: Option<Cod>) {
    cod == Some(CodNumber(200))
  }

  // ------------------------------------------------------------- search body

  datatype ProviderError = ProviderError(message: Option<Shown>)
  datatype Item = Item(title: Option<Shown>, link: Option<Shown>, snippet: Option<string>)
  datatype SearchData = SearchData(error: Option<ProviderError>, items: Option<seq<Item>>)

  // -------------------------------------------------------- field access faults

  /** What `data[key]` and `list[0]` raise when the key or element is missing. */
  datatype Fault = MissingKey(key: string) | EmptyList

  /** `str(e)` of the exception: a `KeyError` shows the key in quotes. */
  function FaultText(f: Fault): string {
    match f
    case MissingKey(k) => "'" + k + "'"
    case EmptyList => "list index out of range"
  }

  /** One field access on the success path: what it raises, and whether the
      data lets it through (given that the accesses before it went through). */
  datatype Access = Access(fault: Fault, passes: bool)

  /** `f` is what the first access that does not go through raises. */
  predicate FirstFailure(accesses: seq<Access>, f: Fault) {
    exists k | 0 <= k < |accesses| ::
      && !accesses[k].passes
      && accesses[k].fault == f
      && forall j :: 0 <= j < k ==> accesses[j].passes
  }

  predicate AllPass(accesses: seq<Access>) {
    forall k :: 0 <= k < |accesses| ==> accesses[k].passes
  }
}
