/** The `/weather` and `/search` routes of `main.py`. Unlike the tools, they
    signal a missing credential or a blank query with an HTTP status, and the
    weather route reads every field strictly (no defaults) and also shows the
    wind speed. Once the request is sent, every failure becomes a reply. */
module Endpoints {
  import opened Optional
  import opened PyStr
  import opened Environment
  import opened Provider
  import opened Listing

  const BadRequest: nat := 400
  const ServiceUnavailable: nat := 503

  /** What a route produces: a body, or an `HTTPException` status and detail. */
  datatype Response = Reply(text: string) | HttpError(status: nat, detail: string)

  // ---------------------------------------------------------------- /weather

  const WeatherKeyDetail := "❌ OpenWeather API key not configured!"
  const WeatherTimeoutReply := "❌ Weather service timeout. Please try again."

  /** The reply for a failed request: it carries the error's text and is
      never mistaken for the timeout reply. */
  function WeatherRequestErrorReply(reason: string): (reply: string)
    ensures reply != WeatherTimeoutReply && Contains(reply, reason)
  {
    Prefixed("❌ Weather service error: ", reason, WeatherTimeoutReply, 18);
    "❌ Weather service error: " + reason
  }
  function WeatherKeyErrorReply(text: string): string { "❌ Unexpected weather data format: " + text }
  function WeatherOtherErrorReply(text: string): string { "❌ Error fetching weather: " + text }

  function RefusedReply(city: string, message: Shown): (reply: string)
    ensures Contains(reply, city) && Contains(reply, message)
  {
    var reply := Format(["❌ Couldn't fetch weather for ", ". ", ""], [city, message]);
    FormatInOrder(["❌ Couldn't fetch weather for ", ". ", ""], [city, message]);
    InOrderContains(reply, [city, message]);
    reply
  }

  /** The five values the success reply shows. */
  datatype FullReport = FullReport(description: string, temp: Shown, feelsLike: Shown, humidity: Shown, wind: Shown)

  /** The field accesses of lines 109-113 in evaluation order. */
  function FullAccesses(data: WeatherData): seq<Access> {
    var weather := data.weather.GetOr([]);
    var main := data.main.GetOr(MainBlock(None, None, None));
    [ Access(MissingKey("weather"), data.weather.Some?),
      Access(EmptyList, weather != []),
      Access(MissingKey("description"), weather == [] || weather[0].description.Some?),
      Access(MissingKey("main"), data.main.Some?),
      Access(MissingKey("temp"), main.temp.Some?),
      Access(MissingKey("feels_like"), main.feelsLike.Some?),
      Access(MissingKey("humidity"), main.humidity.Some?),
      Access(MissingKey("wind"), data.wind.Some?),
      Access(MissingKey("speed"), data.wind.None? || data.wind.value.speed.Some?) ]
  }

  /** Reads the report with no defaults: it raises what the first failing
      access raises, and succeeds only when every field is there. */
  function ReadFullReport(data: WeatherData): (r: Result<FullReport, Fault>)
    ensures r.Ok? <==> AllPass(FullAccesses(data))
    ensures r.Err? ==> FirstFailure(FullAccesses(data), r.error)
    ensures r.Ok? ==>
      && data.weather.Some? && data.weather.value != [] && data.main.Some? && data.wind.Some?
      && data.weather.value[0].description.Some?
      && r.value.description == Title(data.weather.value[0].description.value)
      && Some(r.value.temp) == data.main.value.temp
      && Some(r.value.feelsLike) == data.main.value.feelsLike
      && Some(r.value.humidity) == data.main.value.humidity
      && Some(r.value.wind) == data.wind.value.speed
  {
    var acc := FullAccesses(data);
    if data.weather.None? then
      assert !acc[0].passes;
      Err(MissingKey("weather"))
    else if data.weather.value == [] then
      assert acc[0].passes && !acc[1].passes;
      Err(EmptyList)
    else if data.weather.value[0].description.None? then
      assert acc[0].passes && acc[1].passes && !acc[2].passes;
      Err(MissingKey("description"))
    else if data.main.None? then
      assert acc[0].passes && acc[1].passes && acc[2].passes && !acc[3].passes;
      Err(MissingKey("main"))
    else if data.main.value.temp.None? then
      assert forall j :: 0 <= j < 4 ==> acc[j].passes;
      assert !acc[4].passes;
      Err(MissingKey("temp"))
    else if data.main.value.feelsLike.None? then
      assert forall j :: 0 <= j < 5 ==> acc[j].passes;
      assert !acc[5].passes;
      Err(MissingKey("feels_like"))
    else if data.main.value.humidity.None? then
      assert forall j :: 0 <= j < 6 ==> acc[j].passes;
      assert !acc[6].passes;
      Err(MissingKey("humidity"))
    else if data.wind.None? then
      assert forall j :: 0 <= j < 7 ==> acc[j].passes;
      assert !acc[7].passes;
      Err(MissingKey("wind"))
    else if data.wind.value.speed.None? then
      assert forall j :: 0 <= j < 8 ==> acc[j].passes;
      assert !acc[8].passes;
      Err(MissingKey("speed"))
    else
      var main := data.main.value;
      Ok(FullReport(Title(data.weather.value[0].description.value), main.temp.value,
                    main.feelsLike.value, main.humidity.value, data.wind.value.speed.value))
  }

  /** The literal pieces of the success reply's f-string, around the city,
      description, temperature, felt temperature, humidity and wind speed. */
  const FullReportPieces := ["🌤️ Weather in ", ":\n- Condition: ", "\n- Temperature: ", "°C (feels like ",
                             "°C)\n- Humidity: ", "%\n- Wind Speed: ", " m/s"]

  function DescribeFull(city: string, r: FullReport): string {
    Format(FullReportPieces, [city, r.description, r.temp, r.feelsLike, r.humidity, r.wind])
  }

  /** The success reply names the city, then the condition, the temperature,
      the felt temperature, the humidity and the wind speed, in that order. */
  lemma DescribeFullOrder(city: string, r: FullReport)
    ensures AppearInOrder(DescribeFull(city, r), [city, r.description, r.temp, r.feelsLike, r.humidity, r.wind])
  {
    FormatInOrder(FullReportPieces, [city, r.description, r.temp, r.feelsLike, r.humidity, r.wind]);
  }

  /** The reply for a decoded response: a `cod` other than 200 wins, then
      the strict field reads, whose `KeyError` and `IndexError` are caught. */
  function InterpretWeather(city: string, data: WeatherData): (reply: string)
    ensures !CodIsOk(data.cod) ==>
      reply == RefusedReply(city, data.message.GetOr("")) && Contains(reply, city)
    ensures CodIsOk(data.cod) ==>
      match ReadFullReport(data)
      case Ok(r) => reply == DescribeFull(city, r)
      case Err(MissingKey(k)) => reply == WeatherKeyErrorReply(FaultText(MissingKey(k)))
      case Err(EmptyList) => reply == WeatherOtherErrorReply(FaultText(EmptyList))
  {
    if !CodIsOk(data.cod) then
      RefusedReply(city, data.message.GetOr(""))
    else
      match ReadFullReport(data)
      case Ok(r) => DescribeFull(city, r)
      case Err(MissingKey(k)) => WeatherKeyErrorReply(FaultText(MissingKey(k)))
      case Err(EmptyList) => WeatherOtherErrorReply(FaultText(EmptyList))
  }

  /** The body for each network outcome: a timeout and any other request
      failure get distinct replies, the latter naming the error. */
  function AnswerWeather(city: string, response: Outcome<WeatherData>): (reply: string)
    ensures response.Timeout? <==> reply == WeatherTimeoutReply && !response.Received?
    ensures response.RequestError? ==> Contains(reply, response.reason)
    ensures response.Received? ==> reply == InterpretWeather(city, response.data)
  {
    match response
    case Timeout => WeatherTimeoutReply
    case RequestError(reason) => WeatherRequestErrorReply(reason)
    case Received(data) => InterpretWeather(city, data)
  }

  /** `GET /weather?city=`: 503 without a key, before any request; otherwise
      one request for the city, and a body whatever the outcome. */
  function GetWeather(env: Env, city: string, response: Outcome<WeatherData>): (c: Call<Response>)
    ensures !Truthy(WeatherApiKey(env)) ==> c == Call(None, HttpError(ServiceUnavailable, WeatherKeyDetail))
    ensures c.sent.Some? <==> Truthy(WeatherApiKey(env))
    ensures c.sent.Some? ==>
      c.sent.value == WeatherRequestFor(city, WeatherApiKey(env).value)
      && c.result == Reply(AnswerWeather(city, response))
    ensures c.result.HttpError? ==> c.result.status == ServiceUnavailable
  {
    var key := WeatherApiKey(env);
    if !Truthy(key) then Call(None, HttpError(ServiceUnavailable, WeatherKeyDetail))
    else Call(Some(WeatherRequestFor(city, key.value)), Reply(AnswerWeather(city, response)))
  }

  // ----------------------------------------------------------------- /search

  const SearchConfigDetail := "❌ Google Search API or CSE ID not configured!"
  const BlankSearchDetail := "Search query cannot be empty"
  const SearchTimeoutReply := "❌ Search service timeout. Please try again."
  const UnknownError := "Unknown error"

  /** The reply for a failed request: it carries the error's text and is
      never mistaken for the timeout reply. */
  function SearchRequestErrorReply(reason: string): (reply: string)
    ensures reply != SearchTimeoutReply && Contains(reply, reason)
  {
    Prefixed("❌ Search service error: ", reason, SearchTimeoutReply, 17);
    "❌ Search service error: " + reason
  }
  function SearchErrorReply(message: Shown): string { "❌ Search error: " + message }
  function NoResultsReply(query: string): string { "🔍 No results found for '" + query + "'" }
  function ResultsHeader(query: string): string { "🔍 Search results for '" + query + "':\n\n" }

  /** The reply for a decoded response: a provider error wins over any items,
      then a missing or empty item list, then the rendered listing. */
  function InterpretSearch(query: string, data: SearchData): (reply: string)
    ensures data.error.Some? ==> reply == SearchErrorReply(data.error.value.message.GetOr(UnknownError))
    ensures data.error.None? && data.items.GetOr([]) == [] ==>
      reply == NoResultsReply(query) && Contains(reply, query)
    ensures data.error.None? && data.items.GetOr([]) != [] ==>
      Trimmed(reply) && reply == ResultsHeader(query) + RStrip(Blocks(data.items.value, FirstNumber))
  {
    if data.error.Some? then
      SearchErrorReply(data.error.value.message.GetOr(UnknownError))
    else
      var items := data.items.GetOr([]);
      if items == [] then
        ContainsMiddle("🔍 No results found for '", query, "'");
        NoResultsReply(query)
      else
        Render(ResultsHeader(query), items)
  }

  /** The body for each network outcome: a timeout and any other request
      failure get distinct replies, the latter naming the error. */
  function AnswerSearch(query: string, response: Outcome<SearchData>): (reply: string)
    ensures response.Timeout? <==> reply == SearchTimeoutReply && !response.Received?
    ensures response.RequestError? ==> Contains(reply, response.reason)
    ensures response.Received? ==> reply == InterpretSearch(query, response.data)
  {
    match response
    case Timeout => SearchTimeoutReply
    case RequestError(reason) => SearchRequestErrorReply(reason)
    case Received(data) => InterpretSearch(query, data)
  }

  /** `GET /search?query=`: 503 when either credential is missing, checked
      before the blank query's 400; neither sends a request. */
  function GoogleSearch(env: Env, query: string, response: Outcome<SearchData>): (c: Call<Response>)
    ensures !SearchConfigured(env) ==> c == Call(None, HttpError(ServiceUnavailable, SearchConfigDetail))
    ensures SearchConfigured(env) && Strip(query) == [] ==> c == Call(None, HttpError(BadRequest, BlankSearchDetail))
    ensures c.sent.Some? <==> SearchConfigured(env) && Strip(query) != []
    ensures c.sent.Some? ==>
      c.sent.value == SearchRequestFor(SearchApiKey(env).value, SearchEngineId(env).value, Strip(query))
      && c.result == Reply(AnswerSearch(query, response))
    ensures c.result.HttpError? <==> c.sent.None?
  {
    var key := SearchApiKey(env);
    var cx := SearchEngineId(env);
    if !Truthy(key) || !Truthy(cx) then
      Call(None, HttpError(ServiceUnavailable, SearchConfigDetail))
    else if Strip(query) == [] then
      Call(None, HttpError(BadRequest, BlankSearchDetail))
    else
      Call(Some(SearchRequestFor(key.value, cx.value, Strip(query))), Reply(AnswerSearch(query, response)))
  }
}
