/** The weather tool (`darling_tools/weather.py`): resolves its key, refuses
    to run without one, sends one OpenWeather request for the city and turns
    the outcome into a reply text. It never raises: every failure, including
    a missing field, becomes a reply. */
module WeatherClient {
  import opened Optional
  import opened PyStr
  import opened Environment
  import opened Provider

  const MissingKeyReply := "❌ OpenWeather API key ಸಿಗಲಿಲ್ಲ!"
  const IncompleteReply := "❌ ಹವಾಮಾನ ಮಾಹಿತಿ incomplete ಆಗಿದೆ 😢"
  const TimeoutReply := "❌ ಹವಾಮಾನ service timeout ಆಗಿದೆ. ಮತ್ತೆ ಪ್ರಯತ್ನಿಸಿ."
  const NotAvailable := "N/A"

  /** The reply for a failed request: it carries the error's text and is
      never mistaken for the timeout reply. */
  function RequestErrorReply(reason: string): (reply: string)
    ensures reply != TimeoutReply && Contains(reply, reason)
  {
    Prefixed("❌ ಹವಾಮಾನ service error: ", reason, TimeoutReply, 17);
    "❌ ಹವಾಮಾನ service error: " + reason
  }
  function KeyErrorReply(text: string): string { "❌ ಹವಾಮಾನ data format error: " + text }
  function OtherErrorReply(text: string): string { "❌ ಹವಾಮಾನ ಪಡೆಯೋಕೆ ಸಾಧ್ಯವಾಗಲಿಲ್ಲ 😞: " + text }

  /** The reply when the provider's `cod` is not 200. */
  function RefusedReply(city: string, message: Shown): (reply: string)
    ensures Contains(reply, city) && Contains(reply, message)
  {
    var reply := Format(["❌ ", "ಗೆ ಹವಾಮಾನ ಮಾಹಿತಿ ಸಿಗಲಿಲ್ಲ: ", ""], [city, message]);
    FormatInOrder(["❌ ", "ಗೆ ಹವಾಮಾನ ಮಾಹಿತಿ ಸಿಗಲಿಲ್ಲ: ", ""], [city, message]);
    InOrderContains(reply, [city, message]);
    reply
  }

  /** The four values the success reply shows. */
  datatype Report = Report(temp: Shown, feelsLike: Shown, description: string, humidity: Shown)

  /** The field accesses of the success path in source order, once `main`
      and `weather` are known to be present: `data["main"]["temp"]`, then
      `data["weather"][0]`, then its `["description"]`. */
  function Accesses(main: MainBlock, weather: seq<Condition>): seq<Access> {
    [ Access(MissingKey("temp"), main.temp.Some?),
      Access(EmptyList, weather != []),
      Access(MissingKey("description"), weather == [] || weather[0].description.Some?) ]
  }

  /** Reading the report raises what the first failing access raises; when
      every access goes through, `feels_like` falls back to the temperature
      and the humidity to "N/A". */
  function ReadReport(main: MainBlock, weather: seq<Condition>): (r: Result<Report, Fault>)
    ensures r.Ok? <==> AllPass(Accesses(main, weather))
    ensures r.Err? ==> FirstFailure(Accesses(main, weather), r.error)
    ensures r.Ok? ==>
      && main.temp.Some? && weather != [] && weather[0].description.Some?
      && r.value.temp == main.temp.value
      && r.value.feelsLike == (if main.feelsLike.Some? then main.feelsLike.value else main.temp.value)
      && r.value.description == weather[0].description.value
      && r.value.humidity == (if main.humidity.Some? then main.humidity.value else NotAvailable)
  {
    var acc := Accesses(main, weather);
    if main.temp.None? then
      assert !acc[0].passes;
      Err(MissingKey("temp"))
    else if weather == [] then
      assert acc[0].passes && !acc[1].passes;
      Err(EmptyList)
    else if weather[0].description.None? then
      assert acc[0].passes && acc[1].passes && !acc[2].passes;
      Err(MissingKey("description"))
    else
      var temp := main.temp.value;
      Ok(Report(temp, main.feelsLike.GetOr(temp), weather[0].description.value, main.humidity.GetOr(NotAvailable)))
  }

  /** The literal pieces of the success reply's f-string, around the city,
      description, temperature, felt temperature and humidity. */
  const ReportPieces := ["🌤️ ", "ನಲ್ಲಿ ಹವಾಮಾನ:\n- ಸ್ಥಿತಿ: ", "\n- ತಾಪಮಾನ: ", "°C (feels like ", "°C)\n- ಆರ್ದ್ರತೆ: ", "%"]

  /** The success reply. */
  function Describe(city: string, r: Report): string {
    Format(ReportPieces, [city, r.description, r.temp, r.feelsLike, r.humidity])
  }

  /** The success reply names the city, then the description, the
      temperature, the felt temperature and the humidity, in that order. */
  lemma DescribeOrder(city: string, r: Report)
    ensures AppearInOrder(Describe(city, r), [city, r.description, r.temp, r.feelsLike, r.humidity])
  {
    FormatInOrder(ReportPieces, [city, r.description, r.temp, r.feelsLike, r.humidity]);
  }

  /** The reply for a decoded response: a `cod` other than 200 wins over the
      field checks, then a missing `main` or `weather`, then the report. */
  function Interpret(city: string, data: WeatherData): (reply: string)
    ensures !CodIsOk(data.cod) ==>
      reply == RefusedReply(city, data.message.GetOr("")) && Contains(reply, city)
    ensures CodIsOk(data.cod) && (data.main.None? || data.weather.None?) ==> reply == IncompleteReply
    ensures CodIsOk(data.cod) && data.main.Some? && data.weather.Some? ==>
      match ReadReport(data.main.value, data.weather.value)
      case Ok(r) => reply == Describe(city, r)
      case Err(MissingKey(k)) => reply == KeyErrorReply(FaultText(MissingKey(k)))
      case Err(EmptyList) => reply == OtherErrorReply(FaultText(EmptyList))
  {
    if !CodIsOk(data.cod) then
      RefusedReply(city, data.message.GetOr(""))
    else if data.main.None? || data.weather.None? then
      IncompleteReply
    else
      match ReadReport(data.main.value, data.weather.value)
      case Ok(r) => Describe(city, r)
      case Err(MissingKey(k)) => KeyErrorReply(FaultText(MissingKey(k)))
      case Err(EmptyList) => OtherErrorReply(FaultText(EmptyList))
  }

  /** The reply for each network outcome: a timeout and any other request
      failure get distinct replies, the latter naming the error. */
  function Answer(city: string, response: Outcome<WeatherData>): (reply: string)
    ensures response.Timeout? <==> reply == TimeoutReply && !response.Received?
    ensures response.RequestError? ==> Contains(reply, response.reason)
    ensures response.Received? ==> reply == Interpret(city, response.data)
  {
    match response
    case Timeout => TimeoutReply
    case RequestError(reason) => RequestErrorReply(reason)
    case Received(data) => Interpret(city, data)
  }

  /** `get_weather(city)`, with the environment and the provider's response
      passed in. Without a key nothing is sent and the key error is the reply. */
  function GetWeather(env: Env, city: string, response: Outcome<WeatherData>): (c: Call<string>)
    ensures !Truthy(WeatherApiKey(env)) ==> c == Call(None, MissingKeyReply)
    ensures c.sent.Some? <==> Truthy(WeatherApiKey(env))
    ensures c.sent.Some? ==>
      c.sent.value == WeatherRequestFor(city, WeatherApiKey(env).value) && c.result == Answer(city, response)
  {
    var key := WeatherApiKey(env);
    if !Truthy(key) then Call(None, MissingKeyReply)
    else Call(Some(WeatherRequestFor(city, key.value)), Answer(city, response))
  }
}
