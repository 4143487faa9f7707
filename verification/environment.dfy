/** The process environment the backend reads its provider credentials from.
    Each credential has a current and a legacy variable name; `os.getenv(a) or
    os.getenv(b)` takes the first one that is set to a non-empty value. */
module Environment {
  import opened Optional

  /** The six variables the backend consults, `None` when unset. */
  datatype Env = Env(
    googleSearchApiKey: Option<string>,  // GOOGLE_SEARCH_API_KEY
    googleApiKey: Option<string>,        // GOOGLE_API_KEY
    searchEngineId: Option<string>,      // SEARCH_ENGINE_ID
    googleCseId: Option<string>,         // GOOGLE_CSE_ID
    openWeatherApiKey: Option<string>,   // OPENWEATHER_API_KEY
    openWeatherApi: Option<string>       // OPENWEATHER_API
  )

  /** Python truthiness of an optional string: set and non-empty. */
  predicate Truthy(v: Option<string>) {
    v.Some? && v.value != ""
  }

  /** `primary or legacy`: the primary value when it is truthy, the legacy
      value (whatever it is) otherwise. */
  function FirstTruthy(primary: Option<string>, legacy: Option<string>): (v: Option<string>)
    ensures Truthy(v) <==> Truthy(primary) || Truthy(legacy)
    ensures Truthy(primary) ==> v == primary
    ensures Truthy(v) && !Truthy(primary) ==> v == legacy
  {
    if Truthy(primary) then primary else legacy
  }

  function SearchApiKey(env: Env): Option<string> {
    FirstTruthy(env.googleSearchApiKey, env.googleApiKey)
  }

  function SearchEngineId(env: Env): Option<string> {
    FirstTruthy(env.searchEngineId, env.googleCseId)
  }

  function WeatherApiKey(env: Env): Option<string> {
    FirstTruthy(env.openWeatherApiKey, env.openWeatherApi)
  }

  /** Search is usable when both its key and its engine id resolve. */
  predicate SearchConfigured(env: Env) {
    Truthy(SearchApiKey(env)) && Truthy(SearchEngineId(env))
  }

  /** An empty current-name variable does not hide a set legacy one:
      each credential resolves exactly when one of its two names holds a
      non-empty value, and the current name wins when both do. */
  lemma CredentialFallback(env: Env)
    ensures Truthy(SearchApiKey(env)) <==> Truthy(env.googleSearchApiKey) || Truthy(env.googleApiKey)
    ensures Truthy(SearchEngineId(env)) <==> Truthy(env.searchEngineId) || Truthy(env.googleCseId)
    ensures Truthy(WeatherApiKey(env)) <==> Truthy(env.openWeatherApiKey) || Truthy(env.openWeatherApi)
    ensures Truthy(env.googleSearchApiKey) ==> SearchApiKey(env) == env.googleSearchApiKey
    ensures Truthy(env.searchEngineId) ==> SearchEngineId(env) == env.searchEngineId
    ensures Truthy(env.openWeatherApiKey) ==> WeatherApiKey(env) == env.openWeatherApiKey
  {
  }
}
