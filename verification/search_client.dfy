/** The search tool (`darling_tools/google_search.py`): resolves its
    credentials, refuses an unusable configuration or a blank query before
    any request, sends one Custom Search request and turns the outcome into a
    reply text. It never raises: every failure becomes a reply. */
module SearchClient {
  import opened Optional
  import opened PyStr
  import opened Environment
  import opened Provider
  import opened Listing

  const ConfigReply := "❌ Google Search API key ಅಥವಾ CSE ID ಸಿಗಲಿಲ್ಲ!"
  const BlankQueryReply := "❌ Search query ಖಾಲಿ ಇದೆ!"
  const TimeoutReply := "❌ Search service timeout ಆಗಿದೆ. ಮತ್ತೆ ಪ್ರಯತ್ನಿಸಿ."
  const UnknownError := "Unknown error"

  /** The reply for a failed request: it carries the error's text and is
      never mistaken for the timeout reply. */
  function RequestErrorReply(reason: string): (reply: string)
    ensures reply != TimeoutReply && Contains(reply, reason)
  {
    Prefixed("❌ Search service error: ", reason, TimeoutReply, 17);
    "❌ Search service error: " + reason
  }
  function ProviderErrorReply(message: Shown): string { "❌ Search error: " + message }
  function NoResultsReply(query: string): string { "🔍 '" + query + "'ಗೆ ಯಾವುದೇ ಫಲಿತಾಂಶ ಸಿಕ್ಕಿಲ್ಲ 🤷‍♂️" }
  function ResultsHeader(query: string): string { "🔍 '" + query + "'ಗೆ ಫಲಿತಾಂಶಗಳು:\n\n" }

  /** The reply for a decoded response: a provider error wins over any items,
      then a missing or empty item list, then the rendered listing. */
  function Interpret(query: string, data: SearchData): (reply: string)
    ensures data.error.Some? ==> reply == ProviderErrorReply(data.error.value.message.GetOr(UnknownError))
    ensures data.error.None? && data.items.GetOr([]) == [] ==>
      reply == NoResultsReply(query) && Contains(reply, query)
    ensures data.error.None? && data.items.GetOr([]) != [] ==>
      Trimmed(reply) && reply == ResultsHeader(query) + RStrip(Blocks(data.items.value, FirstNumber))
  {
    if data.error.Some? then
      ProviderErrorReply(data.error.value.message.GetOr(UnknownError))
    else
      var items := data.items.GetOr([]);
      if items == [] then
        ContainsMiddle("🔍 '", query, "'ಗೆ ಯಾವುದೇ ಫಲಿತಾಂಶ ಸಿಕ್ಕಿಲ್ಲ 🤷‍♂️");
        NoResultsReply(query)
      else
        Render(ResultsHeader(query), items)
  }

  /** The reply for each network outcome: a timeout and any other request
      failure get distinct replies, the latter naming the error. */
  function Answer(query: string, response: Outcome<SearchData>): (reply: string)
    ensures response.Timeout? <==> reply == TimeoutReply && !response.Received?
    ensures response.RequestError? ==> Contains(reply, response.reason)
    ensures response.Received? ==> reply == Interpret(query, response.data)
  {
    match response
    case Timeout => TimeoutReply
    case RequestError(reason) => RequestErrorReply(reason)
    case Received(data) => Interpret(query, data)
  }

  /** `google_search(query)`, with the environment and the provider's
      response to the request passed in. The credential check comes first,
      then the blank-query check; neither sends anything. */
  function GoogleSearch(env: Env, query: string, response: Outcome<SearchData>): (c: Call<string>)
    ensures !SearchConfigured(env) ==> c == Call(None, ConfigReply)
    ensures SearchConfigured(env) && Strip(query) == [] ==> c == Call(None, BlankQueryReply)
    ensures c.sent.Some? <==> SearchConfigured(env) && Strip(query) != []
    ensures c.sent.Some? ==>
      c.sent.value == SearchRequestFor(SearchApiKey(env).value, SearchEngineId(env).value, Strip(query))
      && c.result == Answer(query, response)
  {
    var key := SearchApiKey(env);
    var cx := SearchEngineId(env);
    if !Truthy(key) || !Truthy(cx) then
      Call(None, ConfigReply)
    else if Strip(query) == [] then
      Call(None, BlankQueryReply)
    else
      Call(Some(SearchRequestFor(key.value, cx.value, Strip(query))),
           Answer(query, response))
  }

  /** A query that is only whitespace never reaches the provider, however the
      credentials are set, and the configuration error is reported first. */
  lemma GuardsBeforeRequest(env: Env, query: string, r1: Outcome<SearchData>, r2: Outcome<SearchData>)
    ensures Strip(query) == [] ==> GoogleSearch(env, query, r1).sent == None
    ensures !SearchConfigured(env) ==> GoogleSearch(env, query, r1).result == ConfigReply
    ensures GoogleSearch(env, query, r1).sent == None ==> GoogleSearch(env, query, r1) == GoogleSearch(env, query, r2)
  {
  }
}
