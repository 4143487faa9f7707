# Darling backend: intent router, weather and search

A Dafny model of the request-handling core of the Darling assistant backend.
The backend is a FastAPI service. Its `POST /talk` route lower-cases and
strips the user's query. It classifies the query by keyword and hands it to
the weather route, the search route, a greeting or a fallback reply.
`GET /weather` and `GET /search` call OpenWeather and Google Custom Search.
The two helper tools in `darling_tools/` do the same lookups, with their own
(Kannada) reply texts and without HTTP errors.

The model is pure functions over immutable data:

- `optional.dfy` (`Optional`): `Option` and `Result`.
- `pystr.dfy` (`PyStr`): the Python `str` operations the code relies on.
  - `isspace`, `strip`, `lstrip`, `rstrip`, `split()`, `lower`, `title`.
  - Substring `in` and `replace(w, "")`.
  - `str(int)`, `split("\n")` and f-strings (`Format`).
- `environment.dfy` (`Environment`): the six credential variables and the
  `os.getenv(a) or os.getenv(b)` fallback.
- `provider.dfy` (`Provider`): what crosses the network.
  - The outbound request and its query parameters.
  - The outcome, modelled as a timeout, a `requests` error, or a decoded JSON body.
  - Decoded bodies whose missing keys are `None`.
  - The `KeyError`/`IndexError` a field access raises.
- `listing.dfy` (`Listing`): the numbered result listing shared by both
  search implementations.
- `weather_client.dfy` (`WeatherClient`): `darling_tools/weather.py`.
- `search_client.dfy` (`SearchClient`): `darling_tools/google_search.py`.
- `endpoints.dfy` (`Endpoints`): the `/weather` and `/search` routes of `main.py`.
- `router.dfy` (`Router`): `get_greeting` and the `/talk` route of `main.py`.

Every operation that would touch the network takes the provider's outcome as
a parameter. It returns a `Call`: the request it sent (`None` when it sent
nothing) together with its result. So "no request is sent when the key is
missing" is stated as `c.sent == None`. The clock hour and the environment
are parameters too.

A route's `HTTPException` is the `HttpError(status, detail)` arm of
`Endpoints.Response`. `/talk` calls the route functions directly, so a 503
from them reaches the `/talk` caller unchanged. The route's `except
HTTPException: raise` does exactly that.

## Model

| member | source | states |
|---|---|---|
| Environment.FirstTruthy | main.py:14-16 | `a or b` on two optional variables: the result is usable exactly when one of the two is, and the primary name wins whenever it is set and non-empty |
| Environment.CredentialFallback | darling_tools/google_search.py:10-11 | each credential resolves exactly when its current or legacy variable is non-empty, and the current name wins when both are |
| Router.Greeting | main.py:28-35 | "Good morning!" exactly before 12, "Good afternoon!" exactly from 12 to 16, "Good evening!" exactly from 17 on |
| Router.Classify | main.py:57-85 | the chosen branch's keyword test holds, and no branch tried earlier (weather, then search, then greeting) has a keyword in the text |
| Router.FirstMark | main.py:62-65 | the index returned is a marker word ("in", "for", "at") with a word after it, and no earlier index is; `None` means no index is |
| Router.CityOf | main.py:59-65 | the city is the title-cased word after the first marker that has a following word, and Bangalore when there is none |
| Router.StripWords | main.py:70-72 | the repeated `replace(word, "").strip()` yields stripped text no longer than its input, and gives a stripped text back unchanged when none of the words occurs in it |
| Router.StripWordsRemoves | main.py:70-72 | when the first keyword occurs in the text, the search terms are shorter than the text by at least that keyword's length |
| Router.SearchCats | main.py:69-75 | "search cats" searches for "cats": the keyword goes and the rest stays |
| Router.GoogleSearchTerms | main.py:70-73 | "google search" leaves no search terms once both keywords are removed |
| Router.NothingToSearch | main.py:69-74 | "google search" is a search query, gets the "Please specify what you want to search for." reply, and sends nothing |
| Router.FallbackReply | main.py:82-85 | the fallback reply quotes the query as it was received |
| Router.Dispatch | main.py:57-85 | weather goes to the weather route with the extracted city; search with no terms left asks for terms and sends nothing; otherwise search goes to the search route with the terms; greeting and fallback send nothing; the only status a branch can raise is 503 |
| Router.Talk | main.py:49-90 | a query that is blank after lower-casing and stripping is refused with 400 before classification; otherwise the branch decides; the only statuses `/talk` can return are 400 and 503 |
| Router.CityAfterMarker | main.py:59-65 | "weather in tokyo" is answered for the city "Tokyo" |
| Router.SubstringGreets | main.py:78 | keywords match as substrings: "this" contains "hi" and is classified as a greeting |
| Router.MorningHello | main.py:49-79 | "Hello" at 9 o'clock gets the morning greeting and sends no request |
| Endpoints.AnswerWeather | main.py:101-128 | the reply is the timeout text exactly for a timeout; another request failure gets a different reply that names the error; a decoded body is interpreted |
| Endpoints.GetWeather | main.py:93-102 | 503 with no request when no key resolves; otherwise exactly one request with the city, the key and metric units, and a reply body whatever the outcome |
| Endpoints.RefusedReply | main.py:106-107 | the reply for a `cod` other than 200 names the city and the provider's message |
| Endpoints.ReadFullReport | main.py:109-113 | the strict reads fail with the fault of the first field that is missing, in source order; they succeed exactly when all nine accesses go through, giving the title-cased description and the raw values |
| Endpoints.DescribeFullOrder | main.py:115-119 | the success reply shows the city, condition, temperature, felt temperature, humidity and wind speed in that order |
| Endpoints.InterpretWeather | main.py:106-128 | a `cod` other than 200 wins over the field reads; a missing key gives the data-format reply with the quoted key; an empty `weather` list gives the generic reply with the index error's text |
| Endpoints.GoogleSearch | main.py:131-149 | 503 when either credential is missing, checked before the blank query's 400; neither sends a request; otherwise one request for the stripped query with `num` 3 and safe search on; an HTTP error is returned exactly when nothing was sent |
| Endpoints.AnswerSearch | main.py:148-172 | the reply is the timeout text exactly for a timeout; another request failure gets a different reply that names the error; a decoded body is interpreted |
| Endpoints.InterpretSearch | main.py:153-167 | a provider error wins over any items; a missing or empty item list gives the no-results reply naming the query; otherwise the header followed by the blocks, with only the trailing whitespace removed |
| WeatherClient.Answer | darling_tools/weather.py:18-42 | the reply is the timeout text exactly for a timeout; another request failure gets a different reply that names the error; a decoded body is interpreted |
| WeatherClient.GetWeather | darling_tools/weather.py:10-19 | without a key the key reply comes back and nothing is sent; otherwise exactly one request with the city, the key and metric units |
| WeatherClient.RefusedReply | darling_tools/weather.py:23-24 | the reply for a `cod` other than 200 names the city and the provider's message |
| WeatherClient.ReadReport | darling_tools/weather.py:29-32 | reading fails with the fault of the first failing access (`temp`, then the list's first element, then `description`) and succeeds exactly when all go through; `feels_like` falls back to the temperature and the humidity to "N/A" |
| WeatherClient.DescribeOrder | darling_tools/weather.py:34-37 | the success reply shows the city, description, temperature, felt temperature and humidity in that order |
| WeatherClient.Interpret | darling_tools/weather.py:23-46 | a `cod` other than 200 wins; a missing `main` or `weather` gives the incomplete reply; a missing key gives the data-format reply with the quoted key; an empty list gives the generic reply |
| SearchClient.GoogleSearch | darling_tools/google_search.py:10-26 | the configuration reply comes first, then the blank-query reply, and neither sends anything; otherwise one request for the stripped query with `num` 3 and safe search on |
| SearchClient.Interpret | darling_tools/google_search.py:33-50 | a provider error wins; no items gives the no-results reply naming the query; otherwise the stripped listing is the header followed by the blocks, with only their trailing whitespace removed |
| SearchClient.Answer | darling_tools/google_search.py:28-55 | the reply is the timeout text exactly for a timeout; another request failure gets a different reply that names the error; a decoded body is interpreted |
| SearchClient.GuardsBeforeRequest | darling_tools/google_search.py:13-17 | a whitespace-only query never reaches the provider, and a missing credential is reported whatever the query |
| Listing.Clip | darling_tools/google_search.py:45-47 | a snippet of at most 100 characters is unchanged; a longer one keeps its first 100 characters and gains "...", so it is at most 103 long |
| Listing.Render | darling_tools/google_search.py:41-50 | the listing has no whitespace at either end, and only the last block's trailing whitespace is cut |
| Listing.BlocksAreLines | main.py:160-167 | for any items, the blocks are the lines "number. title", link, clipped snippet and an empty line of each item in turn, each ended by a line feed |
| Listing.BlocksLayout | main.py:160-167 | when no title, link or snippet contains a line feed, read line by line, item `k` occupies lines `4k` to `4k+3`: its number `k+1` with its title, its link, its clipped snippet and a blank line |
| PyStr.Strip | main.py:52 | `strip()` leaves no whitespace at either end and removes only a whitespace prefix and suffix |
| PyStr.StripTrimmed | main.py:72 | stripping an already stripped text changes nothing |
| PyStr.SplitJoinWords | main.py:61 | `split()` recovers words joined by single spaces |
| PyStr.SplitKeepsVisible | main.py:61 | `split()` loses only whitespace: the words, concatenated, are the non-space characters in order |
| PyStr.TitleOnlyChangesCase | main.py:109 | `title()` changes letter case only |
| PyStr.RemoveAbsent | main.py:72 | `replace(w, "")` of a word that does not occur changes nothing |
| PyStr.RemoveFirst | main.py:72 | `replace(w, "")` keeps everything before the first occurrence of `w`, drops that occurrence and carries on after it; with PyStr.RemoveAbsent this fixes the result for every text |
| PyStr.RemovePresent | main.py:72 | a word that occurs is really removed: the text loses at least the word's length |
| PyStr.FormatInOrder | main.py:115-119 | an f-string shows its substituted values in order |
| PyStr.DecimalRoundTrip | main.py:165 | `str(i)` of the item number reads back as the same number |

## Left out

- HTTP, JSON decoding and FastAPI wiring are not modelled. The provider's answer is a parameter: a timeout, another `requests` error (connection failure, HTTP error status, an undecodable body), or a decoded body.
- The routes `/`, `/health` and `/greet`, and `darling_prompts.py`, are outside the modelled core.
- The 500 arm of `/talk` (`main.py:89-90`) is not modelled. No modelled step raises anything but `HTTPException`, so it cannot be reached in the model.
- The generic `except Exception` arms are not modelled, except for the `IndexError` of an empty `weather` list. Their other causes come from JSON values of the wrong type: a non-object `error`, a non-string `description` or snippet, a non-object body. Decoded data here is typed.
- A JSON key that is present with the value `null` is treated like an absent key. In Python, `.get` would return `None` and the reply would show "None", or `len(None)` would raise.
- Temperatures, humidity, wind speed, titles, links and provider messages are kept as the text `str()` gives for them (`Provider.Shown`). Floating point is not modelled.
- The search tool's `KeyError` arm is not modelled because no access in it can raise `KeyError`. Every item field is read with `.get`, and `data["error"]` is only read after `"error" in data`.
- No cap on the number of rendered results is modelled, because the code enforces none. `num: 3` is a request parameter only. Both search implementations render every item the provider returns, and so does the model.
- The `async` of the two tools is not modelled. Neither tool awaits anything, so each is a plain function here.
- `main.py` reads the environment once at import and the tools on every call. The model passes the environment to each call.
- The request's `language` field is carried but never read, as in the source.
- Listing.BlocksLayout: the four-lines-per-item reading needs titles, links and snippets without line feeds. A provider text with a line feed spreads over more lines. Listing.BlocksAreLines states the layout for every input.
- Router.StripWords: its own contract states bounds, trimming and the unchanged case. What the keyword loop removes is stated by Router.StripWordsRemoves, PyStr.RemoveFirst and PyStr.RemoveAbsent.
- PyStr.Lower: maps only ASCII letters. Python's `lower()` also maps non-ASCII letters, and the model leaves them unchanged.
- PyStr.Title: title-cases only ASCII letters, and only ASCII letters count as letters for word starts. Python's `title()` uses the Unicode letter classes.
- Router.Talk: a query containing letters that Python's `lower()` would map differently from the ASCII mapping may be classified differently. This follows from PyStr.Lower above.
