/** The `/talk` route of `main.py` and its time-of-day greeting. The query
    is lower-cased and stripped, refused when blank, then classified by
    substring tests in a fixed order (weather, search, greeting, fallback);
    the weather and search branches call the `/weather` and `/search` route
    functions directly, so their 503 propagates to the caller. */
module Router {
  import opened Optional
  import opened PyStr
  import opened Environment
  import opened Provider
  import opened Endpoints

  /** The `/talk` body; `language` defaults to "en" and plays no part. */
  datatype Message = Message(query: string, language: string)

  const EmptyQueryDetail := "Query cannot be empty"
  const SpecifySearchReply := "Please specify what you want to search for."
  const GreetingTail := " Darling reporting in! How can I help you?"
  const FallbackPieces := ["I received: '", "' — I'm still learning how to handle that. Try asking about weather, search, or just say hello! 😊"]

  const Morning := "Good morning!"
  const Afternoon := "Good afternoon!"
  const Evening := "Good evening!"

  // ---------------------------------------------------------------- greeting

  /** `get_greeting()` for the clock's current hour: morning before noon,
      afternoon until five, evening from then on. */
  function Greeting(hour: int): (g: string)
    ensures g == Morning <==> hour < 12
    ensures g == Afternoon <==> 12 <= hour < 17
    ensures g == Evening <==> 17 <= hour
  {
    if hour < 12 then Morning else if hour < 17 then Afternoon else Evening
  }

  // ---------------------------------------------------------- classification

  const WeatherWords := ["weather", "climate", "temperature"]
  const SearchWords := ["search", "google", "find"]
  const GreetingWords := ["hello", "hi", "hey", "namaste"]

  datatype Intent = AskWeather | AskSearch | Greet | Unknown

  /** `any(word in text for word in words)`. */
  predicate Mentions(text: string, words: seq<string>) {
    exists k | 0 <= k < |words| :: Contains(text, words[k])
  }

  /** The order in which the branches are tried. */
  function Priority(i: Intent): nat {
    match i
    case AskWeather => 0
    case AskSearch => 1
    case Greet => 2
    case Unknown => 3
  }

  /** The keyword test that admits a branch; the fallback admits anything. */
  predicate Admits(text: string, i: Intent) {
    match i
    case AskWeather => Mentions(text, WeatherWords)
    case AskSearch => Mentions(text, SearchWords)
    case Greet => Mentions(text, GreetingWords)
    case Unknown => true
  }

  /** First match wins: the chosen branch admits the text, and no branch
      tried before it does. */
  function Classify(text: string): (i: Intent)
    ensures Admits(text, i)
    ensures forall j :: Priority(j) < Priority(i) ==> !Admits(text, j)
  {
    if Mentions(text, WeatherWords) then AskWeather
    else if Mentions(text, SearchWords) then AskSearch
    else if Mentions(text, GreetingWords) then Greet
    else Unknown
  }

  // -------------------------------------------------------------------- city

  const DefaultCity := "Bangalore"
  const CityMarkers := ["in", "for", "at"]

  /** Word `i` is a marker with a word after it. */
  predicate Marks(words: seq<string>, i: int) {
    0 <= i && i + 1 < |words| && words[i] in CityMarkers
  }

  /** The first marking index at or after `from`. */
  function FirstMark(words: seq<string>, from: nat): (k: Option<nat>)
    requires from <= |words|
    ensures k.Some? ==>
      from <= k.value && Marks(words, k.value)
      && forall j :: from <= j < k.value ==> !Marks(words, j)
    ensures k.None? ==> forall j :: from <= j < |words| ==> !Marks(words, j)
    decreases |words| - from
  {
    if from == |words| then None
    else if Marks(words, from) then Some(from)
    else FirstMark(words, from + 1)
  }

  /** The city of a weather query: the word after the first marker, title-cased,
      or Bangalore when no marker has a word after it. */
  function CityOf(text: string): (city: string)
    ensures forall i :: Marks(Split(text), i) && (forall j :: 0 <= j < i ==> !Marks(Split(text), j)) ==>
      city == Title(Split(text)[i + 1])
    ensures (forall j :: 0 <= j < |Split(text)| ==> !Marks(Split(text), j)) ==> city == DefaultCity
  {
    var words := Split(text);
    match FirstMark(words, 0)
    case Some(i) => Title(words[i + 1])
    case None => DefaultCity
  }

  // ------------------------------------------------------------ search terms

  /** `for word in words: text = text.replace(word, "").strip()`. The result
      is stripped, no longer than the text, and a stripped text without any
      of the words comes back unchanged. */
  function StripWords(text: string, words: seq<string>): (r: string)
    ensures |r| <= |text|
    ensures words != [] ==> Trimmed(r)
    ensures Trimmed(text) && (forall k :: 0 <= k < |words| ==> !Contains(text, words[k])) ==> r == text
    decreases |words|
  {
    if words == [] then text
    else
      var next := Strip(RemoveAll(text, words[0]));
      if Trimmed(text) && !Contains(text, words[0]) then
        RemoveAbsent(text, words[0]);
        StripTrimmed(text);
        StripWords(next, words[1..])
      else
        StripWords(next, words[1..])
  }

  /** A keyword that occurs is really taken out: the first word of the list,
      when present, costs the text at least its length. */
  lemma StripWordsRemoves(text: string, words: seq<string>)
    requires words != [] && words[0] != [] && Contains(text, words[0])
    ensures |StripWords(text, words)| + |words[0]| <= |text|
  {
    var removed := RemoveAll(text, words[0]);
    RemovePresent(text, words[0]);
    StripNoLonger(removed);
  }

  function SearchTerms(text: string): string {
    StripWords(text, SearchWords)
  }

  // ------------------------------------------------------------------- /talk

  function FallbackReply(query: string): (reply: string)
    ensures Contains(reply, query)
  {
    FormatInOrder(FallbackPieces, [query]);
    InOrderContains(Format(FallbackPieces, [query]), [query]);
    Format(FallbackPieces, [query])
  }

  /** The branch taken for a lower-cased, stripped query `text`; `query` is
      the query as received, which the fallback reply echoes. Weather and
      search go through the route functions; greeting and fallback send
      nothing; a search branch never reaches the route's 400, because the
      terms it passes are stripped and non-empty. */
  function Dispatch(text: string, query: string, hour: int, env: Env,
                    weather: Outcome<WeatherData>, search: Outcome<SearchData>): (c: Call<Response>)
    ensures Classify(text) == AskWeather ==> c == GetWeather(env, CityOf(text), weather)
    ensures Classify(text) == AskSearch && SearchTerms(text) == [] ==> c == Call(None, Reply(SpecifySearchReply))
    ensures Classify(text) == AskSearch && SearchTerms(text) != [] ==> c == GoogleSearch(env, SearchTerms(text), search)
    ensures Classify(text) == Greet ==> c == Call(None, Reply(Greeting(hour) + GreetingTail))
    ensures Classify(text) == Unknown ==> c.sent == None && c.result.Reply? && Contains(c.result.text, query)
    ensures c.result.HttpError? ==> c.result.status == ServiceUnavailable
  {
    match Classify(text)
    case AskWeather => GetWeather(env, CityOf(text), weather)
    case AskSearch =>
      var terms := SearchTerms(text);
      if terms == [] then
        Call(None, Reply(SpecifySearchReply))
      else
        StripTrimmed(terms);
        GoogleSearch(env, terms, search)
    case Greet => Call(None, Reply(Greeting(hour) + GreetingTail))
    case Unknown => Call(None, Reply(FallbackReply(query)))
  }

  /** `POST /talk`, with the clock hour, the environment and the provider
      responses the branch would receive passed in. A query that is blank
      once lower-cased and stripped is refused with 400 before anything else;
      the only statuses that can come back are 400 and 503. */
  function Talk(msg: Message, hour: int, env: Env,
                weather: Outcome<WeatherData>, search: Outcome<SearchData>): (c: Call<Response>)
    ensures Strip(Lower(msg.query)) == [] ==> c == Call(None, HttpError(BadRequest, EmptyQueryDetail))
    ensures Strip(Lower(msg.query)) != [] ==>
      c == Dispatch(Strip(Lower(msg.query)), msg.query, hour, env, weather, search)
    ensures c.result.HttpError? ==> c.result.status in {BadRequest, ServiceUnavailable}
  {
    var text := Strip(Lower(msg.query));
    if text == [] then Call(None, HttpError(BadRequest, EmptyQueryDetail))
    else Dispatch(text, msg.query, hour, env, weather, search)
  }

  // ---------------------------------------------------------------- examples

  lemma SplitWeatherInTokyo()
    ensures Split("weather in tokyo") == ["weather", "in", "tokyo"]
  {
    var words := ["weather", "in", "tokyo"];
    assert IsWord(words[0]) && IsWord(words[1]) && IsWord(words[2]);
    assert JoinWords(words) == "weather in tokyo";
    SplitJoinWords(words);
  }

  lemma FirstMarkInTokyo()
    ensures FirstMark(["weather", "in", "tokyo"], 0) == Some(1)
  {
    var words := ["weather", "in", "tokyo"];
    assert !Marks(words, 0) && Marks(words, 1);
  }

  /** The word after the first marker is the city, title-cased. */
  lemma CityAfterMarker()
    ensures CityOf("weather in tokyo") == "Tokyo"
  {
    var words := ["weather", "in", "tokyo"];
    calc {
      CityOf("weather in tokyo");
    == { SplitWeatherInTokyo(); FirstMarkInTokyo(); }
      Title(words[2]);
    == { TitleTokyo(); }
      "Tokyo";
    }
  }

  lemma TitleTokyo()
    ensures Title("tokyo") == "Tokyo"
  {
    var r := Title("tokyo");
    assert r[0] == 'T' && r[1] == 'o' && r[2] == 'k' && r[3] == 'y' && r[4] == 'o';
  }

  /** Keywords are found as substrings, not words: "this" holds "hi" and is
      taken for a greeting. */
  lemma SubstringGreets()
    ensures Classify("this") == Greet
  {
    assert OccursAt("this", "hi", 1);
    assert Contains("this", GreetingWords[1]);
    forall k | 0 <= k < |WeatherWords| ensures !Contains("this", WeatherWords[k]) {
      NotContainsShort("this", WeatherWords[k]);
    }
    forall k | 0 <= k < |SearchWords| ensures !Contains("this", SearchWords[k]) {
      NotContainsShort("this", SearchWords[k]);
    }
  }

  /** "hello" holds a greeting keyword and no weather or search keyword. */
  lemma HelloGreets()
    ensures Classify("hello") == Greet
  {
    assert Contains("hello", GreetingWords[0]) by {
      assert OccursAt("hello", "hello", 0);
    }
    forall k | 0 <= k < |WeatherWords| ensures !Contains("hello", WeatherWords[k]) {
      NotContainsShort("hello", WeatherWords[k]);
    }
    NotContainsShort("hello", "search");
    NotContainsShort("hello", "google");
    assert !Contains("hello", "find") by {
      assert "hello"[0..4][0] != 'f' && "hello"[1..5][0] != 'f';
    }
    assert !Mentions("hello", SearchWords);
  }

  /** One round of the keyword loop. */
  lemma StripWordsStep(text: string, words: seq<string>)
    requires words != []
    ensures StripWords(text, words) == StripWords(Strip(RemoveAll(text, words[0])), words[1..])
  {
  }

  /** The keyword goes and the rest is kept: "search cats" searches for "cats". */
  lemma SearchCats()
    ensures SearchTerms("search cats") == "cats"
  {
    var s := "search cats";
    var rest := ["google", "find"];
    assert SearchWords[1..] == rest;
    calc {
      SearchTerms(s);
      { StripWordsStep(s, SearchWords); }
      StripWords(Strip(RemoveAll(s, "search")), rest);
      { RemoveFirst(s, "search", 0); assert s[6..] == " cats"; }
      StripWords(Strip(" cats"), rest);
      { StripCats(); }
      StripWords("cats", rest);
      { KeepsCats(); }
      "cats";
    }
  }

  lemma StripCats()
    ensures Strip(" cats") == "cats"
  {
    StripSpaceBefore("cats");
    assert " " + "cats" == " cats";
  }

  lemma KeepsCats()
    ensures StripWords("cats", ["google", "find"]) == "cats"
  {
    var rest := ["google", "find"];
    NotContainsShort("cats", "google");
    NotContainsShort("cats", "find");
    assert Trimmed("cats");
    assert forall k :: 0 <= k < |rest| ==> !Contains("cats", rest[k]);
  }

  lemma RemoveSearchFromGoogleSearch()
    ensures RemoveAll("google search", "search") == "google "
  {
    var s := "google search";
    assert s[..7] == "google ";
    AbsentBefore(s, "search", 7);
    RemoveFirst(s, "search", 7);
    assert s[13..] == [];
  }

  lemma GoogleLeavesNothing()
    ensures StripWords("google", ["google", "find"]) == []
  {
    RemoveFirst("google", "google", 0);
    assert "google"[6..] == [];
    StripWordsStep("google", ["google", "find"]);
    assert ["google", "find"][1..] == ["find"];
  }

  /** Only keywords: "google search" leaves no search terms. */
  lemma GoogleSearchTerms()
    ensures SearchTerms("google search") == []
  {
    var s := "google search";
    var rest := ["google", "find"];
    assert SearchWords[1..] == rest;
    calc {
      SearchTerms(s);
      { StripWordsStep(s, SearchWords); }
      StripWords(Strip(RemoveAll(s, "search")), rest);
      { RemoveSearchFromGoogleSearch(); }
      StripWords(Strip("google "), rest);
      { StripGoogle(); }
      StripWords("google", rest);
      { GoogleLeavesNothing(); }
      [];
    }
  }

  lemma StripGoogle()
    ensures Strip("google ") == "google"
  {
    StripSpaceAfter("google");
    assert "google" + " " == "google ";
  }

  /** "google search" is a search with nothing to search for: it is asked to
      name its terms, and nothing is sent. */
  lemma NothingToSearch(hour: int, env: Env, weather: Outcome<WeatherData>, search: Outcome<SearchData>)
    ensures Dispatch("google search", "google search", hour, env, weather, search)
      == Call(None, Reply(SpecifySearchReply))
  {
    var s := "google search";
    assert s[..7] == "google ";
    AbsentBefore(s, "weather", 7);
    AbsentBefore(s, "climate", 7);
    AbsentBefore(s, "temperature", 3);
    assert !Mentions(s, WeatherWords);
    assert OccursAt(s, "google", 0);
    assert Contains(s, SearchWords[1]);
    GoogleSearchTerms();
  }

  /** A morning "Hello" is lower-cased, answered with the morning greeting,
      and sends nothing. */
  lemma MorningHello(env: Env, weather: Outcome<WeatherData>, search: Outcome<SearchData>)
    ensures Talk(Message("Hello", "en"), 9, env, weather, search) == Call(None, Reply(Morning + GreetingTail))
  {
    var u := Lower("Hello");
    assert u[0] == 'h' && u[1] == 'e' && u[2] == 'l' && u[3] == 'l' && u[4] == 'o';
    assert u == "hello";
    StripTrimmed("hello");
    HelloGreets();
  }
}
