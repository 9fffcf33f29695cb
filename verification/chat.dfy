/** The chat handler (`POST /api/chat`): a weather question answered from
    the weather endpoint, anything else answered by the model with optional
    NewsAPI headlines as context. */
module Chat {
  import opened Base
  import opened Strings
  import Context
  import WeatherQuery

  datatype ChatResponse =
    | Failure(status: nat, error: string)
    | Answer(answer: string)

  /** The weather endpoint's reply body; each field is already rendered as
      the template literal would show it. */
  datatype WeatherReport = WeatherReport(
    city: Option<string>,
    tempC: Option<string>,
    feelsLikeC: Option<string>,
    description: Option<string>,
    humidity: Option<string>,
    windKph: Option<string>)

  /** The weather call's outcome: `r.ok` and the decoded body. */
  datatype WeatherReply = WeatherReply(ok: bool, body: WeatherReport)

  const ModelName: string := "gemini-1.5-flash"
  const NewsPageSize: nat := 5
  const NoAnswer: string := "I couldn't find an answer."
  const PromptRules: string :=
    "You are a concise news assistant. Use the context if helpful. If context is empty, still answer from current events knowledge and say when uncertain. Keep answers under 6 sentences.\nUser question: "
  const ContextHeading: string := "\n\nContext:\n"

  /** `String(query || "")`: the text the weather pattern is run on. */
  function QueryText(query: Option<string>): string {
    match query
    case None => ""
    case Some(s) => s
  }

  /** The one-line weather answer. */
  function WeatherAnswer(w: WeatherReport): string {
    "Weather in " + Show(w.city) + ": " + Show(w.tempC) + "\U{B0}C (feels " + Show(w.feelsLikeC)
    + "\U{B0}C), " + Show(w.description) + ". Humidity " + Show(w.humidity) + "%, Wind "
    + Show(w.windKph) + " km/h."
  }

  function Prompt(query: Option<string>, context: string): string {
    PromptRules + Show(query) + ContextHeading + context
  }

  /** The prompt carries the question as sent (a missing one as
      "undefined") and ends with the context section. */
  lemma PromptShape(query: Option<string>, context: string)
    ensures PromptRules <= Prompt(query, context)
    ensures Contains(Prompt(query, context), Show(query))
    ensures EndsWith(Prompt(query, context), ContextHeading + context)
  {
    Frame(PromptRules, Show(query), "", "", ContextHeading, context);
    assert PromptRules + Show(query) + "" + "" + ContextHeading + context == Prompt(query, context);
  }

  /** Headline retrieval: only with a NewsAPI key and a string question;
      a failed search leaves the context empty. */
  function Headlines(env: Env, query: Option<string>, news: Fetched<seq<Context.NewsApiArticle>>): (g: (string, seq<Call>))
    ensures g.1 != [] <==> Has(env.newsApi) && query.Some?
    ensures g.1 != [] ==> query.Some? && g.1 == [NewsApiSearch(query.value, None, NewsPageSize)]
    ensures g.1 == [] || news.Threw? ==> g.0 == ""
    ensures g.1 != [] && news.Got? ==> g.0 == Context.ChatContext(news.value)
  {
    if Has(env.newsApi) && query.Some? then
      var context := match news
        case Threw => ""
        case Got(items) => Context.ChatContext(items);
      (context, [NewsApiSearch(query.value, None, NewsPageSize)])
    else ("", [])
  }

  /** The model's answer, or the fixed apology when it is absent or empty. */
  function ReadReply(reply: Fetched<Option<string>>): (r: ChatResponse)
    ensures reply.Threw? <==> r == Failure(500, "Internal server error")
    ensures r.Answer? ==> r.answer != ""
    ensures reply.Got? && reply.value.Some? && reply.value.value != "" ==> r == Answer(reply.value.value)
    ensures reply.Got? ==> r.Answer?
    ensures reply.Got? && (reply.value.None? || reply.value.value == "") ==> r == Answer(NoAnswer)
  {
    match reply
    case Threw => Failure(500, "Internal server error")
    case Got(None) => Answer(NoAnswer)
    case Got(Some(text)) => Answer(if text == "" then NoAnswer else text)
  }

  /** The model path, after the weather shortcut did not answer. */
  function AskModel(env: Env, query: Option<string>, news: Fetched<seq<Context.NewsApiArticle>>,
                    reply: Fetched<Option<string>>): (h: Handled<ChatResponse>)
    ensures |h.calls| >= 1 && h.calls[|h.calls| - 1].ModelRequest?
    ensures var m := h.calls[|h.calls| - 1];
      m.model == ModelName && !m.jsonMode && Contains(m.prompt, Show(query))
    ensures h.response == ReadReply(reply)
    ensures var g := Headlines(env, query, news);
      h.calls == g.1 + [ModelRequest(ModelName, Prompt(query, g.0), false)]
  {
    var g := Headlines(env, query, news);
    PromptShape(query, g.0);
    Handled(ReadReply(reply), g.1 + [ModelRequest(ModelName, Prompt(query, g.0), false)])
  }

  /** The model path never calls the weather endpoint. */
  lemma AskModelNoLookup(env: Env, query: Option<string>, news: Fetched<seq<Context.NewsApiArticle>>,
                         reply: Fetched<Option<string>>)
    ensures var calls := AskModel(env, query, news, reply).calls;
      forall i :: 0 <= i < |calls| ==> !calls[i].WeatherLookup?
  {
    var g := Headlines(env, query, news);
    var ask := ModelRequest(ModelName, Prompt(query, g.0), false);
    assert AskModel(env, query, news, reply).calls == g.1 + [ask];
    assert g.1 == [] || g.1[0].NewsApiSearch?;
  }

  /** `POST /api/chat`. `request` is the body's `query` (`Threw` when the
      body is not JSON); `weather`, `news` and `reply` are the outcomes of
      the three fetches. */
  function Chat(request: Fetched<Option<string>>, env: Env, weather: Fetched<WeatherReply>,
                news: Fetched<seq<Context.NewsApiArticle>>, reply: Fetched<Option<string>>): (h: Handled<ChatResponse>)
    ensures request.Threw? ==> h == Handled(Failure(500, "Internal server error"), [])
    ensures request.Got? && !Has(env.gemini) ==> h == Handled(Failure(500, "Missing GEMINI_API_KEY"), [])
    ensures request.Got? && Has(env.gemini) && WeatherQuery.City(QueryText(request.value)).Some? && weather.Threw?
      ==> h == Handled(Failure(500, "Internal server error"), [WeatherLookup(WeatherQuery.City(QueryText(request.value)).value)])
  {
    match request
    case Threw => Handled(Failure(500, "Internal server error"), [])
    case Got(query) =>
      if !Has(env.gemini) then Handled(Failure(500, "Missing GEMINI_API_KEY"), [])
      else match WeatherQuery.City(QueryText(query))
        case None => AskModel(env, query, news, reply)
        case Some(city) =>
          var lookup := [WeatherLookup(city)];
          match weather
          case Threw => Handled(Failure(500, "Internal server error"), lookup)
          case Got(w) =>
            if w.ok then Handled(Answer(WeatherAnswer(w.body)), lookup)
            else
              var m := AskModel(env, query, news, reply);
              Handled(m.response, lookup + m.calls)
  }

  /** A weather question whose lookup succeeds is answered from the lookup
      alone: one call, no headlines, no model. */
  lemma WeatherShortCircuit(query: Option<string>, env: Env, w: WeatherReply,
                            news: Fetched<seq<Context.NewsApiArticle>>, reply: Fetched<Option<string>>)
    requires Has(env.gemini) && WeatherQuery.City(QueryText(query)).Some? && w.ok
    ensures Chat(Got(query), env, Got(w), news, reply)
         == Handled(Answer(WeatherAnswer(w.body)), [WeatherLookup(WeatherQuery.City(QueryText(query)).value)])
  {
  }

  /** The weather endpoint is called exactly for weather questions, and
      first. */
  lemma LookupOnlyForWeather(request: Fetched<Option<string>>, env: Env, weather: Fetched<WeatherReply>,
                             news: Fetched<seq<Context.NewsApiArticle>>, reply: Fetched<Option<string>>)
    requires request.Got? && Has(env.gemini)
    ensures var h := Chat(request, env, weather, news, reply);
      var city := WeatherQuery.City(QueryText(request.value));
      && (city.Some? ==> h.calls[0] == WeatherLookup(city.value))
      && (city.None? ==> forall i :: 0 <= i < |h.calls| ==> !h.calls[i].WeatherLookup?)
  {
    var query := request.value;
    if WeatherQuery.City(QueryText(query)).None? {
      assert Chat(request, env, weather, news, reply) == AskModel(env, query, news, reply);
      AskModelNoLookup(env, query, news, reply);
    }
  }

  /** Whenever the model is asked, the answer is never empty, and the
      question reaches the model's prompt. */
  lemma ModelPath(request: Fetched<Option<string>>, env: Env, weather: Fetched<WeatherReply>,
                  news: Fetched<seq<Context.NewsApiArticle>>, reply: Fetched<Option<string>>)
    requires request.Got? && Has(env.gemini)
    requires WeatherQuery.City(QueryText(request.value)).None? || (weather.Got? && !weather.value.ok)
    ensures var h := Chat(request, env, weather, news, reply);
      && h.response == ReadReply(reply)
      && h.calls != [] && h.calls[|h.calls| - 1].ModelRequest?
      && Contains(h.calls[|h.calls| - 1].prompt, Show(request.value))
  {
    var h := Chat(request, env, weather, news, reply);
    var m := AskModel(env, request.value, news, reply);
    var pre := if WeatherQuery.City(QueryText(request.value)).Some?
               then [WeatherLookup(WeatherQuery.City(QueryText(request.value)).value)] else [];
    FallsThrough(request, env, weather, news, reply);
    assert h.calls == pre + m.calls;
    assert h.calls[|h.calls| - 1] == m.calls[|m.calls| - 1];
  }

  /** Past the shortcut, the handler answers as the model path does, and its
      calls are the weather lookup, if one was made, followed by exactly the
      model path's calls. */
  lemma FallsThrough(request: Fetched<Option<string>>, env: Env, weather: Fetched<WeatherReply>,
                     news: Fetched<seq<Context.NewsApiArticle>>, reply: Fetched<Option<string>>)
    requires request.Got? && Has(env.gemini)
    requires WeatherQuery.City(QueryText(request.value)).None? || (weather.Got? && !weather.value.ok)
    ensures var h := Chat(request, env, weather, news, reply);
      var m := AskModel(env, request.value, news, reply);
      var city := WeatherQuery.City(QueryText(request.value));
      && h.response == m.response
      && h.calls == (if city.Some? then [WeatherLookup(city.value)] else []) + m.calls
  {
    var m := AskModel(env, request.value, news, reply);
    var h := Chat(request, env, weather, news, reply);
    match WeatherQuery.City(QueryText(request.value))
    case None =>
      assert h == m;
    case Some(city) =>
      assert h == Handled(m.response, [WeatherLookup(city)] + m.calls);
  }

  /** Every answer the handler gives is non-empty. */
  lemma AnswersNonEmpty(request: Fetched<Option<string>>, env: Env, weather: Fetched<WeatherReply>,
                        news: Fetched<seq<Context.NewsApiArticle>>, reply: Fetched<Option<string>>)
    ensures var h := Chat(request, env, weather, news, reply);
      h.response.Answer? ==> h.response.answer != ""
  {
  }
}
