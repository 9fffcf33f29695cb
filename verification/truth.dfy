/** The fact-check handler (`POST /api/truth`): news context with a
    Wikipedia fallback, a dated prompt, and a two-tier reading of the model's
    answer (strict JSON passed through, otherwise a heuristic verdict,
    percentage split and explanation). */
module Truth {
  import opened Base
  import opened Strings
  import Json
  import Percent
  import Decimal
  import Context

  datatype Verdict = True | False | Uncertain

  /** The verdict's name in the JSON answer. */
  function VerdictName(v: Verdict): string {
    match v
    case True => "true"
    case False => "false"
    case Uncertain => "uncertain"
  }

  datatype TruthResponse =
    | Failure(status: nat, error: string)
      /** The model's JSON, returned as parsed, whatever its shape. */
    | Verbatim(parsed: Json.Json)
      /** The heuristic reading of an answer that is not JSON. */
    | Inferred(verdict: Verdict, explanation: string, truthPercent: int, falsePercent: int)

  const ModelName: string := "gemini-1.5-flash"
  const ExplanationLimit: nat := 400
  const NoArticles: string := "(no articles found)"

  /** The keyword verdict over the lower-cased answer. */
  function InferVerdict(text: string): (v: Verdict)
    ensures v == True <==> Contains(ToLower(text), "true") && !Contains(ToLower(text), "not true")
    ensures v == False <==> !(Contains(ToLower(text), "true") && !Contains(ToLower(text), "not true"))
                            && Contains(ToLower(text), "false")
  {
    var lower := ToLower(text);
    if Contains(lower, "true") && !Contains(lower, "not true") then True
    else if Contains(lower, "false") then False
    else Uncertain
  }

  /** The truth/false split from the first (at most two) percent tokens. */
  function PercentSplit(first: seq<nat>, v: Verdict): (p: (int, int))
    requires |first| <= 2
    ensures p.0 + p.1 == 100
    ensures |first| == 2 ==> p.0 >= first[0] && p.0 >= first[1] && (p.0 == first[0] || p.0 == first[1])
    ensures |first| == 1 ==> p.0 == Min(100, first[0])
    ensures |first| == 0 ==> p.0 == (match v case True => 70 case False => 30 case Uncertain => 50)
    ensures |first| < 2 ==> 0 <= p.0 <= 100 && 0 <= p.1 <= 100
  {
    if |first| == 2 then
      var t := Max(first[0], first[1]);
      (t, 100 - t)
    else if |first| == 1 then
      var t := Min(100, first[0]);
      (t, 100 - t)
    else
      var t := if v == True then 70 else if v == False then 30 else 50;
      (t, 100 - t)
  }

  /** `perc.slice(0, 2)`. */
  function FirstTwo(perc: seq<nat>): (r: seq<nat>)
    ensures |r| <= 2 && r <= perc
    ensures |r| == Min(2, |perc|)
  {
    perc[..Min(2, |perc|)]
  }

  /** The heuristic reading of a model answer that is not JSON. */
  function Infer(text: string): (r: TruthResponse)
    ensures r.Inferred?
    ensures r.verdict == InferVerdict(text)
    ensures r.truthPercent + r.falsePercent == 100
    ensures |r.explanation| <= ExplanationLimit && '\n' !in r.explanation
    ensures r.explanation <= CollapseNewlines(text)
    ensures |r.explanation| == Min(ExplanationLimit, |CollapseNewlines(text)|)
    ensures var m := Percent.Percents(text);
      && (|m| >= 2 ==> r.truthPercent == Max(m[0], m[1]))
      && (|m| == 1 ==> r.truthPercent == Min(100, m[0]))
      && (|m| == 0 ==> r.truthPercent == (match r.verdict case True => 70 case False => 30 case Uncertain => 50))
    ensures |Percent.Percents(text)| < 2 ==> 0 <= r.truthPercent <= 100 && 0 <= r.falsePercent <= 100
  {
    var verdict := InferVerdict(text);
    var split := PercentSplit(FirstTwo(Percent.Percents(text)), verdict);
    var explanation := Prefix(CollapseNewlines(text), ExplanationLimit);
    Inferred(verdict, explanation, split.0, split.1)
  }

  const PromptIntro: string := "Today is "
  const PromptRules: string :=
    ". You are a rigorous fact-checker. Prefer a decisive verdict when context supports it; otherwise return \"uncertain\". Use date reasoning (events before/after today).\n"
    + "Return strict JSON: { \"verdict\": \"true|false|uncertain\", \"explanation\": string (<=3 sentences), \"truthPercent\": 0-100 integer, \"falsePercent\": 0-100 integer } and ensure percentages sum to 100.\n"
    + "Statement: "
  const ContextHeading: string := "\n\nContext:\n"

  /** The prompt sent to the model. */
  function Prompt(today: string, statement: string, context: string): string {
    PromptIntro + today + PromptRules + statement + ContextHeading + (if context == "" then NoArticles else context)
  }

  /** The prompt always carries today's date and the statement, and its
      context section is the placeholder exactly when there is no context. */
  lemma PromptShape(today: string, statement: string, context: string)
    ensures Contains(Prompt(today, statement, context), today)
    ensures Contains(Prompt(today, statement, context), statement)
    ensures context == "" ==> EndsWith(Prompt(today, statement, context), ContextHeading + NoArticles)
    ensures context != "" ==> EndsWith(Prompt(today, statement, context), ContextHeading + context)
  {
    Frame(PromptIntro, today, PromptRules, statement, ContextHeading, if context == "" then NoArticles else context);
  }

  /** The news context: empty without a NewsAPI key or when the search
      threw; otherwise the articles' blocks. */
  function NewsContext(env: Env, news: Fetched<seq<Context.NewsApiArticle>>): string {
    if !Has(env.newsApi) then ""
    else match news
      case Threw => ""
      case Got(items) => Context.FactContext(items)
  }

  /** The Wikipedia context; empty when that search threw. */
  function WikiContext(wiki: Fetched<Context.WikiResult>): string {
    match wiki
    case Threw => ""
    case Got(w) => Context.WikiContext(w)
  }

  /** What the handler does with the model's reply. */
  function ReadReply(reply: Fetched<Option<string>>, parse: string -> Option<Json.Json>): TruthResponse {
    match reply
    case Threw => Failure(500, "Internal server error")
    case Got(None) => Failure(502, "No response from model")
    case Got(Some(text)) =>
      if text == "" then Failure(502, "No response from model")
      else match parse(text)
        case Some(j) => Verbatim(j)
        case None => Infer(text)
  }

  /** Context retrieval: the NewsAPI search when a key is set, then the
      Wikipedia search only when the news context came back empty. Returns
      the context and the searches made. */
  function Gather(env: Env, statement: string, fromDate: string,
                  news: Fetched<seq<Context.NewsApiArticle>>, wiki: Fetched<Context.WikiResult>): (g: (string, seq<Call>))
    ensures g.0 == (if NewsContext(env, news) == "" then WikiContext(wiki) else NewsContext(env, news))
    ensures forall i :: 0 <= i < |g.1| ==> g.1[i].NewsApiSearch? || g.1[i].WikiSearch?
    ensures (exists i :: 0 <= i < |g.1| && g.1[i].WikiSearch?) <==> NewsContext(env, news) == ""
    ensures forall i :: 0 <= i < |g.1| && g.1[i].WikiSearch? ==> g.1[i].query == Prefix(statement, 120)
    ensures Has(env.newsApi) <==> g.1 != [] && g.1[0] == NewsApiSearch(statement, Some(fromDate), 8)
    ensures forall i :: 0 < i < |g.1| ==> g.1[i].WikiSearch?
    ensures |g.1| == (if Has(env.newsApi) then 1 else 0) + (if NewsContext(env, news) == "" then 1 else 0)
  {
    var newsCalls := if Has(env.newsApi) then [NewsApiSearch(statement, Some(fromDate), 8)] else [];
    var newsContext := NewsContext(env, news);
    if newsContext == "" then
      var calls := newsCalls + [WikiSearch(Prefix(statement, 120))];
      assert calls[|newsCalls|].WikiSearch?;
      (WikiContext(wiki), calls)
    else
      (newsContext, newsCalls)
  }

  /** `POST /api/truth`. `request` is the decoded body's `statement`
      (`Threw` when the body is not JSON), `fromDate` and `today` are the
      clock readings, `news`, `wiki` and `reply` the outcomes of the three
      fetches and `parse` stands for `JSON.parse`. */
  function Check(request: Fetched<Option<string>>, env: Env, fromDate: string, today: string,
                 news: Fetched<seq<Context.NewsApiArticle>>, wiki: Fetched<Context.WikiResult>,
                 reply: Fetched<Option<string>>, parse: string -> Option<Json.Json>): (h: Handled<TruthResponse>)
    ensures request.Threw? ==> h == Handled(Failure(500, "Internal server error"), [])
    ensures request.Got? && !Has(env.gemini) ==> h == Handled(Failure(500, "Missing GEMINI_API_KEY"), [])
    ensures request.Got? && Has(env.gemini) ==>
      var g := Gather(env, Show(request.value), fromDate, news, wiki);
      && h.calls == g.1 + [ModelRequest(ModelName, Prompt(today, Show(request.value), g.0), true)]
      && Contains(h.calls[|h.calls| - 1].prompt, today)
      && Contains(h.calls[|h.calls| - 1].prompt, Show(request.value))
      && h.response == ReadReply(reply, parse)
  {
    match request
    case Threw => Handled(Failure(500, "Internal server error"), [])
    case Got(s) =>
      if !Has(env.gemini) then Handled(Failure(500, "Missing GEMINI_API_KEY"), [])
      else
        var statement := Show(s);
        var g := Gather(env, statement, fromDate, news, wiki);
        PromptShape(today, statement, g.0);
        Handled(ReadReply(reply, parse), g.1 + [ModelRequest(ModelName, Prompt(today, statement, g.0), true)])
  }

  /** The Wikipedia search runs exactly when the handler got past the key
      check and the news context is empty. */
  lemma WikiOnlyWhenNoNews(request: Fetched<Option<string>>, env: Env, fromDate: string, today: string,
                           news: Fetched<seq<Context.NewsApiArticle>>, wiki: Fetched<Context.WikiResult>,
                           reply: Fetched<Option<string>>, parse: string -> Option<Json.Json>)
    ensures var h := Check(request, env, fromDate, today, news, wiki, reply, parse);
      (exists i :: 0 <= i < |h.calls| && h.calls[i].WikiSearch?) <==>
        request.Got? && Has(env.gemini) && NewsContext(env, news) == ""
  {
    var h := Check(request, env, fromDate, today, news, wiki, reply, parse);
    if request.Got? && Has(env.gemini) {
      var g := Gather(env, Show(request.value), fromDate, news, wiki);
      if NewsContext(env, news) == "" {
        var i :| 0 <= i < |g.1| && g.1[i].WikiSearch?;
        assert h.calls[i] == g.1[i];
      } else {
        assert forall i :: 0 <= i < |h.calls| ==> !h.calls[i].WikiSearch? by {
          forall i | 0 <= i < |h.calls|
            ensures !h.calls[i].WikiSearch?
          {
            if i < |g.1| {
              assert h.calls[i] == g.1[i];
            }
          }
        }
      }
    }
  }

  /** A present, non-empty answer that parses is returned unchanged; one that
      does not parse is read heuristically; an absent or empty answer is a
      502 and never reaches the heuristic reader; a failed call is a 500. */
  lemma ReplyPaths(reply: Fetched<Option<string>>, parse: string -> Option<Json.Json>)
    ensures reply == Got(None) || reply == Got(Some("")) ==> ReadReply(reply, parse) == Failure(502, "No response from model")
    ensures reply.Threw? ==> ReadReply(reply, parse) == Failure(500, "Internal server error")
    ensures reply.Got? && reply.value.Some? && reply.value.value != "" && parse(reply.value.value).None? ==>
      ReadReply(reply, parse) == Infer(reply.value.value)
    ensures reply.Got? && reply.value.Some? && reply.value.value != "" && parse(reply.value.value).Some? ==>
      ReadReply(reply, parse) == Verbatim(parse(reply.value.value).value)
    ensures ReadReply(reply, parse).Inferred? <==>
      reply.Got? && reply.value.Some? && reply.value.value != "" && parse(reply.value.value).None?
  {
  }

  /** With no context found anywhere the prompt carries the placeholder. */
  lemma EmptyContextPrompt(env: Env, news: Fetched<seq<Context.NewsApiArticle>>, wiki: Fetched<Context.WikiResult>, today: string, statement: string)
    requires NewsContext(env, news) == "" && WikiContext(wiki) == ""
    ensures EndsWith(Prompt(today, statement, ""), ContextHeading + NoArticles)
  {
    PromptShape(today, statement, "");
  }

  /** Two tokens are not clamped: "150% 20%" yields 150/-50. */
  lemma TwoTokensUnclamped()
    ensures Infer("150% 20%").truthPercent == 150
    ensures Infer("150% 20%").falsePercent == -50
  {
    var s := "150% 20%";
    assert Decimal.DigitRun(s, 3) == 0;
    assert Decimal.DigitRun(s, 2) == 1;
    assert Decimal.DigitRun(s, 1) == 2;
    assert Decimal.DigitRun(s, 0) == 3;
    assert s[0..3] == "150";
    assert Decimal.DigitsValue("150") == 150 by {
      assert "150"[..2] == "15";
      assert "15"[..1] == "1";
    }
    assert Decimal.DigitRun(s, 4) == 0;
    assert Decimal.DigitRun(s, 7) == 0;
    assert Decimal.DigitRun(s, 6) == 1;
    assert Decimal.DigitRun(s, 5) == 2;
    assert s[5..7] == "20";
    assert Decimal.DigitsValue("20") == 20 by {
      assert "20"[..1] == "2";
    }
    assert Percent.ScanFrom(s, 8) == [];
    assert Percent.ScanFrom(s, 5) == [20];
    assert Percent.ScanFrom(s, 4) == [20];
    assert Percent.Percents(s) == [150, 20];
  }
}
