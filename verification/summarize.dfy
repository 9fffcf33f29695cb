/** The summarize handler (`POST /api/summarize`): one model call, then the
    answer read as JSON with falsy-coercion of its fields, or, when that
    fails, as free text with a newline-free summary and a percentage split
    taken from the first two percent tokens. */
module Summarize {
  import opened Base
  import opened Strings
  import opened Json
  import Percent

  /** Every successful response has exactly these three fields. */
  datatype SummaryResponse =
    | Failure(status: nat, error: string)
    | Summary(summary: Json, truthPercent: int, falsePercent: int)

  const ModelName: string := "gemini-pro"
  const SummaryLimit: nat := 600

  const PromptHead: string :=
    "Summarize in 2-3 sentences. Then provide two percentages that sum to 100 for how true vs false this seems. Output strictly in JSON with keys: summary, truthPercent, falsePercent. Title: \""
  const PromptMiddle: string := "\". Description: "

  /** The prompt sent to the model. */
  function Prompt(title: Option<string>, description: Option<string>): string {
    PromptHead + Show(title) + PromptMiddle + Show(description)
  }

  /** The prompt carries the title and the description as the request gave
      them, a missing one as "undefined". */
  lemma PromptCarries(title: Option<string>, description: Option<string>)
    ensures Contains(Prompt(title, description), Show(title))
    ensures Contains(Prompt(title, description), Show(description))
  {
    Frame(PromptHead, Show(title), PromptMiddle, Show(description), "", "");
    assert PromptHead + Show(title) + PromptMiddle + Show(description) + "" + "" == Prompt(title, description);
  }

  /** The strict path on a parsed, non-null answer: `parsed.summary || ""`,
      `Number(parsed.truthPercent) || 0` and
      `Number(parsed.falsePercent) || Math.max(0, 100 - truthPercent)`. */
  function Coerce(parsed: Json): (r: SummaryResponse)
    requires !parsed.JNull?
    ensures r.Summary?
    ensures Truthy(Get(parsed, "summary")) ==> r.summary == Get(parsed, "summary").value
    ensures !Truthy(Get(parsed, "summary")) ==> r.summary == JStr("")
    ensures ToNumber(Get(parsed, "truthPercent")) !in {None, Some(0)} ==> Some(r.truthPercent) == ToNumber(Get(parsed, "truthPercent"))
    ensures ToNumber(Get(parsed, "truthPercent")) in {None, Some(0)} ==> r.truthPercent == 0
    ensures ToNumber(Get(parsed, "falsePercent")) in {None, Some(0)} ==> r.falsePercent == Max(0, 100 - r.truthPercent)
    ensures ToNumber(Get(parsed, "falsePercent")) !in {None, Some(0)} ==> Some(r.falsePercent) == ToNumber(Get(parsed, "falsePercent"))
  {
    var s := Get(parsed, "summary");
    var summary := if Truthy(s) then s.value else JStr("");
    var t := NumberOr(Get(parsed, "truthPercent"), 0);
    var f := NumberOr(Get(parsed, "falsePercent"), Max(0, 100 - t));
    Summary(summary, t, f)
  }

  /** An answer in the requested shape, with non-zero percentages, is
      read back exactly. */
  lemma WellFormedAnswerKept(summary: string, t: int, f: int)
    requires summary != "" && t != 0 && f != 0
    ensures Coerce(JObj([("summary", JStr(summary)), ("truthPercent", JNum(t)), ("falsePercent", JNum(f))]))
         == Summary(JStr(summary), t, f)
  {
    var ms := [("summary", JStr(summary)), ("truthPercent", JNum(t)), ("falsePercent", JNum(f))];
    assert ms[..2] == [("summary", JStr(summary)), ("truthPercent", JNum(t))];
    assert ms[..2][..1] == [("summary", JStr(summary))];
    assert LastMember(ms, "falsePercent") == Some(JNum(f));
    assert LastMember(ms, "truthPercent") == Some(JNum(t));
    assert LastMember(ms[..2], "summary") == LastMember(ms[..2][..1], "summary");
    assert LastMember(ms, "summary") == LastMember(ms[..2], "summary");
  }

  /** The free-text path: newlines become spaces, the summary is cut at 600
      characters, and only two or more tokens set the percentages. */
  function Heuristic(text: string): (r: SummaryResponse)
    ensures r.Summary?
    ensures r.summary.JStr? && |r.summary.s| <= SummaryLimit && '\n' !in r.summary.s
    ensures r.summary.s <= ReplaceNewlines(text)
    ensures |r.summary.s| == Min(SummaryLimit, |text|)
    ensures var m := Percent.Percents(text);
      && (|m| >= 2 ==> r.truthPercent == Min(100, Max(m[0], m[1])))
      && (|m| >= 2 ==> 0 <= r.truthPercent <= 100 && 0 <= r.falsePercent <= 100
                       && r.truthPercent + r.falsePercent == 100)
      && (|m| < 2 ==> r.truthPercent == 0 && r.falsePercent == 0)
  {
    var summary := Prefix(ReplaceNewlines(text), SummaryLimit);
    var m := Percent.Percents(text);
    if |m| >= 2 then
      var t := Min(100, Max(m[0], m[1]));
      Summary(JStr(summary), t, 100 - t)
    else Summary(JStr(summary), 0, 0)
  }

  /** The model's text once it is known to be present: strict first, and the
      free-text path when `JSON.parse` fails or yields `null` (reading a
      field of `null` throws into the same fallback). */
  function Normalize(text: string, parse: string -> Option<Json>): SummaryResponse {
    match parse(text)
    case Some(j) => if j.JNull? then Heuristic(text) else Coerce(j)
    case None => Heuristic(text)
  }

  /** What the handler does with the model's reply. */
  function ReadReply(reply: Fetched<Option<string>>, parse: string -> Option<Json>): SummaryResponse {
    match reply
    case Threw => Failure(500, "Internal server error")
    case Got(None) => Failure(502, "No content from model")
    case Got(Some(text)) =>
      if text == "" then Failure(502, "No content from model")
      else Normalize(text, parse)
  }

  /** `POST /api/summarize`. `request` carries the body's title and
      description (`Threw` when the body is not JSON); `reply` is the model
      call's outcome and `parse` stands for `JSON.parse`. */
  function Summarize(request: Fetched<(Option<string>, Option<string>)>, env: Env,
                     reply: Fetched<Option<string>>, parse: string -> Option<Json>): (h: Handled<SummaryResponse>)
    ensures request.Threw? ==> h == Handled(Failure(500, "Internal server error"), [])
    ensures request.Got? && !Has(env.gemini) ==> h == Handled(Failure(500, "Missing GEMINI_API_KEY"), [])
    ensures request.Got? && Has(env.gemini) ==>
      && h.calls == [ModelRequest(ModelName, Prompt(request.value.0, request.value.1), false)]
      && h.response == ReadReply(reply, parse)
  {
    match request
    case Threw => Handled(Failure(500, "Internal server error"), [])
    case Got((title, description)) =>
      if !Has(env.gemini) then Handled(Failure(500, "Missing GEMINI_API_KEY"), [])
      else Handled(ReadReply(reply, parse), [ModelRequest(ModelName, Prompt(title, description), false)])
  }

  /** An absent or empty answer is a 502, a failed call a 500, and every
      summary comes from a present, non-empty answer: one that parses to
      something other than `null` is read strictly, one that does not parse
      is read heuristically. */
  lemma ReplyPaths(reply: Fetched<Option<string>>, parse: string -> Option<Json>)
    ensures reply == Got(None) || reply == Got(Some("")) ==> ReadReply(reply, parse) == Failure(502, "No content from model")
    ensures reply.Threw? ==> ReadReply(reply, parse) == Failure(500, "Internal server error")
    ensures ReadReply(reply, parse).Summary? <==> reply.Got? && reply.value.Some? && reply.value.value != ""
    ensures (reply.Got? && reply.value.Some? && reply.value.value != "" && parse(reply.value.value).Some? &&
             !parse(reply.value.value).value.JNull?) ==>
      ReadReply(reply, parse) == Coerce(parse(reply.value.value).value)
    ensures reply.Got? && reply.value.Some? && reply.value.value != "" && parse(reply.value.value).None? ==>
      ReadReply(reply, parse) == Heuristic(reply.value.value)
  {
  }

  /** On the strict path an explicit `falsePercent` of 0 is replaced by the
      complement of the truth figure. */
  lemma ExplicitZeroFalseReplaced(parsed: Json)
    requires parsed.JObj?
    requires ToNumber(Get(parsed, "truthPercent")) == Some(30)
    requires ToNumber(Get(parsed, "falsePercent")) == Some(0)
    ensures Coerce(parsed).truthPercent == 30 && Coerce(parsed).falsePercent == 70
  {
  }

  /** The strict path keeps the invariant whenever the truth figure is in
      range and no usable false figure was given. */
  lemma StrictComplement(parsed: Json)
    requires !parsed.JNull?
    requires ToNumber(Get(parsed, "falsePercent")) in {None, Some(0)}
    requires 0 <= Coerce(parsed).truthPercent <= 100
    ensures Coerce(parsed).truthPercent + Coerce(parsed).falsePercent == 100
  {
  }

  /** Parsing to `null` is not a strict answer: the free-text path runs. */
  lemma NullTakesFallback(text: string, parse: string -> Option<Json>)
    requires parse(text) == Some(JNull)
    ensures Normalize(text, parse) == Heuristic(text)
  {
  }
}
