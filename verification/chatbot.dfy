/** The floating chat widget: its message log, the greeting shown when it
    first opens, and the two halves of sending a question (the question is
    logged at once, the reply when it arrives). */
module Chatbot {
  import opened Base
  import opened Strings
  import Chat
  import Context

  datatype Role = User | Assistant

  datatype Message = Message(role: Role, content: string)

  datatype State = State(open: bool, messages: seq<Message>, input: string)

  const Initial: State := State(false, [], "")

  const GreetingTail: string := "! How can I help you find news today?"

  /** `Hello ${fullname || "there"}!…`. */
  function Greeting(fullname: string): (g: string)
    ensures fullname != "" ==> g == "Hello " + fullname + GreetingTail
    ensures fullname == "" ==> g == "Hello there" + GreetingTail
  {
    "Hello " + (if fullname != "" then fullname else "there") + GreetingTail
  }

  /** The effect run when `open` changes: an opened widget with an empty log
      gets the greeting; otherwise the log is left alone. */
  function Greet(s: State, fullname: string): (r: State)
    ensures s.open && s.messages == [] ==> r == s.(messages := [Message(Assistant, Greeting(fullname))])
    ensures !(s.open && s.messages == []) ==> r == s
  {
    if s.open && s.messages == [] then s.(messages := [Message(Assistant, Greeting(fullname))]) else s
  }

  /** The toggle button. */
  function Toggle(s: State, fullname: string): (r: State)
    ensures r.open == !s.open && r.input == s.input
    ensures r.messages == (if !s.open && s.messages == [] then [Message(Assistant, Greeting(fullname))] else s.messages)
  {
    Greet(s.(open := !s.open), fullname)
  }

  /** The `open-chatbot` window event: opening an already open widget does
      not change `open`, so the effect does not run. */
  function OpenEvent(s: State, fullname: string): (r: State)
    ensures r.open && r.input == s.input
    ensures r.messages == (if !s.open && s.messages == [] then [Message(Assistant, Greeting(fullname))] else s.messages)
  {
    if s.open then s else Greet(s.(open := true), fullname)
  }

  /** Typing in the input box. */
  function Type(s: State, value: string): (r: State)
    ensures r.input == value && r.open == s.open && r.messages == s.messages
  {
    s.(input := value)
  }

  /** The first half of `send`: a blank input does nothing; otherwise the
      trimmed question is logged, the input cleared, and the question is
      posted as `{ query }`. */
  function Ask(s: State): (r: (State, Option<string>))
    ensures Trim(s.input) == "" ==> r == (s, None)
    ensures Trim(s.input) != "" ==>
      && r.1 == Some(Trim(s.input))
      && r.0 == State(s.open, s.messages + [Message(User, Trim(s.input))], "")
  {
    var question := Trim(s.input);
    if question == "" then (s, None)
    else (State(s.open, s.messages + [Message(User, question)], ""), Some(question))
  }

  /** The decoded `/api/chat` body as the widget reads it: `answer` and
      `error`, `None` when absent or not a string. */
  datatype ReplyBody = ReplyBody(answer: Option<string>, error: Option<string>)

  datatype Reply = Reply(ok: bool, body: ReplyBody)

  const SorryText: string := "Sorry, I couldn't find an answer."
  const ErrorPrefix: string := "Error: "
  const UnknownError: string := "Unknown error"
  const NetworkError: string := "Network error. Please try again."

  /** The assistant's text for a reply; `Threw` is a failed request or an
      undecodable body. */
  function ReplyText(reply: Fetched<Reply>): (t: string)
    ensures t != ""
    ensures reply.Threw? ==> t == NetworkError
    ensures reply.Got? && Has(reply.value.body.answer) ==> t == reply.value.body.answer.value
    ensures reply.Got? && !Has(reply.value.body.answer) && reply.value.ok ==> t == SorryText
    ensures reply.Got? && !Has(reply.value.body.answer) && !reply.value.ok ==>
      t == ErrorPrefix + (if Has(reply.value.body.error) then reply.value.body.error.value else UnknownError)
  {
    match reply
    case Threw => NetworkError
    case Got(Reply(ok, body)) =>
      if Has(body.answer) then body.answer.value
      else if ok then SorryText
      else ErrorPrefix + (if Has(body.error) then body.error.value else UnknownError)
  }

  /** The second half of `send`: the reply is appended to the log as it is
      when the reply arrives. */
  function Receive(s: State, reply: Fetched<Reply>): (r: State)
    ensures r.open == s.open && r.input == s.input
    ensures r.messages == s.messages + [Message(Assistant, ReplyText(reply))]
  {
    s.(messages := s.messages + [Message(Assistant, ReplyText(reply))])
  }

  /** Anything that can happen to the widget, in any interleaving. */
  datatype Event =
    | ToggleClicked
    | OpenRequested
    | Typed(value: string)
    | Sent
    | Replied(reply: Fetched<Reply>)

  function Apply(s: State, fullname: string, e: Event): State {
    match e
    case ToggleClicked => Toggle(s, fullname)
    case OpenRequested => OpenEvent(s, fullname)
    case Typed(v) => Type(s, v)
    case Sent => Ask(s).0
    case Replied(reply) => Receive(s, reply)
  }

  function Run(s: State, fullname: string, events: seq<Event>): State
    decreases |events|
  {
    if events == [] then s else Run(Apply(s, fullname, events[0]), fullname, events[1..])
  }

  /** An open widget always shows at least one message. */
  ghost predicate Inv(s: State) {
    s.open ==> s.messages != []
  }

  /** Every event keeps the old log as a prefix of the new one and keeps
      the invariant. */
  lemma EventStep(s: State, fullname: string, e: Event)
    requires Inv(s)
    ensures s.messages <= Apply(s, fullname, e).messages
    ensures Inv(Apply(s, fullname, e))
  {
  }

  /** Over any run from the initial state the log only grows: nothing is
      removed or reordered, and an open widget is never empty. */
  lemma {:induction false} RunGrows(s: State, fullname: string, events: seq<Event>)
    requires Inv(s)
    ensures s.messages <= Run(s, fullname, events).messages
    ensures Inv(Run(s, fullname, events))
    decreases |events|
  {
    if events != [] {
      var s' := Apply(s, fullname, events[0]);
      EventStep(s, fullname, events[0]);
      RunGrows(s', fullname, events[1..]);
    }
  }

  /** From the initial state, the first opening shows the greeting first. */
  lemma GreetingFirst(fullname: string, events: seq<Event>)
    requires events != [] && events[0] in {ToggleClicked, OpenRequested}
    ensures var r := Run(Initial, fullname, events);
      |r.messages| >= 1 && r.messages[0] == Message(Assistant, Greeting(fullname))
  {
    var s := Apply(Initial, fullname, events[0]);
    assert s.messages == [Message(Assistant, Greeting(fullname))];
    RunGrows(s, fullname, events[1..]);
  }

  /** The body the chat handler sends back, as the widget decodes it. */
  function FromRoute(r: Chat.ChatResponse): Reply {
    match r
    case Answer(a) => Reply(true, ReplyBody(Some(a), None))
    case Failure(status, error) => Reply(200 <= status < 300, ReplyBody(None, Some(error)))
  }

  /** Every answer of the chat handler is shown verbatim, and every failure
      as "Error: " and its message. */
  lemma HandlerRepliesShown(request: Fetched<Option<string>>, env: Env, weather: Fetched<Chat.WeatherReply>,
                            news: Fetched<seq<Context.NewsApiArticle>>, reply: Fetched<Option<string>>)
    ensures var h := Chat.Chat(request, env, weather, news, reply);
      && (h.response.Answer? ==> ReplyText(Got(FromRoute(h.response))) == h.response.answer)
      && (h.response.Failure? && !(200 <= h.response.status < 300) && h.response.error != "" ==>
            ReplyText(Got(FromRoute(h.response))) == ErrorPrefix + h.response.error)
  {
    Chat.AnswersNonEmpty(request, env, weather, news, reply);
  }
}
