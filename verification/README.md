# NewsNow in Dafny

A Dafny model of the logic at the heart of NewsNow, a Next.js news reader.
The model covers:

- the four API routes:
  - `POST /api/truth`: a fact check grounded in news or Wikipedia context;
  - `POST /api/summarize`: an article summary with a true/false split;
  - `POST /api/chat`: a chat answer, with a shortcut for weather questions;
  - `GET /api/news`: a Mediastack listing reshaped to the NewsAPI form;
- the state logic of the home page and the bookmarks page;
- the two sign-in front ends;
- the chat widget.

Every network call, `localStorage`, the clock and `JSON.parse` become
parameters:

- a fetch is `Fetched<T>`, either `Got(value)` or `Threw`;
- a route handler returns `Handled(response, calls)`, where `calls` lists
  the outbound requests in order;
- `JSON.parse` is an oracle `string -> Option<Json>`;
- storage is an explicit `Storage.Store` record.

Modules, one per source file plus shared helpers:

| module | models |
|---|---|
| `Base` | option, fetch outcome, environment keys, outbound call trace, JS truthiness of strings and `${x}` of a missing value |
| `Strings` | `trim`, `toLowerCase`, `includes`, `indexOf`, `split`/`join`, the newline replacements, `slice` |
| `Decimal` | decimal digits, `parseInt(…, 10)` |
| `Seqs` | `filter`, counting, subsequences |
| `Json` | JSON values, member lookup, truthiness, `Number(…)` on integers |
| `Percent` | `text.match(/(\d{1,3})%/g)` and `parseInt` of each match |
| `Context` | the article and Wikipedia context blocks joined by `\n---\n` |
| `Truth` | `frontend/app/api/truth/route.ts` |
| `Summarize` | `frontend/app/api/summarize/route.ts` |
| `WeatherQuery` | the weather pattern of `frontend/app/api/chat/route.ts` |
| `Chat` | `frontend/app/api/chat/route.ts` |
| `News` | `frontend/app/api/news/route.ts` |
| `Storage`, `Home` | `frontend/app/page.tsx` |
| `Bookmarks` | `frontend/app/bookmarks/page.tsx` |
| `Auth`, `AuthModal` | `frontend/components/auth-modal.tsx` |
| `AuthBase` | `frontend/components/auth-base.tsx` |
| `Chatbot` | `frontend/components/chatbot.tsx` |

## Model

| member | source | states |
|---|---|---|
| Percent.ScanFrom | frontend/app/api/truth/route.ts:83 | every token of a global scan is at most 999, and a scan from `i` finds at most one token per remaining character |
| Percent.ScanFromEmptyIff | frontend/app/api/truth/route.ts:83 | the scan finds nothing exactly when `\d{1,3}%` matches at no position |
| Percent.NoPercentSign | frontend/app/api/summarize/route.ts:40 | text without `%` has no percent token |
| Percent.ScanPercents | frontend/app/api/summarize/route.ts:40 | the engine's `lastIndex` loop (resume after the `%` of a match, else one further on) returns the same tokens as the recursive scan `Percent.Percents`; it is a second formulation of the scan, not an independent specification of the pattern |
| Percent.LongRunYieldsTail | frontend/app/api/truth/route.ts:83 | a run of five digits before `%` yields only its last three ("12345%" gives 345) |
| Strings.Trim | frontend/components/chatbot.tsx:34-35 | `trim()` is empty exactly when the text is all whitespace; otherwise it starts and ends with a non-space, and it is a contiguous piece of the text |
| Strings.TrimStripsSpace | frontend/components/chatbot.tsx:34-35 | what `trim()` removes is whitespace: the result occurs in the text with only whitespace before and after it |
| Strings.IndexOf | frontend/components/auth-modal.tsx:120 | the position found is the first occurrence of the separator, and none is found exactly when it occurs nowhere |
| Strings.Prefix | frontend/app/api/truth/route.ts:36 | `slice(0, n)` is a prefix of the text of length `min(n, length)` |
| Strings.JoinSplit | frontend/components/auth-modal.tsx:120-122 | joining the pieces of `split(sep)` with `sep` gives back the text |
| Strings.SplitHeadTail | frontend/components/auth-modal.tsx:120-122 | `parts[0]` is the text before the first separator, and `parts.slice(1).join(sep)` is the text after it |
| Strings.CollapseKeepsText | frontend/app/api/truth/route.ts:96 | apart from spaces, the collapsed text is the text with its newlines removed: no other character is lost, added or moved |
| Strings.CollapseNewlines | frontend/app/api/truth/route.ts:96 | the collapsed text has no newline, is no longer than the text, and is the text itself when it had none |
| Strings.CollapseAppend | frontend/app/api/truth/route.ts:96 | collapsing distributes over a split that does not fall inside a newline run |
| Strings.CollapseRun | frontend/app/api/truth/route.ts:96 | a run of one or more newlines between two pieces becomes exactly one space |
| Strings.TrimIdempotent | frontend/components/chatbot.tsx:34-35 | trimming a trimmed text changes nothing |
| Strings.ReplaceNewlines | frontend/app/api/summarize/route.ts:39 | `replace(/\n/g, " ")` keeps the length, leaves no newline and keeps every other character in place |
| Decimal.ParseIntNatToString | frontend/app/api/news/route.ts:11 | `parseInt` of a number's decimal form is that number |
| Decimal.ParseInt | frontend/app/api/news/route.ts:11 | `parseInt(s, 10)` is a number exactly when a digit follows the leading whitespace and an optional sign |
| Decimal.NatToStringInjective | frontend/app/page.tsx:73 | distinct indexes have distinct decimal forms |
| Json.NumberOr | frontend/app/api/summarize/route.ts:35-36 | `Number(x) \|\| d` is the number `x` converts to when that is non-zero, and `d` when it is zero or not a number |
| Json.StringToNumberNatToString | frontend/app/api/summarize/route.ts:35 | `Number` of a decimal string is the number it writes |
| Context.FactContextEmptyIff | frontend/app/api/truth/route.ts:21-27 | the news context is empty exactly when there are no articles |
| Context.RenderSnoc | frontend/app/api/truth/route.ts:22-27 | one more article appends the separator and its block |
| Context.WikiContextEmptyIff | frontend/app/api/truth/route.ts:41-45 | the Wikipedia context is empty exactly when there are no titles |
| Context.WikiSnoc | frontend/app/api/truth/route.ts:41-45 | one more title appends the separator and its block, with the extract at the same index |
| Context.ChatContextEmptyIff | frontend/app/api/chat/route.ts:30-33 | the chat context is empty exactly when there are no articles |
| Truth.InferVerdict | frontend/app/api/truth/route.ts:81-82 | "true" exactly when the lower-cased answer contains "true" but not "not true"; otherwise "false" exactly when it contains "false"; otherwise "uncertain" |
| Truth.PercentSplit | frontend/app/api/truth/route.ts:84-95 | the split sums to 100; two tokens give their maximum, one token `x` gives `min(100, x)`, none gives 70/30/50 by verdict |
| Truth.Infer | frontend/app/api/truth/route.ts:80-97 | the fallback reading has the keyword verdict; its truth value is the maximum of the first two percent tokens, `min(100, x)` of a single one, or 70/30/50 by verdict with none, and the false value is the rest of 100; the explanation is the first `min(400, n)` characters of the collapsed answer of length `n` |
| Truth.PromptShape | frontend/app/api/truth/route.ts:51-56 | the prompt carries today's date and the statement, and ends with the context or "(no articles found)" |
| Truth.Gather | frontend/app/api/truth/route.ts:11-49 | the context is the news context unless that is empty, then the Wikipedia one; NewsAPI is searched first, exactly when its key is set, for the statement from the 120-day date with page size 8; every later search is Wikipedia's, made exactly when the news context is empty, with the statement's first 120 characters; so there are at most two searches, one per source |
| Truth.Check | frontend/app/api/truth/route.ts:3-102 | a body that is not JSON gives 500 "Internal server error"; a missing model key gives 500 "Missing GEMINI_API_KEY" before any retrieval or model call; otherwise the retrieval calls come first, then one model call in JSON mode whose prompt holds the date and the statement, and the reply is read as `Truth.ReplyPaths` states |
| Truth.WikiOnlyWhenNoNews | frontend/app/api/truth/route.ts:33-49 | the Wikipedia search happens exactly when the key check passed and the news context is empty |
| Truth.ReplyPaths | frontend/app/api/truth/route.ts:69-101 | a missing or empty answer gives 502; a thrown model call gives 500 "Internal server error"; an answer that parses is returned as parsed; a non-empty answer that does not parse, and only such an answer, is read by `Truth.Infer` |
| Truth.EmptyContextPrompt | frontend/app/api/truth/route.ts:56 | with no context anywhere the prompt ends with the placeholder |
| Truth.TwoTokensUnclamped | frontend/app/api/truth/route.ts:86-88 | two tokens are not capped: "150% 20%" yields 150 and -50 |
| Summarize.PromptCarries | frontend/app/api/summarize/route.ts:11 | the prompt carries the title and the description |
| Summarize.Coerce | frontend/app/api/summarize/route.ts:33-36 | the strict reading keeps a truthy summary or uses ""; the truth value is the number it converts to when non-zero, else 0; a missing or zero false value becomes `max(0, 100 - truth)` |
| Summarize.WellFormedAnswerKept | frontend/app/api/summarize/route.ts:33-36 | an answer with a non-empty summary and non-zero numbers is kept exactly as given |
| Summarize.Heuristic | frontend/app/api/summarize/route.ts:37-45 | the fallback summary is the first `min(600, n)` characters of the answer of length `n`, with newlines replaced; two or more tokens give `min(100, max(first two))` and its complement, both in 0..100; fewer give 0/0 |
| Summarize.Summarize | frontend/app/api/summarize/route.ts:3-51 | a body that is not JSON gives 500 "Internal server error" and a missing key 500 "Missing GEMINI_API_KEY", both with no call; otherwise exactly one model call, not in JSON mode, with the prompt of title and description |
| Summarize.ReplyPaths | frontend/app/api/summarize/route.ts:22-51 | a missing or empty answer gives 502 "No content from model"; a thrown model call gives 500; a summary is returned exactly when the answer is present and non-empty; an answer that parses to something other than `null` is read by `Summarize.Coerce`, and one that does not parse by `Summarize.Heuristic` |
| Summarize.ExplicitZeroFalseReplaced | frontend/app/api/summarize/route.ts:36 | an explicit false value of 0 is replaced: truth 30 gives 30/70 |
| Summarize.StrictComplement | frontend/app/api/summarize/route.ts:35-36 | when the false value is missing or zero and the truth value is in 0..100, the two sum to 100 |
| Summarize.NullTakesFallback | frontend/app/api/summarize/route.ts:32-39 | an answer that parses to `null` takes the free-text path |
| WeatherQuery.FirstMatchFrom | frontend/app/api/chat/route.ts:11 | the match position is the leftmost one at which the pattern matches |
| WeatherQuery.Capture | frontend/app/api/chat/route.ts:11 | the capture group is a non-empty suffix of the text after the keyword |
| WeatherQuery.CityIff | frontend/app/api/chat/route.ts:11 | a query is a weather query exactly when the pattern matches at some position |
| WeatherQuery.CityAfterKeyword | frontend/app/api/chat/route.ts:11-13 | "weather" followed by letters and whitespace yields the trimmed capture |
| WeatherQuery.CityShape | frontend/app/api/chat/route.ts:11-13 | the trimmed city is a contiguous piece of the query, made of letters and whitespace, starting and ending with a letter unless empty |
| WeatherQuery.TrailingSymbolNoCity | frontend/app/api/chat/route.ts:11 | a query ending in a character that is neither a letter nor whitespace is not a weather query |
| WeatherQuery.IntendedCity | frontend/app/api/chat/route.ts:11-13 | "weather in/at/for CITY", the connective in any letter case, yields CITY |
| WeatherQuery.PlainCity | frontend/app/api/chat/route.ts:11-13 | "weather CITY" yields CITY when CITY does not begin with a connective |
| WeatherQuery.ConnectiveEatsCityPrefix | frontend/app/api/chat/route.ts:11-13 | a city that begins with "in", "at" or "for" loses it: "weather inverness" yields "verness" |
| WeatherQuery.BlankCity | frontend/app/api/chat/route.ts:11-13 | "weather" followed by whitespace only yields the empty city |
| Chat.PromptShape | frontend/app/api/chat/route.ts:37 | the prompt starts with the instructions, carries the question and ends with the context |
| Chat.Headlines | frontend/app/api/chat/route.ts:23-35 | headlines are searched exactly when a NewsAPI key is set and the question is a string, for 5 articles; a failed search leaves the context empty |
| Chat.ReadReply | frontend/app/api/chat/route.ts:47-56 | a thrown model call gives 500; a reply always answers; a present, non-empty model text is the answer, and a missing or empty one gives the fallback text |
| Chat.AskModel | frontend/app/api/chat/route.ts:23-52 | the calls are the headline search's calls followed by one model call, not in JSON mode, whose prompt is built from the question and the headlines found; the reply decides the answer |
| Chat.AskModelNoLookup | frontend/app/api/chat/route.ts:23-52 | the model path never calls the weather endpoint |
| Chat.Chat | frontend/app/api/chat/route.ts:3-56 | a body that is not JSON gives 500 "Internal server error" and a missing key 500 "Missing GEMINI_API_KEY", both with no call; a weather lookup that throws gives 500 "Internal server error" after that one call; the other paths are stated by `Chat.WeatherShortCircuit`, `Chat.LookupOnlyForWeather`, `Chat.FallsThrough` and `Chat.ModelPath` |
| Chat.WeatherShortCircuit | frontend/app/api/chat/route.ts:12-20 | a weather question whose lookup succeeds is answered from the lookup alone, with one call |
| Chat.LookupOnlyForWeather | frontend/app/api/chat/route.ts:11-15 | the weather endpoint is called first for weather questions and never otherwise |
| Chat.ModelPath | frontend/app/api/chat/route.ts:21-52 | when the shortcut does not answer, the model is asked last, with the question in its prompt, and its reply decides the answer |
| Chat.FallsThrough | frontend/app/api/chat/route.ts:12-52 | when the shortcut does not answer, the route answers as the model path does, and its calls are the weather lookup, if one was made, followed by exactly the model path's calls |
| Chat.AnswersNonEmpty | frontend/app/api/chat/route.ts:52 | every answer is non-empty |
| News.CategoryOf | frontend/app/api/news/route.ts:10 | the category is the parameter when non-empty, else "general" |
| News.DefaultLimit | frontend/app/api/news/route.ts:11 | without a page size, 50 articles are requested |
| News.PageSizeRead | frontend/app/api/news/route.ts:11 | a decimal page size is the limit requested |
| News.Reshape | frontend/app/api/news/route.ts:50-59 | source name is the source or "Mediastack"; author is kept only when truthy, else null; `urlToImage` is `image`, `publishedAt` is `published_at`, `content` is the description |
| News.RestoreReshape | frontend/app/api/news/route.ts:50-59 | reshaping loses nothing but the absence of a source or author |
| News.Transform | frontend/app/api/news/route.ts:45-68 | count and order are kept; `totalResults` is `pagination.total` when truthy, else the article count; missing or empty data gives an empty listing with 0 |
| News.List | frontend/app/api/news/route.ts:13-75 | a missing key gives 500 with no request; a thrown fetch gives 500; a non-ok upstream gives an error with the upstream status; an ok upstream gives exactly the transformed listing of its body |
| Storage.Unstore | frontend/app/page.tsx:120 | no kept article has the id, every article with another id is kept, and nothing new appears |
| Storage.UnstoreSpec | frontend/app/bookmarks/page.tsx:55 | the kept articles are a subsequence, every article with another id is kept as many times as before, and a second removal changes nothing |
| Seqs.RemoveSpec | frontend/app/page.tsx:127 | removing a value leaves none of it, keeps every other value's count and keeps the order |
| Seqs.FilterIdempotent | frontend/app/bookmarks/page.tsx:54-55 | filtering twice is filtering once |
| Home.Restore | frontend/app/page.tsx:44-58 | logged in exactly with a token and an email or name; the display name is the name, else the email, never empty; lists are loaded only when logged in |
| Home.Logout | frontend/app/page.tsx:93-99 | storage is cleared and the session signed out |
| Home.LogoutThenRestore | frontend/app/page.tsx:93-99 | after logout a reload restores no session |
| Home.FetchNews | frontend/app/page.tsx:64-85 | one item per article, in order, with id `url-index` and the selected category; no articles or a thrown fetch give none |
| Home.IdSuffixIsIndex | frontend/app/page.tsx:73 | the text after an id's last "-" is its index |
| Home.IdsDistinct | frontend/app/page.tsx:70-76 | the ids of one listing are pairwise distinct, whatever the urls |
| Home.Toggle | frontend/app/page.tsx:126-129 | the element is present afterwards exactly when it was absent before; an absent one is appended |
| Home.ToggleKeepsOthers | frontend/app/page.tsx:127-129 | other elements keep their counts; removal keeps the remaining order |
| Home.ToggleFavoriteTwiceAbsent | frontend/app/page.tsx:126-132 | toggling an absent favorite twice gives the list back |
| Home.ToggleFavoriteTwicePresent | frontend/app/page.tsx:126-132 | toggling a present favorite twice moves it to the end, once |
| Home.Find | frontend/app/page.tsx:102 | an article is found exactly when one has the id, and it has the id |
| Home.FindIsFirst | frontend/app/page.tsx:102 | the article found is the first with the id: no earlier article has it |
| Home.ToggleBookmark | frontend/app/page.tsx:101-124 | an id of no loaded article changes nothing; otherwise the bookmark ids are toggled, and adding a bookmark keeps the stored articles as they were and appends the found article unless one with that id is already stored |
| Home.BookmarkSync | frontend/app/page.tsx:105-123 | after a toggle the id is bookmarked exactly when it was not before, and exactly when a stored article has it; the number of stored copies is at most one or what it was before |
| Home.UnbookmarkKeepsOthers | frontend/app/page.tsx:119-121 | un-bookmarking keeps the other stored articles in order |
| Home.NavToCategory | frontend/app/page.tsx:139-157 | every label maps into the category list; unknown labels give "general" |
| Bookmarks.Open | frontend/app/bookmarks/page.tsx:30-51 | without a token the page redirects and loads nothing; otherwise it shows the stored lists |
| Bookmarks.RemoveBookmark | frontend/app/bookmarks/page.tsx:53-62 | the id leaves both lists, and the new lists are stored |
| Bookmarks.RemoveKeepsOthers | frontend/app/bookmarks/page.tsx:53-61 | other ids, and the articles with other ids, keep their counts; both lists keep their order |
| Bookmarks.RemoveIdempotent | frontend/app/bookmarks/page.tsx:54-55 | removing twice is removing once |
| Bookmarks.ClearAll | frontend/app/bookmarks/page.tsx:64-71 | a confirmed clear empties both lists and removes both keys, keeping the token, favourites, email and name; a declined one changes nothing |
| Bookmarks.ClearThenOpen | frontend/app/bookmarks/page.tsx:30-71 | after a confirmed clear the page reopens with empty lists |
| Auth.Decode | frontend/components/auth-modal.tsx:120-122 | with a "::" the code is the text before the first one and the message the text after it, or the fallback when that is empty; without one the code is the whole answer |
| Auth.CodeHasNoSeparator | frontend/components/auth-modal.tsx:120-121 | the code never contains "::" |
| Auth.DecodeStatusLine | frontend/components/auth-base.tsx:132-134 | "code::message" with a colon-free code and a non-empty message reads back as that code and message |
| AuthModal.InputChange | frontend/components/auth-modal.tsx:34-39 | only the named field changes; its error, if present, becomes ""; the error keys and other errors stay |
| AuthModal.Set | frontend/components/auth-modal.tsx:36 | the named field takes the value and every other field stays |
| AuthModal.InputChangeTwice | frontend/components/auth-modal.tsx:34-39 | a second change of the same field only replaces the value |
| AuthModal.SignupErrors | frontend/components/auth-modal.tsx:44-51 | a blank trimmed name, an empty role and an empty or mismatched confirmation are flagged; a mismatch overrides "Please confirm your password" |
| AuthModal.CommonErrors | frontend/components/auth-modal.tsx:53-54 | a blank trimmed email and an empty, untrimmed password are flagged |
| AuthModal.Validate | frontend/components/auth-modal.tsx:41-58 | login mode produces only the email and password errors; sign-up mode adds the sign-up errors |
| AuthModal.LoginValidIff | frontend/components/auth-modal.tsx:53-57 | a login form is valid exactly when the email is not blank and the password not empty |
| AuthModal.SignupValidIff | frontend/components/auth-modal.tsx:44-57 | a sign-up form is valid exactly when every field is filled and the passwords agree |
| AuthModal.Payload | frontend/components/auth-modal.tsx:68-77 | login posts email and password; sign-up also posts name and role; values are untrimmed |
| AuthModal.Answer | frontend/components/auth-modal.tsx:87-133 | a token stores token, email and any profile name, leaves the stored lists untouched, logs in by name or email and resets the form; otherwise code "200" in sign-up switches to login with the notice "Registration successful! Please sign in." and any other answer alerts its message; a network failure alerts "Network error. Please try again." |
| AuthModal.Submit | frontend/components/auth-modal.tsx:60-63 | an invalid form shows its errors and sends nothing; a valid one sends the payload |
| AuthModal.EffectsCarryText | frontend/components/auth-modal.tsx:95-129 | a login greets by a non-empty name, every alert has a message, and a switch to login carries the registration notice |
| AuthModal.RegistrationAccepted | frontend/components/auth-modal.tsx:124-129 | "200::msg" switches a sign-up to login with the registration notice and alerts `msg` on a login |
| AuthBase.Initial | frontend/components/auth-base.tsx:8-11 | logged in exactly with a stored token; the email is the stored one or "" |
| AuthBase.Register | frontend/components/auth-base.tsx:41-88 | the first empty field in the order name, email, role, password, confirmation is flagged alone; with all filled, a mismatch flags both password fields and focuses the confirmation; otherwise the sign-up request is sent |
| AuthBase.SignIn | frontend/components/auth-base.tsx:91-110 | the email is checked first, then the password; the request is sent exactly when both are filled |
| AuthBase.SignInAnswer | frontend/components/auth-base.tsx:111-119 | a token is stored with the email and logs in, leaving the name and the stored lists untouched; anything else alerts "Login failed: " and the answer |
| AuthBase.RegistrationAnswer | frontend/components/auth-base.tsx:123-140 | a token logs in, storing only the token and the email; otherwise the message after "::" (or "Done") is alerted and code "200" reopens sign-in |
| AuthBase.RegistrationAccepted | frontend/components/auth-base.tsx:132-138 | "200::msg" reopens sign-in and alerts `msg` |
| AuthBase.RegistrationRefused | frontend/components/auth-base.tsx:132-138 | a status line with any other code is only alerted |
| AuthBase.Logout | frontend/components/auth-base.tsx:143-146 | storage is cleared and the state is logged out with email "" |
| AuthBase.ReloadAfterAnswer | frontend/components/auth-base.tsx:8-11 | reloading after a token answer restores the login with that email; reloading after logout restores the logged-out state |
| AuthBase.SentEmailLogsIn | frontend/components/auth-base.tsx:95-119 | after a sign-in that was sent, a token answer makes the reload log in with the email sent |
| Chatbot.Greet | frontend/components/chatbot.tsx:17-21 | the greeting is added only when the widget is open with an empty log |
| Chatbot.Greeting | frontend/components/chatbot.tsx:19 | "Hello " and the name, or "there", then the fixed question |
| Chatbot.Toggle | frontend/components/chatbot.tsx:59 | the button flips `open` and keeps the input; through the `open` effect (lines 17-21) the log gains the greeting exactly when a closed widget with an empty log opens, and is otherwise unchanged |
| Chatbot.OpenEvent | frontend/components/chatbot.tsx:17-27 | the window event leaves the widget open and keeps the input; the log gains the greeting exactly when the widget was closed with an empty log, and is otherwise unchanged |
| Chatbot.Ask | frontend/components/chatbot.tsx:33-37 | a blank input changes nothing; otherwise the trimmed question is appended as a user message and the input is cleared |
| Chatbot.ReplyText | frontend/components/chatbot.tsx:45-49 | the answer if truthy; else the apology when ok; else "Error: " and the error or "Unknown error"; a network failure gives "Network error. Please try again."; never empty |
| Chatbot.Receive | frontend/components/chatbot.tsx:47-49 | the reply is appended as an assistant message |
| Chatbot.EventStep | frontend/components/chatbot.tsx:17-49 | every event keeps the old log as a prefix, and an open widget always shows a message |
| Chatbot.RunGrows | frontend/components/chatbot.tsx:17-59 | over any interleaving of events the log only grows: nothing is removed or reordered |
| Chatbot.GreetingFirst | frontend/components/chatbot.tsx:17-21 | the first opening puts the greeting first in the log for good |
| Chatbot.HandlerRepliesShown | frontend/components/chatbot.tsx:46 | every answer of the chat handler is shown as it is, and every failure as "Error: " and its message |

## Left out

- HTTP calls, `localStorage`, the clock and `JSON.parse` are parameters. This covers NewsAPI, Wikipedia, Gemini, Mediastack, the weather endpoint, the backend `/users` routes and the profile fetch. The request URLs, headers and query encoding are not modelled.
- Floating point: `Number(…)` is modelled on integers, booleans, `null` and strings of decimal digits only. Fractional, exponent and hexadecimal strings are left out. Every array and object is taken as `NaN`, although `Number([5])` is 5 in JavaScript.
- Json.NumberOr: models `Number(x) || d` only for the integer cases above; `NaN` is the case where `x` converts to no number.
- `null` and `undefined` are one value (`None`), and `${x}` of either renders "undefined". `${null}` in the source would render "null".
- Truth.Check: a `statement` that is not a string is modelled only by its rendering. The source's `String(statement)` of an object is not modelled.
- `toLowerCase` is ASCII-only. `\s` is the JavaScript whitespace set. Strings are sequences of characters, not UTF-16 code units.
- React asynchrony and batching: each handler is one atomic step. In the chat widget the question and the reply are two events, so any interleaving is covered.
- `AuthBase.RegistrationAnswer` takes the email as the sign-up form held it when the request was sent. An edit made while the request is in flight is not modelled.
- DOM styling, focus and popup visibility in the class-based front end. Only the flagged fields, the focused field and whether sign-in is reopened are kept.
- The home page's `handleLogin`, `handleCategorySelect` and the dialog's open/close and password-visibility toggles. Each only sets a display flag or copies its argument.
- The weather route, the weather page and the other UI components. They only render data or forward a request.
- The Java backend: its outcomes depend on a repository that is not visible.
- `JSON.parse` throwing on corrupt stored lists in the page effects: stored lists are held decoded.
- Chat.Chat: `query` is a string or absent. A JSON body whose `query` is a number or an object is not modelled; the source would run the weather pattern on its `String(…)`, skip the headline search and put the rendering in the prompt.
- AuthBase.SignInAnswer: `email` stands for the sign-in field's value when the answer arrives, which the callback reads then; an edit made while the request is in flight is covered only by passing the later value.
- Chat.WeatherReport: the weather fields are taken already rendered as the template shows them.
