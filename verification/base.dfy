/** Values shared by every handler: optional values, the outcome of an awaited
    call, the server's environment keys and the trace of outbound requests. */
module Base {

  datatype Option<+T> = None | Some(value: T)

  /** The outcome of an `await` on an external collaborator: its value, or an
      exception (a network failure, a body that is not JSON, ...). */
  datatype Fetched<+T> = Got(value: T) | Threw

  /** The server's environment variables; `None` is an unset variable. */
  datatype Env = Env(gemini: Option<string>, newsApi: Option<string>, mediastack: Option<string>)

  /** A JavaScript truthiness test on an environment value: set and non-empty. */
  predicate Has(key: Option<string>) {
    key.Some? && key.value != ""
  }

  /** Template-literal interpolation of a possibly missing string: a missing
      value is rendered as "undefined". */
  function Show(s: Option<string>): string {
    match s
    case Some(v) => v
    case None => "undefined"
  }

  /** An outbound request a handler makes, recorded in the order it is made. */
  datatype Call =
    | NewsApiSearch(query: string, from: Option<string>, pageSize: nat)
    | WikiSearch(query: string)
    | ModelRequest(model: string, prompt: string, jsonMode: bool)
    | WeatherLookup(city: string)
    | MediastackRequest(category: string, limit: Option<int>)

  /** What a handler returns, together with the requests it made. */
  datatype Handled<+R> = Handled(response: R, calls: seq<Call>)
}
