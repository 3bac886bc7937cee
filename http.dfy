/** The `fetch` boundary: requests sent, and what a request settles to. */
module Http {
  import opened Wrappers
  import opened Json

  /** An outgoing request (`verb` is the HTTP method); the JSON body is kept as a value (its serialisation is not modelled). */
  datatype Request = Request(verb: string, url: string, headers: seq<(string, string)>, body: Option<Value>)

  /** A received response: its status and what `response.json()` gives (a value, or the parse error it throws). */
  datatype Response = Response(status: nat, json: Result<Value, JsError>)

  /** What `fetch` settles to: rejected with a network error, or a response. */
  datatype FetchResult = NetworkFailure(error: JsError) | Received(response: Response)

  /** `response.ok`: the status is in the range 200 to 299. */
  predicate IsOk(status: nat) { 200 <= status <= 299 }
}
