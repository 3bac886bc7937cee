/**
 * `submitRepositoryForIndexing` and `checkRepositoryIndexingProgress`: the
 * two calls to the indexing service. The session (`auth()`), the service key
 * (`GREPTILE_API_KEY`, possibly unset) and `fetch` are inputs. Each call's
 * outcome records the requests it sent, so that "nothing is sent" can be
 * stated.
 */
module Greptile {
  import opened Wrappers
  import opened Json
  import opened Http
  import UriEncoding
  import GreptileUtils

  /** What `auth()` returns when there is a session: whether it has a user, and its GitHub token. */
  datatype Session = Session(hasUser: bool, accessToken: Option<string>)

  /** `session && session.accessToken` is truthy: a session with a non-empty token. */
  predicate HasToken(session: Option<Session>) {
    session.Some? && session.value.accessToken.Some? && session.value.accessToken.value != ""
  }

  function Token(session: Option<Session>): string
    requires HasToken(session)
  {
    session.value.accessToken.value
  }

  const NoAccessToken := PlainError("No access token found")

  const RepositoriesUrl := "https://api.greptile.com/v2/repositories"

  /** `Bearer ${process.env.GREPTILE_API_KEY}`: an unset key prints as `undefined`. */
  function Bearer(apiKey: Option<string>): string {
    "Bearer " + (if apiKey.Some? then apiKey.value else "undefined")
  }

  /** The requests an indexing call sent, and what the call returned or threw. */
  datatype Outcome = Outcome(requests: seq<Request>, result: Result<Value, JsError>)

  /** The body of a submission: remote `github` and the repository as given; no branch. */
  function SubmissionPayload(repository: string): Value {
    Obj(map["remote" := Str("github"), "repository" := Str(repository)])
  }

  function SubmissionRequest(repository: string, token: string, apiKey: Option<string>): Request {
    Request("POST", RepositoriesUrl,
      [("Authorization", Bearer(apiKey)), ("X-Github-Token", token), ("Content-Type", "application/json")],
      Some(SubmissionPayload(repository)))
  }

  /** `encodeURIComponent(`github:main:${repository}`)`. */
  function RepositoryIdentifier(repository: string): string {
    UriEncoding.EncodeUriComponent("github:main:" + repository)
  }

  function ProgressRequest(repository: string, token: string, apiKey: Option<string>): Request {
    Request("GET", RepositoriesUrl + "/" + RepositoryIdentifier(repository),
      [("Authorization", Bearer(apiKey)), ("X-Github-Token", token)],
      None)
  }

  /**
   * Sends one request and reads the reply: a network failure is rethrown as
   * it is, a non-OK status throws `Error("HTTP error! status: <status>")`, and
   * an OK status yields the parsed body unchanged.
   */
  function Send(request: Request, fetch: Request -> FetchResult): (r: Result<Value, JsError>)
    ensures fetch(request).NetworkFailure? ==> r == Err(fetch(request).error)
    ensures fetch(request).Received? && !IsOk(fetch(request).response.status) ==>
      r.Err? && r.error.name == "Error" &&
      GreptileUtils.StatusOfMessage(r.error.message) == Some(fetch(request).response.status)
    ensures fetch(request).Received? && IsOk(fetch(request).response.status) ==> r == fetch(request).response.json
  {
    match fetch(request)
    case NetworkFailure(e) => Err(e)
    case Received(response) =>
      if !IsOk(response.status) then
        GreptileUtils.StatusMessageRoundTrip(response.status);
        Err(PlainError(GreptileUtils.StatusMessage(response.status)))
      else response.json
  }

  /** `submitRepositoryForIndexing(repository)`. */
  function SubmitRepositoryForIndexing(repository: string, session: Option<Session>, apiKey: Option<string>,
                                       fetch: Request -> FetchResult): (o: Outcome)
    ensures !HasToken(session) ==> o.requests == [] && o.result == Err(NoAccessToken)
    ensures HasToken(session) ==>
      o.requests == [SubmissionRequest(repository, Token(session), apiKey)] && o.result == Send(o.requests[0], fetch)
  {
    if !HasToken(session) then Outcome([], Err(NoAccessToken))
    else
      var request := SubmissionRequest(repository, Token(session), apiKey);
      Outcome([request], Send(request, fetch))
  }

  /** `checkRepositoryIndexingProgress(repository)`. */
  function CheckRepositoryIndexingProgress(repository: string, session: Option<Session>, apiKey: Option<string>,
                                           fetch: Request -> FetchResult): (o: Outcome)
    ensures !HasToken(session) ==> o.requests == [] && o.result == Err(NoAccessToken)
    ensures HasToken(session) ==>
      o.requests == [ProgressRequest(repository, Token(session), apiKey)] && o.result == Send(o.requests[0], fetch)
  {
    if !HasToken(session) then Outcome([], Err(NoAccessToken))
    else
      var request := ProgressRequest(repository, Token(session), apiKey);
      Outcome([request], Send(request, fetch))
  }

  // ---------------------------------------------------------------------------
  // Properties
  // ---------------------------------------------------------------------------

  /** The payload names exactly `remote` and `repository`, with the repository unchanged. */
  lemma PayloadShape(repository: string)
    ensures SubmissionPayload(repository).Obj?
    ensures SubmissionPayload(repository).fields.Keys == {"remote", "repository"}
    ensures SubmissionPayload(repository).fields["remote"] == Str("github")
    ensures SubmissionPayload(repository).fields["repository"] == Str(repository)
  {
  }

  /** Every request either call sends carries the service key and the user's GitHub token. */
  lemma RequestsCarryCredentials(repository: string, session: Option<Session>, apiKey: Option<string>,
                                 fetch: Request -> FetchResult, request: Request)
    requires request in SubmitRepositoryForIndexing(repository, session, apiKey, fetch).requests ||
             request in CheckRepositoryIndexingProgress(repository, session, apiKey, fetch).requests
    ensures HasToken(session)
    ensures ("Authorization", Bearer(apiKey)) in request.headers
    ensures ("X-Github-Token", Token(session)) in request.headers
  {
  }

  /**
   * The fixed prefix `github:main:` encodes to `github%3Amain%3A`. The prefix
   * is a parameter pinned by the precondition rather than a literal argument
   * so that the verifier does not unfold the encoder over the literal.
   */
  lemma EncodedPrefix(prefix: string)
    requires prefix == "github:main:"
    ensures UriEncoding.EncodeUriComponent(prefix) == "github%3Amain%3A"
  {
    var g, m := "github", "main";
    assert prefix == g + [':'] + m + [':'];
    assert forall i :: 0 <= i < |g| ==> UriEncoding.Unescaped(g[i]);
    assert forall i :: 0 <= i < |m| ==> UriEncoding.Unescaped(m[i]);
    UriEncoding.EncodedColonPair(g, m);
  }

  /**
   * The identifier is the fixed encoded prefix `github%3Amain%3A` followed by
   * the encoded repository, contains neither `:` nor `/`, and decodes back to
   * `github:main:<repository>`.
   */
  lemma IdentifierIsOneSegment(repository: string)
    ensures RepositoryIdentifier(repository) == "github%3Amain%3A" + UriEncoding.EncodeUriComponent(repository)
    ensures ':' !in RepositoryIdentifier(repository) && '/' !in RepositoryIdentifier(repository)
    ensures UriEncoding.DecodeUriComponent(RepositoryIdentifier(repository)) == Some("github:main:" + repository)
  {
    var prefix := "github:main:";
    EncodedPrefix(prefix);
    UriEncoding.EncodeAppend(prefix, repository);
    UriEncoding.NoColonOrSlash(prefix + repository);
    UriEncoding.RoundTrip(prefix + repository);
  }

  /** The progress URL is the repositories endpoint followed by exactly one path segment. */
  lemma ProgressUrl(repository: string, token: string, apiKey: Option<string>)
    ensures var url := ProgressRequest(repository, token, apiKey).url;
      url[..|RepositoriesUrl| + 1] == RepositoriesUrl + "/" &&
      '/' !in url[|RepositoriesUrl| + 1..]
  {
    IdentifierIsOneSegment(repository);
    var url := ProgressRequest(repository, token, apiKey).url;
    assert url[|RepositoriesUrl| + 1..] == RepositoryIdentifier(repository);
  }

  /**
   * The library's own status check agrees with `handleApiResponse` on every
   * response: the same message and the same OK result; only the error's name
   * differs (`Error` against `GreptileError`).
   */
  lemma SendAgreesWithHandleApiResponse(request: Request, fetch: Request -> FetchResult)
    requires fetch(request).Received?
    ensures var mine := Send(request, fetch);
      var theirs := GreptileUtils.HandleApiResponse(fetch(request).response);
      mine.Ok? == theirs.Ok? &&
      (mine.Ok? ==> mine == theirs) &&
      (!IsOk(fetch(request).response.status) ==>
         mine.error.message == theirs.error.message && mine.error.name == "Error" && theirs.error.name == "GreptileError")
  {
  }
}
