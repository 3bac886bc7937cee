# Codebase insights: a Dafny model of the repository list, the insight schema and the Greptile API route

This project models the decision-making core of a Next.js application that
lists a user's GitHub repositories, submits a repository to the Greptile
indexing service, and turns Greptile's answers into a structured insight
report checked against a schema. It covers:

- **The repository list** (`RepositoriesList`): the case-insensitive search
  over name and description, the page count, the page of five shown, and the
  component state (`RepositoriesListState`), whose methods are the search
  update, the prop update and the Previous/Next moves. Its invariant
  `Valid()` says the filtered list is the filter of the data by the term and
  `1 <= currentPage <= max(1, totalPages)`.
- **The insight schema** (`ProcessInsights`): the five-section report as
  datatypes, `Valid` for its numeric bounds, `Validate` for the schema's
  parse of a raw JSON value (all or nothing), `Encode` for the report as
  JSON, and `ProcessInsights`, which checks the reply of the completion
  service against the schema.
- **The Greptile client** (`Greptile`, `GreptileUtils`): the token
  precondition, the submission payload, the percent-encoded repository
  identifier, the status rule for responses, and `GreptileError`.
- **The API route** (`GreptileRoute`): `POST` dispatch on `action`, `GET`
  with the `repository` parameter, the four handlers, the job id, and the
  background job, which catches every failure.

Supporting modules: `Wrappers` (Option, Result), `Text` (ASCII
lower-casing, substring search, decimal rendering, JavaScript's `slice` and
`substr` clamping), `Json` (JavaScript values as JSON produces them, plus
`undefined`; thrown errors; property reads; template interpolation), `Http`
(requests and what `fetch` settles to) and `UriEncoding` (ECMAScript
`encodeURIComponent` with UTF-8, a decoder and the round trip).

External collaborators are inputs: the session returned by `auth()`, the
`GREPTILE_API_KEY` setting, `fetch` (a function from request to result),
the library calls behind the route handlers, the completion service behind
`generateObject`, the clock (`Date.now()`) and the random source
(`Math.random().toString(36)`).

The code has no indexing-status mapping, prompt battery, job table or result
retrieval, so none is modelled. The report's list fields are arrays, not
sets.
`processInsights` does not raise its own schema error; the completion call
rejects a reply that does not fit.

## Model

| member | source | states |
|---|---|---|
| RepositoriesList.Filter | components/repositories-list.tsx:29-32 | the filtered list keeps exactly the repositories that match the term, and is no longer than the input |
| RepositoriesList.MatchesIff | components/repositories-list.tsx:29-32 | a repository passes iff the lower-cased term occurs in its lower-cased name, or its description is non-null and non-empty and the term occurs in its lower-cased description |
| RepositoriesList.FilterAppend | components/repositories-list.tsx:29-32 | filtering a concatenation is the concatenation of the filtered parts, so the original order is kept |
| RepositoriesList.FilterEmptyTerm | components/repositories-list.tsx:23-32 | with the empty term every repository is kept, in order |
| RepositoriesList.FilterCaseInsensitive | components/repositories-list.tsx:30-31 | two terms that are equal after lower-casing select the same list |
| RepositoriesList.FilterIdempotent | components/repositories-list.tsx:29-32 | filtering the filtered list again with the same term changes nothing |
| RepositoriesList.TotalPages | components/repositories-list.tsx:25-26 | the page count is the ceiling of count / 5: the smallest number of pages of five that holds the list, 0 exactly when the list is empty |
| RepositoriesList.PageIsContiguous | components/repositories-list.tsx:37-41 | page p (from 1) is the slice from (p-1)*5 to p*5, clamped to the list; it holds at most 5 items, and at least one when p is within the page count |
| RepositoriesList.PagesCoverList | components/repositories-list.tsx:37-41 | pages 1 to totalPages joined in order give back the whole list |
| RepositoriesList.JoinedPagesPrefix | components/repositories-list.tsx:37-41 | the first k pages joined are the list's first min(5k, length) items |
| RepositoriesList.RepositoriesListState.constructor | components/repositories-list.tsx:21-35 | after the first render and the mount effect, the term is empty, the filtered list is the whole data, the page is 1, and the invariant holds |
| RepositoriesList.RepositoriesListState.CurrentPageData | components/repositories-list.tsx:37-41 | the items shown are the contiguous slice of the filtered list for the current page: at most 5, each from the data and matching the term |
| RepositoriesList.RepositoriesListState.SetSearchTerm | components/repositories-list.tsx:28-35 | a new term recomputes the filtered list from the data and resets the page to 1; the same term changes nothing; the data is untouched and the invariant is kept |
| RepositoriesList.RepositoriesListState.SetInitialData | components/repositories-list.tsx:28-35 | new data is filtered with the current term and the page is reset to 1; the invariant is kept |
| RepositoriesList.RepositoriesListState.GoToPreviousPage | components/repositories-list.tsx:43-47 | the page goes down by one only when it is above 1, and never drops below 1; only the page can change |
| RepositoriesList.RepositoriesListState.GoToNextPage | components/repositories-list.tsx:49-53 | the page goes up by one only when it is below the page count, and never exceeds max(1, totalPages); only the page can change |
| RepositoriesList.RepositoriesListState.NextButtonWithoutResults | components/repositories-list.tsx:112-118 | with no match the Next button is enabled (1 differs from 0) but no move is possible; otherwise Next is disabled exactly when no move is possible |
| RepositoriesList.RepositoriesListState.PreviousButton | components/repositories-list.tsx:112-114 | the Previous button is disabled exactly when going back is impossible |
| Text.ContainsIff | components/repositories-list.tsx:30-31 | substring search succeeds iff the needle occurs at some index of the text |
| ProcessInsights.Validate | lib/process-insights.ts:5-39 | a value the schema accepts always gives a report within every bound |
| ProcessInsights.EncodeValidate | lib/process-insights.ts:5-39 | a report written as JSON is accepted back unchanged iff coverage, quality, test coverage, duplication and maintainability lie in [0,100] and cyclomatic complexity and churn are at least 0; one bad number rejects the whole report |
| ProcessInsights.MissingSectionRejected | lib/process-insights.ts:5-39 | a value missing any of the five sections is rejected |
| ProcessInsights.BadVulnerabilityRejected | lib/process-insights.ts:30-33 | one malformed vulnerability, such as one with an unknown severity, rejects the whole report |
| ProcessInsights.BadAreaRejected | lib/process-insights.ts:10-14 | one malformed complex area rejects the whole report |
| ProcessInsights.ComplexityUnbounded | lib/process-insights.ts:12-15 | per-area and overall complexity are unconstrained: any values, negative ones included, keep a valid report valid |
| ProcessInsights.UnknownKeysIgnored | lib/process-insights.ts:5-39 | top-level keys outside the five sections do not change the result |
| ProcessInsights.ValidateCovers | lib/process-insights.ts:5-39 | the schema accepts a value with report r exactly when r is within bounds and the value carries every field of r's JSON at every depth with that value: a missing or mistyped nested field rejects, no default is filled in, and unknown keys at any depth are ignored |
| ProcessInsights.AddedKeysIgnored | lib/process-insights.ts:5-39 | adding keys anywhere inside an accepted value, at any depth, leaves the parse unchanged |
| ProcessInsights.ParseSeverity | lib/process-insights.ts:31 | only the names low, medium, high and critical are accepted, each for its own severity |
| ProcessInsights.Strings | lib/process-insights.ts:13 | a string array is accepted iff every element is a string; an empty array is accepted |
| ProcessInsights.ProcessInsights | lib/process-insights.ts:41-49 | the result is the schema's reading of the completion reply for the fixed prompt followed by the information; when the call fails or the reply does not fit, there is no report |
| GreptileUtils.NewGreptileError | lib/greptile-utils.ts:1-5 | the error's name is GreptileError and its message is the one given |
| GreptileUtils.HandleApiResponse | lib/greptile-utils.ts:8-17 | a non-OK response gives a GreptileError whose message gives back the status; an OK response gives the parsed body unchanged |
| GreptileUtils.StatusMessageRoundTrip | lib/greptile-utils.ts:11 | the message "HTTP error! status: " + status gives back the status |
| GreptileUtils.NonOkIgnoresBody | lib/greptile-utils.ts:9-14 | on a non-OK response the body is never read: any two bodies give the same error |
| Greptile.Send | lib/greptile.ts:27-38 | a network failure is rethrown unchanged; a non-OK status throws an Error whose message gives back the status; an OK status gives the parsed body unchanged |
| Greptile.SubmitRepositoryForIndexing | lib/greptile.ts:3-39 | without a session or a non-empty token, no request is sent and the call throws "No access token found"; otherwise exactly one POST of the payload is sent and its reply is classified |
| Greptile.CheckRepositoryIndexingProgress | lib/greptile.ts:41-72 | without a session or a non-empty token, no request is sent and the call throws "No access token found"; otherwise exactly one GET of the identifier URL is sent and its reply is classified |
| Greptile.PayloadShape | lib/greptile.ts:6-9 | the payload has exactly the keys remote and repository: remote github, the repository unchanged, no branch |
| Greptile.RequestsCarryCredentials | lib/greptile.ts:19-22 | every request sent carries the service bearer key and the user's GitHub token |
| Greptile.IdentifierIsOneSegment | lib/greptile.ts:49 | the identifier is github%3Amain%3A followed by the encoded repository; it has no colon and no slash, and it decodes back to github:main:repository |
| Greptile.ProgressUrl | lib/greptile.ts:49-52 | the progress URL is the repositories endpoint, a slash, and one path segment |
| Greptile.SendAgreesWithHandleApiResponse | lib/greptile.ts:60-71 | the library's own status check gives the same message and OK result as handleApiResponse; only the error's name differs (Error against GreptileError) |
| UriEncoding.RoundTrip | lib/greptile.ts:49 | decoding inverts encodeURIComponent on every string, so distinct repositories get distinct identifiers |
| UriEncoding.NoColonOrSlash | lib/greptile.ts:49 | the encoding of any string contains neither a colon nor a slash |
| UriEncoding.Utf8RoundTrip | lib/greptile.ts:49 | UTF-8 decoding inverts the UTF-8 bytes of every character, and the first byte announces the sequence length |
| Greptile.EncodedPrefix | lib/greptile.ts:49 | github:main: encodes to github%3Amain%3A |
| UriEncoding.EncodedColonPair | lib/greptile.ts:49 | a prefix `<g>:<m>:` of unreserved words encodes each colon as %3A and leaves the words unchanged |
| GreptileRoute.Post | app/api/greptile/route.ts:11-29 | without a signed-in user the answer is 401 Unauthorized, whatever the body; every answer is 200, 400, 401 or 500; an error escapes only for a malformed or null body |
| GreptileRoute.PostDispatch | app/api/greptile/route.ts:17-28 | an authenticated POST with a non-null body runs exactly the handler its action names; a non-object body or any other action gives 400 Invalid action; insights answers with the job id whatever the library does |
| GreptileRoute.Get | app/api/greptile/route.ts:31-45 | without a user, 401; a missing or empty repository, 400; otherwise the progress handler's answer |
| GreptileRoute.HandleIndexing | app/api/greptile/route.ts:47-55 | 200 with the submission result exactly when the call succeeds; otherwise 500 "Failed to submit repository" |
| GreptileRoute.HandleProgress | app/api/greptile/route.ts:57-65 | 200 with the progress result exactly when the call succeeds; otherwise 500 "Failed to check indexing progress" |
| GreptileRoute.HandleQuery | app/api/greptile/route.ts:67-75 | 200 with only the message field of the result when the call succeeds and the result has a message; otherwise 500 "Failed to query repository" |
| GreptileRoute.HandleInsights | app/api/greptile/route.ts:77-88 | always 200 with the body {jobId} and the job id built from the clock and the random text, without waiting for the job |
| GreptileRoute.JobIdRoundTrip | app/api/greptile/route.ts:93 | a job id gives back the clock reading and the random suffix it was built from, and the suffix has at most 9 characters |
| GreptileRoute.JobIdInjective | app/api/greptile/route.ts:93 | two job ids are equal only when the clock readings and the random suffixes are equal |
| GreptileRoute.JobSuffix | app/api/greptile/route.ts:93 | the suffix is the first nine base-36 digits after "0.", and empty when the random number is 0 |
| GreptileRoute.ProcessInsightsJob | app/api/greptile/route.ts:101-112 | the job always ends without raising; it completes iff getInsights succeeds, its message can be read and processInsights succeeds; a completed report is valid |

## Left out

- Rendering, layout and styling of every component and page. The severity badge colours and the progress-bar clamps in the report view are left out too.
- The GitHub repository fetch in lib/github.ts, which passes its data straight through.
- `auth()`, `fetch`, `generateObject` and the clock and random source are inputs, not modelled. JSON parsing and `JSON.stringify` of request bodies are left out: bodies are kept as JSON values, so key order is not modelled.
- `queryRepository` and `getInsights` are imported by the route but are not defined in lib/greptile.ts. The route takes them as inputs, and nothing is assumed about them.
- The route hands `data.repository` on as whatever JSON value the body holds. The library model takes a string, as its signature declares, so the route's handlers take the library calls as inputs instead of calling the library model.
- Console logging is left out, including the line a background job ends with: a job's outcome is modelled as `JobEnd`, not as text.
- Asynchrony is left out. The background job is modelled as a function that always ends. React's effect scheduling is left out too: `SetSearchTerm` does the term update and the effect it triggers as one step, so the render in between, with the new term and the old list, is not modelled. `SetInitialData` stands for a new array passed as the prop; passing the same array again does not re-run the effect.
- RepositoriesList.Matches: lower-casing is ASCII only. Other characters are left unchanged, so Unicode case mapping is not modelled.
- Numbers in the report are reals. JSON cannot carry NaN or infinities, so IEEE behaviour is not modelled. In `ProcessInsightsJob`, how a numeric `message` is formatted as text is an input (`numberText`).
- Json.Property: only keys that are not inherited properties are read (`action`, `repository`, `query`, `message`). The engine's wording of its `TypeError` messages is not modelled.
- The code has no indexing-status mapping, prompt battery, job table or result retrieval, so none is modelled.
