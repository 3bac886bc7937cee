/**
 * The API route: `POST` dispatches on the body's `action`, `GET` asks for the
 * indexing progress of the `repository` query parameter. Both reject a
 * request without a signed-in user. The library calls behind the handlers are
 * inputs (`Library`), as are the clock and the random source behind a job id.
 */
module GreptileRoute {
  import opened Wrappers
  import opened Json
  import Text
  import Greptile
  import ProcessInsights

  /** A response the route returns: status code and JSON body. */
  datatype Reply = Reply(status: nat, body: Value)

  function ErrorReply(status: nat, message: string): Reply {
    Reply(status, Obj(map["error" := Str(message)]))
  }

  const Unauthorized := ErrorReply(401, "Unauthorized")
  const InvalidAction := ErrorReply(400, "Invalid action")
  const RepositoryRequired := ErrorReply(400, "Repository parameter is required")
  const SubmitFailed := ErrorReply(500, "Failed to submit repository")
  const ProgressFailed := ErrorReply(500, "Failed to check indexing progress")
  const QueryFailed := ErrorReply(500, "Failed to query repository")
  const StartFailed := ErrorReply(500, "Failed to start insights job")

  /** `Response.json(data)`: status 200 with the value; `undefined` cannot be serialised and throws. */
  function JsonReply(data: Value): (r: Result<Reply, JsError>)
    ensures r.Ok? <==> !data.Undefined?
    ensures r.Ok? ==> r.value == Reply(200, data)
  {
    if data.Undefined? then Err(RuntimeTypeError) else Ok(Reply(200, data))
  }

  /** `session?.user` is truthy. */
  predicate Authenticated(session: Option<Greptile.Session>) {
    session.Some? && session.value.hasUser
  }

  /**
   * The calls the handlers make, each returning its value or the error it
   * throws: `submitRepositoryForIndexing`, `checkRepositoryIndexingProgress`,
   * `queryRepository`, `getInsights`, and the completion service behind
   * `processInsights`.
   */
  datatype Library = Library(
    submit: Value -> Result<Value, JsError>,
    progress: string -> Result<Value, JsError>,
    query: (Value, Value) -> Result<Value, JsError>,
    getInsights: Value -> Result<Value, JsError>,
    generate: string -> Result<Value, JsError>)

  // ---------------------------------------------------------------------------
  // Handlers
  // ---------------------------------------------------------------------------

  /** `handleIndexing`: the submission result, or 500 when the call (or its serialisation) throws. */
  function HandleIndexing(repository: Value, lib: Library): (r: Reply)
    ensures r.status == 200 <==> lib.submit(repository).Ok? && !lib.submit(repository).value.Undefined?
    ensures r.status == 200 ==> r.body == lib.submit(repository).value
    ensures r.status != 200 ==> r == SubmitFailed
  {
    match lib.submit(repository)
    case Err(_) => SubmitFailed
    case Ok(result) =>
      match JsonReply(result)
      case Ok(reply) => reply
      case Err(_) => SubmitFailed
  }

  /** `handleProgress`: the progress result, or 500 when the call throws. */
  function HandleProgress(repository: string, lib: Library): (r: Reply)
    ensures r.status == 200 <==> lib.progress(repository).Ok? && !lib.progress(repository).value.Undefined?
    ensures r.status == 200 ==> r.body == lib.progress(repository).value
    ensures r.status != 200 ==> r == ProgressFailed
  {
    match lib.progress(repository)
    case Err(_) => ProgressFailed
    case Ok(result) =>
      match JsonReply(result)
      case Ok(reply) => reply
      case Err(_) => ProgressFailed
  }

  /**
   * `handleQuery`: only the `message` field of the result is returned. A
   * failed call, a `null` result, or a result without a `message` (reading it
   * gives `undefined`, which `Response.json` rejects) all give 500.
   */
  function HandleQuery(repository: Value, query: Value, lib: Library): (r: Reply)
    ensures r.status == 200 <==>
      var res := lib.query(repository, query);
      res.Ok? && res.value.Obj? && "message" in res.value.fields && !res.value.fields["message"].Undefined?
    ensures r.status == 200 ==> r.body == lib.query(repository, query).value.fields["message"]
    ensures r.status != 200 ==> r == QueryFailed
  {
    match lib.query(repository, query)
    case Err(_) => QueryFailed
    case Ok(result) =>
      match Property(result, "message")
      case Err(_) => QueryFailed
      case Ok(message) =>
        match JsonReply(message)
        case Ok(reply) => reply
        case Err(_) => QueryFailed
  }

  // ---------------------------------------------------------------------------
  // Insight jobs
  // ---------------------------------------------------------------------------

  /**
   * The job id `job-${Date.now()}-${Math.random().toString(36).substr(2, 9)}`;
   * `now` is the clock reading and `random36` the base-36 text of the random
   * number.
   */
  function JobId(now: nat, random36: string): string {
    "job-" + Text.Decimal(now) + "-" + Text.Substr(random36, 2, 9)
  }

  /** The text before the first `-`, and the text after it. */
  function SplitAtDash(s: string): Option<(string, string)> {
    if s == [] then None
    else if s[0] == '-' then Some(([], s[1..]))
    else match SplitAtDash(s[1..])
      case None => None
      case Some((a, b)) => Some(([s[0]] + a, b))
  }

  lemma {:induction false} SplitAfterDigits(digits: string, rest: string)
    requires forall i :: 0 <= i < |digits| ==> Text.IsDigit(digits[i])
    ensures SplitAtDash(digits + "-" + rest) == Some((digits, rest))
  {
    if digits == [] {
      assert digits + "-" + rest == "-" + rest;
    } else {
      assert (digits + "-" + rest)[1..] == digits[1..] + "-" + rest;
      SplitAfterDigits(digits[1..], rest);
      assert [digits[0]] + digits[1..] == digits;
    }
  }

  /** Reads a job id back into its clock reading and its random suffix. */
  function ParseJobId(id: string): Option<(nat, string)> {
    if !("job-" <= id) then None
    else match SplitAtDash(id[4..])
      case None => None
      case Some((digits, suffix)) =>
        match Text.ParseDecimal(digits)
        case None => None
        case Some(now) => Some((now, suffix))
  }

  /** A job id gives back the clock reading and the at most nine random characters it was built from. */
  lemma JobIdRoundTrip(now: nat, random36: string)
    ensures ParseJobId(JobId(now, random36)) == Some((now, Text.Substr(random36, 2, 9)))
    ensures |Text.Substr(random36, 2, 9)| <= 9
  {
    var id := JobId(now, random36);
    var suffix := Text.Substr(random36, 2, 9);
    assert id[4..] == Text.Decimal(now) + "-" + suffix;
    SplitAfterDigits(Text.Decimal(now), suffix);
    Text.DecimalRoundTrip(now);
  }

  /** Two jobs get the same id only when both the clock reading and the random suffix agree. */
  lemma JobIdInjective(now1: nat, r1: string, now2: nat, r2: string)
    requires JobId(now1, r1) == JobId(now2, r2)
    ensures now1 == now2 && Text.Substr(r1, 2, 9) == Text.Substr(r2, 2, 9)
  {
    JobIdRoundTrip(now1, r1);
    JobIdRoundTrip(now2, r2);
  }

  /**
   * `Math.random().toString(36)` is `0.` followed by base-36 digits (or `0`
   * alone for zero); the suffix is the first nine of those digits.
   */
  lemma JobSuffix(digits: string)
    ensures Text.Substr("0." + digits, 2, 9) == digits[..Text.Min(9, |digits|)]
    ensures Text.Substr("0", 2, 9) == ""
  {
    Text.SubstrPrefix("0." + digits, 2, 9);
    assert ("0." + digits)[2..Text.Min(11, |digits| + 2)] == digits[..Text.Min(9, |digits|)];
  }

  /** Why a background job ended without a report. */
  datatype JobFailure =
    | InsightsCallFailed(error: JsError)
    | MessageUnreadable(error: JsError)
    | ExtractionFailed(cause: ProcessInsights.ExtractionError)

  /** How a background job ends; either way it only writes a log line, nothing is stored. */
  datatype JobEnd = Completed(report: ProcessInsights.InsightReport) | Failed(failure: JobFailure)

  /**
   * `processInsightsJob`: `getInsights`, then `processInsights` on the
   * interpolated `message` of its result. Every failure is caught, so the job
   * always ends, and a report it completes with satisfies the schema.
   */
  function ProcessInsightsJob(repository: Value, lib: Library, numberText: real -> string): (e: JobEnd)
    ensures e.Completed? ==> ProcessInsights.Valid(e.report)
    ensures e.Completed? <==>
      lib.getInsights(repository).Ok? && Property(lib.getInsights(repository).value, "message").Ok? &&
      ProcessInsights.ProcessInsights(
        TemplateText(Property(lib.getInsights(repository).value, "message").value, numberText), lib.generate).Ok?
    ensures lib.getInsights(repository).Err? ==> e == Failed(InsightsCallFailed(lib.getInsights(repository).error))
  {
    match lib.getInsights(repository)
    case Err(error) => Failed(InsightsCallFailed(error))
    case Ok(result) =>
      match Property(result, "message")
      case Err(error) => Failed(MessageUnreadable(error))
      case Ok(message) =>
        match ProcessInsights.ProcessInsights(TemplateText(message, numberText), lib.generate)
        case Err(cause) => Failed(ExtractionFailed(cause))
        case Ok(report) => Completed(report)
  }


  /**
   * `handleInsights`: starts the job without waiting for it and answers
   * `{jobId}` with status 200. Nothing here can throw, so its 500 branch is
   * never taken.
   */
  function HandleInsights(now: nat, random36: string): (r: Reply)
    ensures r.status == 200
    ensures r.body == Obj(map["jobId" := Str(JobId(now, random36))])
  {
    var jobId := JobId(now, random36);
    match JsonReply(Obj(map["jobId" := Str(jobId)]))
    case Ok(reply) => reply
    case Err(_) => StartFailed
  }

  // ---------------------------------------------------------------------------
  // POST and GET
  // ---------------------------------------------------------------------------

  /** What `POST` answers, or the error it lets escape. */
  function Post(session: Option<Greptile.Session>, body: Result<Value, JsError>, lib: Library,
                now: nat, random36: string): (r: Result<Reply, JsError>)
    ensures !Authenticated(session) ==> r == Ok(Unauthorized)
    ensures r.Ok? ==> r.value.status in {200, 400, 401, 500}
    ensures r.Err? ==> Authenticated(session) && (body.Err? || body.value.Null? || body.value.Undefined?)
  {
    if !Authenticated(session) then Ok(Unauthorized)
    else match body
      case Err(e) => Err(e)
      case Ok(v) =>
        if v.Null? || v.Undefined? then Err(RuntimeTypeError)
        else
          var data := if v.Obj? then v.fields - {"action"} else map[];
          var action := if v.Obj? then Field(v.fields, "action") else Undefined;
          if action == Str("index") then Ok(HandleIndexing(Field(data, "repository"), lib))
          else if action == Str("query") then Ok(HandleQuery(Field(data, "repository"), Field(data, "query"), lib))
          else if action == Str("insights") then Ok(HandleInsights(now, random36))
          else Ok(InvalidAction)
  }

  /**
   * An authenticated `POST` with a non-null body runs exactly the handler its
   * action names, on the body's fields; a body that is not an object has no
   * action and gets 400 Invalid action. The insights answer does not depend
   * on any library call.
   */
  lemma PostDispatch(session: Option<Greptile.Session>, v: Value, lib: Library,
                     now: nat, random36: string)
    requires Authenticated(session)
    requires !v.Null? && !v.Undefined?
    ensures var r := Post(session, Ok(v), lib, now, random36);
      var m := if v.Obj? then v.fields else map[];
      var action := Field(m, "action");
      (!v.Obj? ==> r == Ok(InvalidAction)) &&
      (action == Str("index") ==> r == Ok(HandleIndexing(Field(m, "repository"), lib))) &&
      (action == Str("query") ==> r == Ok(HandleQuery(Field(m, "repository"), Field(m, "query"), lib))) &&
      (action == Str("insights") ==>
         r == Ok(Reply(200, Obj(map["jobId" := Str(JobId(now, random36))])))) &&
      (action !in {Str("index"), Str("query"), Str("insights")} ==> r == Ok(InvalidAction))
  {
    var m := if v.Obj? then v.fields else map[];
    var data := m - {"action"};
    assert Field(data, "repository") == Field(m, "repository");
    assert Field(data, "query") == Field(m, "query");
  }

  /** What `GET` answers; `repository` is `searchParams.get('repository')`. */
  function Get(session: Option<Greptile.Session>, repository: Option<string>, lib: Library): (r: Reply)
    ensures !Authenticated(session) ==> r == Unauthorized
    ensures Authenticated(session) && (repository.None? || repository.value == "") ==> r == RepositoryRequired
    ensures Authenticated(session) && repository.Some? && repository.value != "" ==>
      r == HandleProgress(repository.value, lib)
    ensures r.status in {200, 400, 401, 500}
  {
    if !Authenticated(session) then Unauthorized
    else if repository.None? || repository.value == "" then RepositoryRequired
    else HandleProgress(repository.value, lib)
  }
}
