/** `GreptileError` and `handleApiResponse`: how a response of the indexing service is classified. */
module GreptileUtils {
  import opened Wrappers
  import opened Json
  import opened Http
  import Text

  const StatusPrefix := "HTTP error! status: "

  /** The message of a non-OK response: the prefix followed by the status in decimal. */
  function StatusMessage(status: nat): string {
    StatusPrefix + Text.Decimal(status)
  }

  /** Reads the status back out of a message. */
  function StatusOfMessage(message: string): Option<nat> {
    if StatusPrefix <= message then Text.ParseDecimal(message[|StatusPrefix|..]) else None
  }

  /** The message determines the status it was built from. */
  lemma StatusMessageRoundTrip(status: nat)
    ensures StatusOfMessage(StatusMessage(status)) == Some(status)
  {
    Text.DecimalRoundTrip(status);
    assert StatusMessage(status)[|StatusPrefix|..] == Text.Decimal(status);
  }

  /** `new GreptileError(message)`: an error whose name is `GreptileError`. */
  function NewGreptileError(message: string): (e: JsError)
    ensures e.name == "GreptileError" && e.message == message
  {
    JsError("GreptileError", message)
  }

  /**
   * `handleApiResponse(response)`: a non-OK response throws a `GreptileError`
   * carrying its status, without reading the body; an OK response yields the
   * parsed body unchanged (or the parse error).
   */
  function HandleApiResponse(response: Response): (r: Result<Value, JsError>)
    ensures !IsOk(response.status) ==>
      r.Err? && r.error.name == "GreptileError" && StatusOfMessage(r.error.message) == Some(response.status)
    ensures IsOk(response.status) ==> r == response.json
  {
    if !IsOk(response.status) then
      StatusMessageRoundTrip(response.status);
      Err(NewGreptileError(StatusMessage(response.status)))
    else response.json
  }

  /** On a non-OK response the body is never consulted: any two bodies give the same error. */
  lemma NonOkIgnoresBody(status: nat, a: Result<Value, JsError>, b: Result<Value, JsError>)
    requires !IsOk(status)
    ensures HandleApiResponse(Response(status, a)) == HandleApiResponse(Response(status, b))
    ensures HandleApiResponse(Response(status, a)) == Err(JsError("GreptileError", StatusPrefix + Text.Decimal(status)))
  {
  }
}
