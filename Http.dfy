/**
 * The response shape every handler returns, and the classifier its `catch`
 * block applies to whatever was thrown inside the `try`.
 */
module Http {
  import opened Wrappers
  import opened JsText
  import opened JsError

  /** A response: status 200 with a payload, or an error envelope `{ error, message, details: null }` with its status. */
  datatype Response<+T> = Ok(payload: T) | Error(status: nat, error: string, message: string) {

    function Status(): nat {
      if Ok? then 200 else status
    }
  }

  const InvalidJsonMessage := "Invalid JSON in request body"
  const UnexpectedMessage := "An unexpected error occurred"

  /** A 400 response with the `BadRequest` error code. */
  function BadRequest<T>(message: string): Response<T> {
    Error(400, "BadRequest", message)
  }

  /** The test that picks 400 over 500 in every `catch` block. */
  predicate LooksLikeBadJson(e: Thrown) {
    (e.ErrorObject? && e.kind == SyntaxError) || Contains(MessageOf(e), "JSON")
  }

  /**
   * The `catch` block: a SyntaxError, or anything whose message mentions
   * `JSON`, is the client's malformed body (400); anything else is an
   * internal error (500).
   */
  function Classify<T>(e: Thrown): (r: Response<T>)
    ensures r.Error?
    ensures r.Status() == 400 <==> LooksLikeBadJson(e)
    ensures r.Status() == 400 ==> r == BadRequest(InvalidJsonMessage)
    ensures r.Status() != 400 ==> r.Status() == 500 && r.error == "InternalError" && r.message == UnexpectedMessage
  {
    if LooksLikeBadJson(e) then BadRequest(InvalidJsonMessage) else Error(500, "InternalError", UnexpectedMessage)
  }

  /** The `try`/`catch` around a handler body: its response, or the classification of what it threw. */
  function Respond<T>(attempt: Result<Response<T>, Thrown>): (r: Response<T>)
    ensures attempt.Success? ==> r == attempt.value
    ensures attempt.Failure? ==> r == Classify(attempt.error)
  {
    match attempt
    case Success(response) => response
    case Failure(e) => Classify(e)
  }

  /** Any error whose message mentions `JSON` anywhere is answered with 400, whatever its class. */
  lemma ClassifyJsonMention<T>(e: Thrown, before: string, after: string)
    requires MessageOf(e) == before + "JSON" + after
    ensures Classify<T>(e) == BadRequest(InvalidJsonMessage)
  {
    assert OccursAt(MessageOf(e), "JSON", |before|) by {
      var m := MessageOf(e);
      assert m[|before|..|before| + 4] == "JSON";
    }
  }
}
