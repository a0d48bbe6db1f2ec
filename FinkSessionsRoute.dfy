/**
 * `POST /api/fink/sessions`: validates `finkAccountId`, trims it, picks a
 * session tag by the account rule and returns a session id that carries the
 * tag. The uuid the runtime would generate is a parameter.
 */
module FinkSessionsRoute {
  import opened Wrappers
  import opened JsText
  import opened JsError
  import opened Json
  import opened Http
  import opened FinkSession

  datatype SessionResponse = SessionResponse(sessionId: string, finkAccountId: string, statusHint: SessionTag)

  const AccountIdRequired := "finkAccountId is required"

  /** The account rule: an empty id is invalid, an id ending in `999` is blocked, any other id succeeds. */
  function TagFor(accountId: string): (tag: SessionTag)
    ensures tag == InvalidAccount <==> accountId == []
    ensures tag == AccountBlocked <==> accountId != [] && EndsWith(accountId, "999")
    ensures tag == Succeeded <==> accountId != [] && !EndsWith(accountId, "999")
  {
    if accountId == [] then InvalidAccount
    else if EndsWith(accountId, "999") then AccountBlocked
    else Succeeded
  }

  /** The body of the `try` block, after the request body was parsed. */
  function Handle(body: Value, uuid: string): Result<Response<SessionResponse>, Thrown> {
    var field :- Read(body, "finkAccountId");
    if !field.IsString() then
      Success(BadRequest(AccountIdRequired))
    else
      var accountId := Trim(field.value.s);
      var tag := TagFor(accountId);
      Success(Ok(SessionResponse(EncodeSessionId(uuid, tag), accountId, tag)))
  }

  /** The handler: `request` is the outcome of parsing the body, `uuid` the generated identifier. */
  function Post(request: Result<Value, Thrown>, uuid: string): (r: Response<SessionResponse>)
    ensures request.Failure? ==> r == Classify(request.error)
    ensures r.Status() in {200, 400, 500}
    ensures r.Ok? ==> r.payload.statusHint == TagFor(r.payload.finkAccountId)
    ensures r.Ok? ==> r.payload.sessionId == EncodeSessionId(uuid, r.payload.statusHint)
  {
    match request
    case Failure(e) => Classify(e)
    case Success(body) => Respond(Handle(body, uuid))
  }

  /** A missing or non-string `finkAccountId` is a 400 naming the field. */
  lemma {:induction false} PostRequiresAccountId(fields: map<string, Value>, uuid: string)
    requires !Lookup(Obj(fields), "finkAccountId").IsString()
    ensures Post(Success(Obj(fields)), uuid) == Error(400, "BadRequest", AccountIdRequired)
  {
  }

  /** A string `finkAccountId` always succeeds, echoes the trimmed id and tags it by the account rule. */
  lemma {:induction false} PostAccepts(fields: map<string, Value>, id: string, uuid: string)
    requires "finkAccountId" in fields && fields["finkAccountId"] == Str(id)
    ensures Post(Success(Obj(fields)), uuid)
         == Ok(SessionResponse(EncodeSessionId(uuid, TagFor(Trim(id))), Trim(id), TagFor(Trim(id))))
  {
    assert Read(Obj(fields), "finkAccountId") == Success(Defined(Str(id)));
  }

  /** An id of white space only is an invalid account, not a bad request. */
  lemma {:induction false} PostBlankIdInvalid(fields: map<string, Value>, id: string, uuid: string)
    requires "finkAccountId" in fields && fields["finkAccountId"] == Str(id)
    requires AllSpace(id)
    ensures Post(Success(Obj(fields)), uuid).Ok?
    ensures Post(Success(Obj(fields)), uuid).payload.statusHint == InvalidAccount
  {
  }

  /** The response depends on the id only through its trimmed form. */
  lemma {:induction false} PostDependsOnTrimmedId(fields: map<string, Value>, a: string, b: string, uuid: string)
    requires Trim(a) == Trim(b)
    ensures Post(Success(Obj(fields["finkAccountId" := Str(a)])), uuid)
         == Post(Success(Obj(fields["finkAccountId" := Str(b)])), uuid)
  {
    PostAccepts(fields["finkAccountId" := Str(a)], a, uuid);
    PostAccepts(fields["finkAccountId" := Str(b)], b, uuid);
  }

  /** A `null` body makes the read of `finkAccountId` throw a TypeError, answered with 500. */
  lemma {:induction false} PostNullBody(uuid: string)
    ensures Post(Success(Null), uuid).Status() == 500
  {
    NullReadMessageWithoutJson("finkAccountId");
  }

  /** `statusHint` is the tag inside `sessionId`: decoding the returned id gives it back, with the uuid. */
  lemma {:induction false} PostHintDecodes(fields: map<string, Value>, id: string, uuid: string)
    requires IsUuidText(uuid)
    requires "finkAccountId" in fields && fields["finkAccountId"] == Str(id)
    ensures Post(Success(Obj(fields)), uuid).Ok?
    ensures DecodeSessionId(Post(Success(Obj(fields)), uuid).payload.sessionId)
         == DecodedSession(uuid, Some(Post(Success(Obj(fields)), uuid).payload.statusHint))
  {
    PostAccepts(fields, id, uuid);
    DecodeEncodeUuid(uuid, TagFor(Trim(id)));
  }
}
