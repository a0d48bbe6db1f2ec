/**
 * `POST /api/pearl/student-verifications`: validates `personId`, trims it
 * and verifies it by the suffix rule; the response always carries the role
 * `STUDENT`. The clock reading is a parameter.
 */
module PearlStudentRoute {
  import opened Wrappers
  import opened JsText
  import opened JsError
  import opened Json
  import opened Http

  datatype StudentResponse = StudentResponse(
    personId: string,
    verified: bool,
    reason: string,
    checkedAt: string,
    role: string)

  const PersonIdRequired := "personId is required"
  const StudentRole := "STUDENT"

  const EmptyReason := "Invalid or empty person ID"
  const BlockedReason := "Student verification failed (blocked pattern)"
  const AcceptedReason := "Student ID accepted"

  /** The verdict on an id and the reason given for it. */
  datatype Verdict = Verdict(verified: bool, reason: string)

  /** The suffix rule: an id is verified exactly when it is non-empty and does not end in `000`. */
  function Check(personId: string): (v: Verdict)
    ensures v.verified <==> personId != [] && !EndsWith(personId, "000")
    ensures v.reason == EmptyReason <==> personId == []
    ensures v.reason == BlockedReason <==> personId != [] && EndsWith(personId, "000")
    ensures v.verified <==> v.reason == AcceptedReason
  {
    if personId == [] then Verdict(false, EmptyReason)
    else if EndsWith(personId, "000") then Verdict(false, BlockedReason)
    else Verdict(true, AcceptedReason)
  }

  /** The body of the `try` block, after the request body was parsed. */
  function Handle(body: Value, checkedAt: string): Result<Response<StudentResponse>, Thrown> {
    var field :- Read(body, "personId");
    if !field.IsString() then
      Success(BadRequest(PersonIdRequired))
    else
      var personId := Trim(field.value.s);
      var verdict := Check(personId);
      Success(Ok(StudentResponse(personId, verdict.verified, verdict.reason, checkedAt, StudentRole)))
  }

  /** The handler: `request` is the outcome of parsing the body, `checkedAt` the clock reading. */
  function Post(request: Result<Value, Thrown>, checkedAt: string): (r: Response<StudentResponse>)
    ensures request.Failure? ==> r == Classify(request.error)
    ensures r.Status() in {200, 400, 500}
    ensures r.Ok? ==> r.payload.role == "STUDENT" && r.payload.checkedAt == checkedAt
    ensures r.Ok? ==> (r.payload.verified <==> r.payload.personId != [] && !EndsWith(r.payload.personId, "000"))
  {
    match request
    case Failure(e) => Classify(e)
    case Success(body) => Respond(Handle(body, checkedAt))
  }

  /** A missing or non-string `personId` is a 400 naming the field. */
  lemma {:induction false} PostRequiresPersonId(fields: map<string, Value>, checkedAt: string)
    requires !Lookup(Obj(fields), "personId").IsString()
    ensures Post(Success(Obj(fields)), checkedAt) == Error(400, "BadRequest", PersonIdRequired)
  {
  }

  /** A string `personId` is always answered with 200, echoing the trimmed id and its verdict. */
  lemma {:induction false} PostAccepts(fields: map<string, Value>, id: string, checkedAt: string)
    requires "personId" in fields && fields["personId"] == Str(id)
    ensures Post(Success(Obj(fields)), checkedAt)
         == Ok(StudentResponse(Trim(id), Check(Trim(id)).verified, Check(Trim(id)).reason, checkedAt, StudentRole))
  {
  }

  /** An id of white space only is not verified, and it is not a bad request. */
  lemma {:induction false} PostBlankIdNotVerified(fields: map<string, Value>, id: string, checkedAt: string)
    requires "personId" in fields && fields["personId"] == Str(id)
    requires AllSpace(id)
    ensures Post(Success(Obj(fields)), checkedAt).Ok?
    ensures !Post(Success(Obj(fields)), checkedAt).payload.verified
    ensures Post(Success(Obj(fields)), checkedAt).payload.reason == EmptyReason
  {
  }

  /** A `null` body makes the read of `personId` throw a TypeError, answered with 500. */
  lemma {:induction false} PostNullBody(checkedAt: string)
    ensures Post(Success(Null), checkedAt).Status() == 500
  {
    NullReadMessageWithoutJson("personId");
  }
}
