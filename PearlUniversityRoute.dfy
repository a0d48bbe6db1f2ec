/**
 * `POST /api/pearl/university-verifications`: validates
 * `student.universityId`, trims it and verifies it by the suffix rule; the
 * response always carries the same provider metadata. The clock reading is a
 * parameter.
 */
module PearlUniversityRoute {
  import opened Wrappers
  import opened JsText
  import opened JsError
  import opened Json
  import opened Http

  datatype Metadata = Metadata(provider: string, rule: string)

  datatype UniversityResponse = UniversityResponse(
    universityId: string,
    verified: bool,
    reason: string,
    checkedAt: string,
    metadata: Metadata)

  const UniversityIdRequired := "student.universityId is required"
  const PearlMetadata := Metadata("Pearl", "simple-suffix-check")

  const EmptyReason := "Invalid or empty university ID"
  const BlockedReason := "University verification failed (blocked pattern)"
  const AcceptedReason := "University ID accepted"

  /** The verdict on an id and the reason given for it. */
  datatype Verdict = Verdict(verified: bool, reason: string)

  /** The suffix rule: an id is verified exactly when it is non-empty and does not end in `000`. */
  function Check(universityId: string): (v: Verdict)
    ensures v.verified <==> universityId != [] && !EndsWith(universityId, "000")
    ensures v.reason == EmptyReason <==> universityId == []
    ensures v.reason == BlockedReason <==> universityId != [] && EndsWith(universityId, "000")
    ensures v.verified <==> v.reason == AcceptedReason
  {
    if universityId == [] then Verdict(false, EmptyReason)
    else if EndsWith(universityId, "000") then Verdict(false, BlockedReason)
    else Verdict(true, AcceptedReason)
  }

  /** The body of the `try` block, after the request body was parsed. */
  function Handle(body: Value, checkedAt: string): Result<Response<UniversityResponse>, Thrown> {
    var student :- Read(body, "student");
    if !student.Truthy() || !Lookup(student.value, "universityId").IsString() then
      Success(BadRequest(UniversityIdRequired))
    else
      var universityId := Trim(Lookup(student.value, "universityId").value.s);
      var verdict := Check(universityId);
      Success(Ok(UniversityResponse(universityId, verdict.verified, verdict.reason, checkedAt, PearlMetadata)))
  }

  /** The handler: `request` is the outcome of parsing the body, `checkedAt` the clock reading. */
  function Post(request: Result<Value, Thrown>, checkedAt: string): (r: Response<UniversityResponse>)
    ensures request.Failure? ==> r == Classify(request.error)
    ensures r.Status() in {200, 400, 500}
    ensures r.Ok? ==> r.payload.metadata == Metadata("Pearl", "simple-suffix-check")
    ensures r.Ok? ==> r.payload.checkedAt == checkedAt
    ensures r.Ok? ==> (r.payload.verified <==> r.payload.universityId != [] && !EndsWith(r.payload.universityId, "000"))
  {
    match request
    case Failure(e) => Classify(e)
    case Success(body) => Respond(Handle(body, checkedAt))
  }

  /** A missing or falsy `student`, or a non-string `universityId`, is a 400 naming the field. */
  lemma {:induction false} PostRequiresUniversityId(fields: map<string, Value>, checkedAt: string)
    requires var student := Lookup(Obj(fields), "student");
             !student.Truthy() || !Lookup(student.value, "universityId").IsString()
    ensures Post(Success(Obj(fields)), checkedAt) == Error(400, "BadRequest", UniversityIdRequired)
  {
  }

  /** A string `universityId` is always answered with 200, echoing the trimmed id and its verdict. */
  lemma {:induction false} PostAccepts(fields: map<string, Value>, student: map<string, Value>, id: string, checkedAt: string)
    requires "student" in fields && fields["student"] == Obj(student)
    requires "universityId" in student && student["universityId"] == Str(id)
    ensures Post(Success(Obj(fields)), checkedAt)
         == Ok(UniversityResponse(Trim(id), Check(Trim(id)).verified, Check(Trim(id)).reason, checkedAt, PearlMetadata))
  {
  }

  /** An id of white space only is not verified, and it is not a bad request. */
  lemma {:induction false} PostBlankIdNotVerified(fields: map<string, Value>, student: map<string, Value>, id: string, checkedAt: string)
    requires "student" in fields && fields["student"] == Obj(student)
    requires "universityId" in student && student["universityId"] == Str(id)
    requires AllSpace(id)
    ensures Post(Success(Obj(fields)), checkedAt).Ok?
    ensures !Post(Success(Obj(fields)), checkedAt).payload.verified
    ensures Post(Success(Obj(fields)), checkedAt).payload.reason == EmptyReason
  {
  }

  /** A `null` body makes the read of `student` throw a TypeError, answered with 500. */
  lemma {:induction false} PostNullBody(checkedAt: string)
    ensures Post(Success(Null), checkedAt).Status() == 500
  {
    NullReadMessageWithoutJson("student");
  }
}
