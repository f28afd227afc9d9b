/** `GlobalExceptionHandler`: every exception kind becomes a status code, an
    error title and a list of details. The timestamp is left out. */
module ExceptionHandler {
  import opened Wrappers
  import opened Exceptions

  datatype ErrorResponse = ErrorResponse(status: nat, error: string, details: seq<string>)

  const UNEXPECTED_DETAIL := "An unexpected error occurred"
  const ACCESS_DENIED_DETAIL := "You do not have permission to access this resource"
  const UNSUPPORTED_DETAIL := "Operation not supported"

  /** The HTTP status the handler answers with, by kind. */
  function StatusOf(e: ApiException): nat {
    match e
    case ResourceNotFound(_) => 404
    case Validation(_) => 400
    case ApiError(_) => 400
    case UnsupportedOperation(_) => 400
    case IllegalArgument(_) => 400
    case IllegalState(_) => 409
    case ResponseStatus(code, _) => code
    case DataIntegrityViolation(_) => 409
    case RateLimit(_) => 429
    case Unauthorized(_) => 401
    case AccessDenied(_) => 403
    case AuthorizationDenied(_) => 403
    case ConstraintViolation(_) => 400
    case MessageNotReadable(_) => 400
    case MethodArgumentNotValid(_, status) => status
    case Unexpected(_) => 500
  }

  function FieldErrors(errs: seq<(string, string)>): (r: seq<string>)
    ensures |r| == |errs|
    ensures forall i :: 0 <= i < |errs| ==> r[i] == errs[i].0 + ": " + errs[i].1
  {
    if errs == [] then [] else [errs[0].0 + ": " + errs[0].1] + FieldErrors(errs[1..])
  }

  /** The body the handler writes. Its `status` is the HTTP status, except
      for `handleMethodArgumentNotValid`, which writes 400 into the body and
      answers with the framework's status. */
  function Handle(e: ApiException): (r: ErrorResponse)
    ensures !e.MethodArgumentNotValid? ==> r.status == StatusOf(e)
    // handlers with one detail line carry exactly one
    ensures !e.ConstraintViolation? && !e.MethodArgumentNotValid? ==> |r.details| == 1
    // the catch-all never exposes the exception's own text
    ensures e.Unexpected? ==> r == ErrorResponse(500, "Internal Server Error", [UNEXPECTED_DETAIL])
    // a null message is replaced by the handler's default text
    ensures e.UnsupportedOperation? && e.optMessage.None? ==> r.details == [UNSUPPORTED_DETAIL]
    ensures (e.AccessDenied? || e.AuthorizationDenied?) && e.optMessage.None? ==> r.details == [ACCESS_DENIED_DETAIL]
    // a ResponseStatusException's reason is both the title and the detail
    ensures e.ResponseStatus? ==> r.error == e.reason && r.details == [e.reason]
    // the kinds that carry a message report it as their one detail, under the handler's title
    ensures e.ResourceNotFound? ==> r == ErrorResponse(404, "Not Found", [e.message])
    ensures e.Validation? || e.ApiError? ==> r.error == "Bad Request" && r.details == [e.message]
    ensures e.IllegalArgument? ==> r.error == "Bad request" && r.details == [e.message]
    ensures e.IllegalState? ==> r.error == "Conflict" && r.details == [e.message]
    ensures e.RateLimit? ==> r.error == "Too Many Requests" && r.details == [e.message]
    ensures e.Unauthorized? ==> r.error == "Unauthorized" && r.details == [e.message]
    ensures e.UnsupportedOperation? ==> r.error == "Bad Request" && (e.optMessage.Some? ==> r.details == [e.optMessage.value])
    ensures (e.AccessDenied? || e.AuthorizationDenied?) ==>
              r.error == "Access Denied" && (e.optMessage.Some? ==> r.details == [e.optMessage.value])
    ensures e.DataIntegrityViolation? ==> r.error == "Conflict" && r.details == ["Database error: " + e.cause]
    ensures e.MessageNotReadable? ==> r.error == "Malformed JSON" && r.details == [e.cause]
    // the two validation handlers list every violation, in order
    ensures e.ConstraintViolation? ==> r.error == "Validation Failed" && r.details == e.violations
    ensures e.MethodArgumentNotValid? ==> r == ErrorResponse(400, "Validation Failed", FieldErrors(e.fieldErrors))
  {
    match e
    case ResourceNotFound(m) => ErrorResponse(404, "Not Found", [m])
    case Validation(m) => ErrorResponse(400, "Bad Request", [m])
    case ApiError(m) => ErrorResponse(400, "Bad Request", [m])
    case UnsupportedOperation(om) =>
      ErrorResponse(400, "Bad Request", [if om.Some? then om.value else UNSUPPORTED_DETAIL])
    case IllegalArgument(m) => ErrorResponse(400, "Bad request", [m])
    case IllegalState(m) => ErrorResponse(409, "Conflict", [m])
    case ResponseStatus(code, reason) => ErrorResponse(code, reason, [reason])
    case DataIntegrityViolation(cause) => ErrorResponse(409, "Conflict", ["Database error: " + cause])
    case RateLimit(m) => ErrorResponse(429, "Too Many Requests", [m])
    case Unauthorized(m) => ErrorResponse(401, "Unauthorized", [m])
    case AccessDenied(om) => ErrorResponse(403, "Access Denied", [if om.Some? then om.value else ACCESS_DENIED_DETAIL])
    case AuthorizationDenied(om) => ErrorResponse(403, "Access Denied", [if om.Some? then om.value else ACCESS_DENIED_DETAIL])
    case ConstraintViolation(vs) => ErrorResponse(400, "Validation Failed", vs)
    case MessageNotReadable(cause) => ErrorResponse(400, "Malformed JSON", [cause])
    case MethodArgumentNotValid(errs, _) => ErrorResponse(400, "Validation Failed", FieldErrors(errs))
    case Unexpected(_) => ErrorResponse(500, "Internal Server Error", [UNEXPECTED_DETAIL])
  }

  /** Which kinds the handler treats as the client's fault (a 4xx answer):
      every kind but the catch-all and the two that carry a status of their own. */
  predicate IsClientErrorKind(e: ApiException) {
    !e.Unexpected? && !e.ResponseStatus? && !e.MethodArgumentNotValid?
  }

  lemma ClientErrorKindsAre4xx(e: ApiException)
    requires IsClientErrorKind(e)
    ensures 400 <= Handle(e).status < 500
  {
  }

  /** Two unexpected exceptions are indistinguishable to the client, whatever their text. */
  lemma UnexpectedHidesMessage(m1: string, m2: string)
    ensures Handle(Unexpected(m1)) == Handle(Unexpected(m2))
  {
  }

  /** The detail of a data-integrity violation is the cause's message behind a fixed prefix. */
  lemma DataIntegrityDetail(cause: string)
    ensures Handle(DataIntegrityViolation(cause)).details[0][..16] == "Database error: "
    ensures Handle(DataIntegrityViolation(cause)).details[0][16..] == cause
  {
  }
}
