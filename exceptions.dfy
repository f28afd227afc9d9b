/** The exceptions that reach the web layer, one constructor per handler of
    `GlobalExceptionHandler` (resolved to the most specific handler the
    exception's class selects). Messages that a handler reads through a null
    check are `Option`s. */
module Exceptions {
  import opened Wrappers

  datatype ApiException =
    | ResourceNotFound(message: string)
    | Validation(message: string)
    | ApiError(message: string)
    | UnsupportedOperation(optMessage: Option<string>)
    | IllegalArgument(message: string)
    | IllegalState(message: string)
      /** `ResponseStatusException`: its own status code and reason. */
    | ResponseStatus(code: nat, reason: string)
      /** `DataIntegrityViolationException`, with the message of its most specific cause. */
    | DataIntegrityViolation(cause: string)
    | RateLimit(message: string)
    | Unauthorized(message: string)
    | AccessDenied(optMessage: Option<string>)
    | AuthorizationDenied(optMessage: Option<string>)
      /** `ConstraintViolationException`: one message per violation. */
    | ConstraintViolation(violations: seq<string>)
      /** `HttpMessageNotReadableException`, with its most specific cause's message. */
    | MessageNotReadable(cause: string)
      /** `MethodArgumentNotValidException`: (field, default message) pairs and
          the status the framework hands to the handler. */
    | MethodArgumentNotValid(fieldErrors: seq<(string, string)>, status: nat)
      /** Any other exception (a `JwtException`, a moderation failure, ...). */
    | Unexpected(message: string)

  /** The text `ResponseStatusException`, `UnauthorizedException` and the login
      path carry for every failed login. */
  const INVALID_CREDENTIALS := "Invalid username or password"
}
