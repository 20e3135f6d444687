/** The standard error replies of the serverless handlers (lib/error-response.js): a
    body `{success: false, error: <code>, message}` and a fixed table from helper to
    HTTP status and error code. Logging is left out; the optional error detail is only
    ever logged, which the model states by never letting it reach the reply. */
module ErrorResponse {
  import opened Text

  /** The entries of ERROR_CODES. */
  datatype Code =
    | MethodNotAllowedCode
    | BadRequestCode
    | ValidationErrorCode
    | NotFoundCode
    | RateLimitExceededCode
    | ScanLimitExceededCode
    | InternalServerErrorCode
    | ConfigurationErrorCode
    | ExternalServiceErrorCode
    | DatabaseErrorCode

  function CodeText(c: Code): string {
    match c
    case MethodNotAllowedCode => "METHOD_NOT_ALLOWED"
    case BadRequestCode => "BAD_REQUEST"
    case ValidationErrorCode => "VALIDATION_ERROR"
    case NotFoundCode => "NOT_FOUND"
    case RateLimitExceededCode => "RATE_LIMIT_EXCEEDED"
    case ScanLimitExceededCode => "SCAN_LIMIT_EXCEEDED"
    case InternalServerErrorCode => "INTERNAL_SERVER_ERROR"
    case ConfigurationErrorCode => "CONFIGURATION_ERROR"
    case ExternalServiceErrorCode => "EXTERNAL_SERVICE_ERROR"
    case DatabaseErrorCode => "DATABASE_ERROR"
  }

  /** `createErrorResponse(errorCode, message)`; a `message` of None is `undefined`,
      which JSON serialisation leaves out of the body. */
  datatype ErrorBody = ErrorBody(success: bool, error: string, message: Option<string>)

  datatype ErrorReply = ErrorReply(status: int, body: ErrorBody)

  function CreateErrorResponse(errorCode: string, message: Option<string>): (b: ErrorBody)
    ensures !b.success
  {
    ErrorBody(false, errorCode, message)
  }

  /** sendErrorResponse: `res.status(statusCode).json(createErrorResponse(errorCode,
      message))`. The `error` detail is a parameter only so that the model can say it is
      not sent. */
  function SendErrorResponse(statusCode: int, errorCode: string, message: Option<string>, error: Option<string>): (r: ErrorReply)
    ensures r.status == statusCode && !r.body.success
    ensures r.body.error == errorCode && r.body.message == message
  {
    ErrorReply(statusCode, CreateErrorResponse(errorCode, message))
  }

  /** Whatever error detail accompanies a call, the client receives the same reply. */
  lemma ErrorDetailNeverSent(statusCode: int, errorCode: string, message: Option<string>, e1: Option<string>, e2: Option<string>)
    ensures SendErrorResponse(statusCode, errorCode, message, e1) == SendErrorResponse(statusCode, errorCode, message, e2)
    ensures SendErrorResponse(statusCode, errorCode, message, e1).body == ErrorBody(false, errorCode, message)
  {
  }

  /** The helpers of the ErrorResponse object. */
  datatype Helper =
    | BadRequest
    | NotFound
    | MethodNotAllowed
    | RateLimitExceeded
    | InternalServerError
    | ConfigurationError
    | DatabaseError
    | ExternalServiceError
    | GatewayTimeout
    | ValidationError

  /** Every helper answers with an error status; 429 Too Many Requests (section 4 of
      RFC 6585) belongs to rateLimitExceeded alone and 504 to the timeout alone. */
  function StatusOf(h: Helper): (status: int)
    ensures 400 <= status < 600
    ensures status == 429 <==> h == RateLimitExceeded
    ensures status == 504 <==> h == GatewayTimeout
  {
    match h
    case BadRequest => 400
    case NotFound => 404
    case MethodNotAllowed => 405
    case RateLimitExceeded => 429
    case InternalServerError => 500
    case ConfigurationError => 500
    case DatabaseError => 500
    case ExternalServiceError => 500
    case GatewayTimeout => 504
    case ValidationError => 400
  }

  /** Each helper's code; the timeout reuses EXTERNAL_SERVICE_ERROR and no other code is
      shared. */
  function CodeOf(h: Helper): (c: Code)
    ensures c == ExternalServiceErrorCode <==> h == ExternalServiceError || h == GatewayTimeout
    ensures c == ValidationErrorCode <==> h == ValidationError
    ensures c == BadRequestCode <==> h == BadRequest
    ensures c != ScanLimitExceededCode
  {
    match h
    case BadRequest => BadRequestCode
    case NotFound => NotFoundCode
    case MethodNotAllowed => MethodNotAllowedCode
    case RateLimitExceeded => RateLimitExceededCode
    case InternalServerError => InternalServerErrorCode
    case ConfigurationError => ConfigurationErrorCode
    case DatabaseError => DatabaseErrorCode
    case ExternalServiceError => ExternalServiceErrorCode
    case GatewayTimeout => ExternalServiceErrorCode
    case ValidationError => ValidationErrorCode
  }

  /** The default `message` parameter; badRequest, configurationError and
      validationError have none. */
  function DefaultMessage(h: Helper): (m: Option<string>)
    ensures m.None? <==> h == BadRequest || h == ConfigurationError || h == ValidationError
    ensures m.Some? ==> m.value != ""
  {
    match h
    case BadRequest => None
    case NotFound => Some("Resource not found")
    case MethodNotAllowed => Some("Method not allowed")
    case RateLimitExceeded => Some("Too many requests. Please try again later.")
    case InternalServerError => Some("An internal server error occurred")
    case ConfigurationError => None
    case DatabaseError => Some("Database operation failed")
    case ExternalServiceError => Some("External service error")
    case GatewayTimeout => Some("Request timeout")
    case ValidationError => None
  }

  /** `ErrorResponse.<helper>(res, message, error)`; an omitted message takes the
      helper's default. */
  function Send(h: Helper, message: Option<string>, error: Option<string>): (r: ErrorReply)
    ensures !r.body.success
  {
    var m := if message.Some? then message else DefaultMessage(h);
    SendErrorResponse(StatusOf(h), CodeText(CodeOf(h)), m, error)
  }

  predicate IsClientError(h: Helper) {
    h.BadRequest? || h.NotFound? || h.MethodNotAllowed? || h.RateLimitExceeded? || h.ValidationError?
  }

  /** Client-side helpers answer in the 4xx range and the others in the 5xx range;
      400 is shared by badRequest and validationError only, 500 by the four server
      failures only. */
  lemma StatusTable(h: Helper)
    ensures IsClientError(h) <==> 400 <= StatusOf(h) < 500
    ensures StatusOf(h) == 400 <==> h == BadRequest || h == ValidationError
    ensures StatusOf(h) == 500 <==>
              h == InternalServerError || h == ConfigurationError || h == DatabaseError || h == ExternalServiceError
  {
  }

  /** Two helpers share a code only in the timeout case: gatewayTimeout reuses
      EXTERNAL_SERVICE_ERROR, and validationError is not BAD_REQUEST. Status and code
      together always tell the helper apart. */
  lemma CodesShared(h1: Helper, h2: Helper)
    ensures h1 != h2 && CodeOf(h1) == CodeOf(h2) <==>
              {h1, h2} == {ExternalServiceError, GatewayTimeout}
    ensures StatusOf(h1) == StatusOf(h2) && CodeOf(h1) == CodeOf(h2) ==> h1 == h2
    ensures CodeOf(ValidationError) != CodeOf(BadRequest)
  {
  }

  /** Every helper sends `{success: false, error: <its code>, message}` with its own
      status, and never the error detail. */
  lemma HelperReply(h: Helper, message: Option<string>, e1: Option<string>, e2: Option<string>)
    ensures Send(h, message, e1) == Send(h, message, e2)
    ensures Send(h, message, e1).status == StatusOf(h)
    ensures Send(h, message, e1).body.error == CodeText(CodeOf(h))
    ensures message.Some? ==> Send(h, message, e1).body.message == message
    ensures message.None? ==> Send(h, message, e1).body.message == DefaultMessage(h)
  {
  }
}
