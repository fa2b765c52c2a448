/**
 * `RestExceptionHandler`: how every exception that escapes a controller
 * becomes an HTTP status and a JSON error body `{timestamp, status, code,
 * message, …}`.
 *
 * Each handler is a decision chain over the exception's message or status
 * code. The clock (`Instant.now()`) is the parameter `timestamp`, and the
 * `spring.profiles.active` system property is the parameter `profile`.
 * A handler that dereferences a `null` message throws itself; that outcome
 * is `None`.
 */
module ErrorHandler {
  import opened Common

  // Status codes of section 15 of RFC 9110, and 429 of section 4 of RFC 6585.
  const BadRequest := 400
  const NotFound := 404
  const MethodNotAllowed := 405
  const Conflict := 409
  const UnprocessableContent := 422
  const TooManyRequests := 429
  const InternalServerError := 500
  const BadGateway := 502
  const ServiceUnavailable := 503
  const GatewayTimeout := 504

  /** The keys an error body can carry. */
  datatype Key =
    | Timestamp | Status | Code | Message | Fields
    | Details | SqlState | ErrorCode | ExternalApiStatus | ExternalApiResponse | CauseName | ExceptionType

  /** The JSON member name each key is written under. */
  function KeyName(k: Key): string {
    match k
    case Timestamp => "timestamp"
    case Status => "status"
    case Code => "code"
    case Message => "message"
    case Fields => "fields"
    case Details => "details"
    case SqlState => "sqlState"
    case ErrorCode => "errorCode"
    case ExternalApiStatus => "externalApiStatus"
    case ExternalApiResponse => "externalApiResponse"
    case CauseName => "cause"
    case ExceptionType => "exceptionType"
  }

  /** Distinct keys are written under distinct names. */
  lemma KeyNamesDistinct(a: Key, b: Key)
    requires a != b
    ensures KeyName(a) != KeyName(b)
  {
  }

  /** A value of the error body. */
  datatype BodyValue =
    | Text(text: string)
    | Number(number: int)
    | Null
    | FieldMessages(messages: map<string, Option<string>>)

  datatype Response = Response(status: int, body: map<Key, BodyValue>)

  /** `FieldError`: the rejected field and its (nullable) default message. */
  datatype FieldError = FieldError(field: string, defaultMessage: Option<string>)

  /** The cause of a `ResourceAccessException`: whether it is a `SocketTimeoutException`, and its simple class name. */
  datatype Cause = Cause(isSocketTimeout: bool, simpleName: string)

  /** The exceptions the handler distinguishes, with what each handler reads of them. */
  datatype Failure =
    | ValidationFailed(fieldErrors: seq<FieldError>)
    | IllegalArgumentThrown(message: Option<string>)
    | IllegalStateThrown(message: Option<string>)
    | EntityNotFoundThrown(message: Option<string>)
    | DataIntegrityViolation(message: Option<string>)
    | SqlFailure(message: Option<string>, sqlState: Option<string>, errorCode: int)
    | HttpClientError(statusCode: int, responseBody: string)
    | HttpServerError(statusCode: int, responseBody: string)
    | ResourceAccess(message: Option<string>, cause: Option<Cause>)
    | SocketTimeout(message: Option<string>)
    | MethodNotSupported(httpMethod: string, supportedMethods: seq<string>)
    | NoResourceFound
    | MissingParameter(parameterName: string, parameterType: string)
    | TypeMismatch(name: string, requiredType: Option<string>)
    | MessageNotReadable(message: Option<string>)
    | Unexpected(message: Option<string>, simpleName: string)

  /** The service's own failures, as the exceptions they are thrown as. */
  function OfServiceError(e: Error): (r: Failure)
    ensures e.IllegalArgument? ==> r == IllegalArgumentThrown(Some(e.message))
    ensures e.IllegalState? ==> r == IllegalStateThrown(Some(e.message))
    ensures e.EntityNotFound? ==> r == EntityNotFoundThrown(Some(e.message))
    ensures e.Runtime? ==> r == Unexpected(Some(e.message), "RuntimeException")
    ensures e.UpstreamServerError? ==> r == HttpServerError(e.statusCode, e.responseBody)
    ensures e.UpstreamUnreachable? ==> r == ResourceAccess(Some(e.reason), Some(Cause(e.timedOut, e.causeName)))
  {
    match e
    case IllegalArgument(m) => IllegalArgumentThrown(Some(m))
    case IllegalState(m) => IllegalStateThrown(Some(m))
    case EntityNotFound(m) => EntityNotFoundThrown(Some(m))
    case Runtime(m) => Unexpected(Some(m), "RuntimeException")
    case UpstreamServerError(code, body) => HttpServerError(code, body)
    case UpstreamUnreachable(m, name, timedOut) => ResourceAccess(Some(m), Some(Cause(timedOut, name)))
  }

  // ---------------------------------------------------------------- helpers

  /** `isDevelopmentMode`: no active profile, or `dev`, or `development`. */
  function IsDevelopmentMode(profile: Option<string>): (r: bool)
    ensures r <==> profile == None || profile == Some("dev") || profile == Some("development")
  {
    match profile
    case None => true
    case Some(env) => env == "dev" || env == "development"
  }

  function TextOrNull(s: Option<string>): BodyValue {
    match s
    case None => Null
    case Some(t) => Text(t)
  }

  /** `buildErrorResponse`: the four common keys, the status field being the status given. */
  function BuildErrorResponse(code: string, message: Option<string>, status: int, timestamp: string)
    : (r: map<Key, BodyValue>)
    ensures r.Keys == {Timestamp, Status, Code, Message}
    ensures r[Status] == Number(status) && r[Code] == Text(code)
    ensures r[Message] == TextOrNull(message) && r[Timestamp] == Text(timestamp)
  {
    map[Timestamp := Text(timestamp), Status := Number(status), Code := Text(code),
        Message := TextOrNull(message)]
  }

  /** The response carrying a built body, with the same status on the wire and in the body. */
  function Respond(code: string, message: Option<string>, status: int, timestamp: string): (r: Response)
    ensures WellFormed(r) && NoDiagnostics(r.body) && r.status == status
    ensures r.body[Code] == Text(code) && r.body[Message] == TextOrNull(message)
  {
    Response(status, BuildErrorResponse(code, message, status, timestamp))
  }

  /** Extra keys added only in development mode. */
  function WithDiagnostics(body: map<Key, BodyValue>, profile: Option<string>, extra: map<Key, BodyValue>)
    : (r: map<Key, BodyValue>)
    ensures IsDevelopmentMode(profile) ==> r == body + extra
    ensures !IsDevelopmentMode(profile) ==> r == body
    ensures body.Keys <= r.Keys
    ensures Status in body && Status !in extra ==> r[Status] == body[Status]
    ensures Code in body && Code !in extra ==> r[Code] == body[Code]
    ensures Message in body && Message !in extra ==> r[Message] == body[Message]
  {
    if IsDevelopmentMode(profile) then body + extra else body
  }

  // ---------------------------------------------------------------- validation

  /** The `fields` map: one entry per rejected field, a later error overwriting an earlier one. */
  function FieldMap(errors: seq<FieldError>): map<string, Option<string>> {
    if errors == [] then map[]
    else
      var last := errors[|errors| - 1];
      FieldMap(errors[..|errors| - 1])[last.field := last.defaultMessage]
  }

  /** Every rejected field, and only those, has an entry. */
  lemma {:induction false} FieldMapKeys(errors: seq<FieldError>)
    ensures forall f :: f in FieldMap(errors) <==> exists i :: 0 <= i < |errors| && errors[i].field == f
  {
    if errors != [] {
      var n := |errors| - 1;
      var init := errors[..n];
      FieldMapKeys(init);
      assert FieldMap(errors) == FieldMap(init)[errors[n].field := errors[n].defaultMessage];
      forall f | f in FieldMap(errors)
        ensures exists i :: 0 <= i < |errors| && errors[i].field == f
      {
        if f != errors[n].field {
          var i :| 0 <= i < |init| && init[i].field == f;
          assert errors[i].field == f;
        }
      }
      forall f | exists i :: 0 <= i < |errors| && errors[i].field == f
        ensures f in FieldMap(errors)
      {
        var i :| 0 <= i < |errors| && errors[i].field == f;
        if i < n {
          assert init[i].field == f;
        }
      }
    }
  }

  /** A field's entry holds the message of the last error on that field. */
  lemma {:induction false} FieldMapLast(errors: seq<FieldError>, i: nat)
    requires i < |errors|
    requires forall j :: i < j < |errors| ==> errors[j].field != errors[i].field
    ensures errors[i].field in FieldMap(errors) && FieldMap(errors)[errors[i].field] == errors[i].defaultMessage
  {
    var n := |errors| - 1;
    var init := errors[..n];
    assert FieldMap(errors) == FieldMap(init)[errors[n].field := errors[n].defaultMessage];
    if i < n {
      assert init[i] == errors[i];
      FieldMapLast(init, i);
    }
  }

  /** The loop of `handleValidation` that fills the `fields` map. */
  method CollectFieldErrors(errors: seq<FieldError>) returns (fields: map<string, Option<string>>)
    ensures fields == FieldMap(errors)
  {
    fields := map[];
    for i := 0 to |errors|
      invariant fields == FieldMap(errors[..i])
    {
      assert errors[..i + 1][..i] == errors[..i];
      fields := fields[errors[i].field := errors[i].defaultMessage];
    }
    assert errors[..|errors|] == errors;
  }

  // ---------------------------------------------------------------- classification chains

  /** A code with the message that goes with it. */
  datatype Classified = Classified(code: string, message: string)

  const DuplicateEntry := Classified("DUPLICATE_ENTRY", "A record with this data already exists")
  const ForeignKeyViolation :=
    Classified("FOREIGN_KEY_VIOLATION", "Reference to non-existent data. Verifies that the related data exists.")
  const NullValue := Classified("NULL_VALUE_ERROR", "Mandatory data is missing from the application")
  const IntegrityError := Classified("DATA_INTEGRITY_ERROR", "Data integrity error")

  predicate MentionsDuplicate(lowered: string) {
    Contains(lowered, "duplicate") || Contains(lowered, "unique")
  }

  predicate MentionsForeignKey(lowered: string) {
    Contains(lowered, "foreign key") || Contains(lowered, "referential integrity")
  }

  /** `handleDataIntegrityViolation`'s chain over the lower-cased message. */
  function IntegrityClass(lowered: string): (r: Classified)
    ensures MentionsDuplicate(lowered) ==> r == DuplicateEntry
    ensures !MentionsDuplicate(lowered) && MentionsForeignKey(lowered) ==> r == ForeignKeyViolation
    ensures r == NullValue <==>
            !MentionsDuplicate(lowered) && !MentionsForeignKey(lowered) && Contains(lowered, "null")
    ensures r.code == IntegrityError.code ==> r == IntegrityError
  {
    assert Contains(lowered, "not-null") ==> Contains(lowered, "null") by {
      if Contains(lowered, "not-null") {
        NotNullMeansNull(lowered);
      }
    }
    if MentionsDuplicate(lowered) then DuplicateEntry
    else if MentionsForeignKey(lowered) then ForeignKeyViolation
    else if Contains(lowered, "null") || Contains(lowered, "not-null") then NullValue
    else IntegrityError
  }

  /** The `"not-null"` test never decides anything: such a message already contains `"null"`. */
  lemma NotNullMeansNull(s: string)
    requires Contains(s, "not-null")
    ensures Contains(s, "null")
  {
    ContainsLast("not-", "null");
    assert "not-" + "null" == "not-null";
    ContainsTransitive(s, "not-null", "null");
  }

  /** A code, its message and the status it is sent with. */
  datatype Decision = Decision(code: string, message: string, status: int)

  const DatabaseAuthFailed :=
    Decision("DATABASE_AUTH_FAILED", "Database authentication failed. Please check database credentials",
             InternalServerError)
  const DatabaseNotFound := Decision("DATABASE_NOT_FOUND", "The specified database does not exist",
                                     ServiceUnavailable)
  const DatabaseTimeout := Decision("DATABASE_TIMEOUT", "Database connection timeout", ServiceUnavailable)
  const DatabaseConnectionError :=
    Decision("DATABASE_CONNECTION_ERROR", "Error connecting to the database", ServiceUnavailable)

  predicate AuthenticationFailure(lowered: string) {
    Contains(lowered, "authentication failed") || Contains(lowered, "password authentication failed") ||
    Contains(lowered, "access denied") || Contains(lowered, "invalid authorization")
  }

  predicate MissingDatabase(lowered: string) {
    Contains(lowered, "database") && Contains(lowered, "does not exist")
  }

  predicate MentionsTimeout(lowered: string) {
    Contains(lowered, "timeout") || Contains(lowered, "timed out")
  }

  /** `handleSQLException`'s chain over the lower-cased message. */
  function SqlDecision(lowered: string): (r: Decision)
    ensures r.status == InternalServerError <==> AuthenticationFailure(lowered)
    ensures r.status != InternalServerError ==> r.status == ServiceUnavailable
    ensures AuthenticationFailure(lowered) ==> r == DatabaseAuthFailed
    ensures r == DatabaseNotFound <==> !AuthenticationFailure(lowered) && MissingDatabase(lowered)
    ensures r == DatabaseTimeout <==>
            !AuthenticationFailure(lowered) && !MissingDatabase(lowered) && MentionsTimeout(lowered)
  {
    if AuthenticationFailure(lowered) then DatabaseAuthFailed
    else if MissingDatabase(lowered) then DatabaseNotFound
    else if MentionsTimeout(lowered) then DatabaseTimeout
    else DatabaseConnectionError
  }

  const ExternalApiUnauthorized :=
    Decision("EXTERNAL_API_UNAUTHORIZED", "External API authentication failed. Please check API key", BadGateway)
  const ExternalApiForbidden := Decision("EXTERNAL_API_FORBIDDEN", "Access forbidden to external API", BadGateway)
  const ExternalApiNotFound := Decision("EXTERNAL_API_NOT_FOUND", "External API endpoint not found", BadGateway)
  const ExternalApiRateLimit :=
    Decision("EXTERNAL_API_RATE_LIMIT", "External API rate limit exceeded", TooManyRequests)
  const ExternalApiClientError := Decision("EXTERNAL_API_CLIENT_ERROR", "Error calling external API", BadGateway)

  /** `handleHttpClientError`'s chain over the upstream status code. */
  function ClientErrorDecision(statusCode: int): (r: Decision)
    ensures r.status == TooManyRequests <==> statusCode == 429
    ensures r.status != TooManyRequests ==> r.status == BadGateway
    ensures statusCode == 401 ==> r == ExternalApiUnauthorized
    ensures statusCode == 403 ==> r == ExternalApiForbidden
    ensures statusCode == 404 ==> r == ExternalApiNotFound
    ensures statusCode == 429 ==> r == ExternalApiRateLimit
    ensures statusCode !in {401, 403, 404, 429} ==> r == ExternalApiClientError
  {
    if statusCode == 401 then ExternalApiUnauthorized
    else if statusCode == 403 then ExternalApiForbidden
    else if statusCode == 404 then ExternalApiNotFound
    else if statusCode == 429 then ExternalApiRateLimit
    else ExternalApiClientError
  }

  const ServiceTimeout := Classified("EXTERNAL_SERVICE_TIMEOUT", "External service timeout")
  const ConnectionRefused :=
    Classified("EXTERNAL_SERVICE_CONNECTION_REFUSED", "External service connection refused")
  const ConnectionTimedOut :=
    Classified("EXTERNAL_SERVICE_CONNECTION_TIMEOUT", "External service connection timed out")
  const ServiceUnreachable := Classified("EXTERNAL_SERVICE_UNAVAILABLE", "Cannot connect to external service")

  /**
   * `handleResourceAccessException`'s chain; the message is read only when
   * the cause is not a socket timeout, so `None` marks a `null` message read.
   */
  function AccessClass(message: Option<string>, cause: Option<Cause>): (r: Option<Classified>)
    ensures cause.Some? && cause.value.isSocketTimeout ==> r == Some(ServiceTimeout)
    ensures r.None? <==> !(cause.Some? && cause.value.isSocketTimeout) && message.None?
    ensures r.Some? && !(cause.Some? && cause.value.isSocketTimeout) ==>
      (r.value == ConnectionRefused <==> Contains(message.value, "Connection refused")) &&
      (r.value == ConnectionTimedOut <==>
         !Contains(message.value, "Connection refused") && Contains(message.value, "Connection timed out"))
  {
    if cause.Some? && cause.value.isSocketTimeout then Some(ServiceTimeout)
    else if message.None? then None
    else if Contains(message.value, "Connection refused") then Some(ConnectionRefused)
    else if Contains(message.value, "Connection timed out") then Some(ConnectionTimedOut)
    else Some(ServiceUnreachable)
  }

  const InvalidDateFormat :=
    Classified("INVALID_DATE_FORMAT", "The date format must be YYYY-MM-DD (example: 2000-01-15)")
  const InvalidDateTimeFormat :=
    Classified("INVALID_DATETIME_FORMAT", "The date and time format must be YYYY-MM-DDTHH:mm:ss")
  const JsonSyntaxError := Classified("JSON_SYNTAX_ERROR", "The submitted JSON contains syntax errors")
  const MissingRequestBody := Classified("MISSING_REQUEST_BODY", "A JSON body is required in the request")
  const WrongFieldType := Classified("TYPE_MISMATCH", "One or more fields have the wrong data type")
  const InvalidJson := Classified("INVALID_JSON", "The JSON format is invalid")

  /** The tail of `handleMessageNotReadable`'s chain, after the date tests. */
  function NotReadableRest(message: string): (r: Classified)
    ensures r != InvalidDateFormat && r != InvalidDateTimeFormat
  {
    if Contains(message, "JSON parse error") then JsonSyntaxError
    else if Contains(message, "Required request body is missing") then MissingRequestBody
    else if Contains(message, "Cannot deserialize") then WrongFieldType
    else InvalidJson
  }

  /** `handleMessageNotReadable`'s chain as written: `"LocalDate"` is tested before `"LocalDateTime"`. */
  function NotReadableClassAsWritten(message: string): (r: Classified)
    ensures Contains(message, "LocalDate") ==> r == InvalidDateFormat
  {
    if Contains(message, "LocalDate") then InvalidDateFormat
    else if Contains(message, "LocalDateTime") then InvalidDateTimeFormat
    else NotReadableRest(message)
  }

  /** Every message mentioning `LocalDateTime` mentions `LocalDate`. */
  lemma DateTimeMentionsDate(message: string)
    requires Contains(message, "LocalDateTime")
    ensures Contains(message, "LocalDate")
  {
    assert "LocalDateTime" == "LocalDateTime";
    ContainsMiddle([], "LocalDate", "Time");
    assert [] + "LocalDateTime" == "LocalDateTime";
    ContainsTransitive(message, "LocalDateTime", "LocalDate");
  }

  /** As written, the date-time answer is never produced: a date-time parse failure is reported as a date one. */
  lemma DateTimeCodeUnreachable(message: string)
    ensures NotReadableClassAsWritten(message) != InvalidDateTimeFormat
    ensures Contains(message, "LocalDateTime") ==> NotReadableClassAsWritten(message) == InvalidDateFormat
  {
    if Contains(message, "LocalDateTime") {
      DateTimeMentionsDate(message);
    }
  }

  /** The evidently intended chain: the more specific `"LocalDateTime"` first. */
  function NotReadableClass(message: string): (r: Classified)
    ensures Contains(message, "LocalDateTime") <==> r == InvalidDateTimeFormat
    ensures r == InvalidDateFormat <==> Contains(message, "LocalDate") && !Contains(message, "LocalDateTime")
  {
    if Contains(message, "LocalDateTime") then InvalidDateTimeFormat
    else if Contains(message, "LocalDate") then InvalidDateFormat
    else NotReadableRest(message)
  }

  /** The reordering changes nothing but the date-time case. */
  lemma NotReadableClassAgrees(message: string)
    ensures !Contains(message, "LocalDateTime") ==> NotReadableClass(message) == NotReadableClassAsWritten(message)
  {
  }

  // ---------------------------------------------------------------- the handlers

  const ValidationError := Classified("VALIDATION_ERROR", "Validation error in the data sent")
  const ExternalApiServerError := Classified("EXTERNAL_API_SERVER_ERROR", "External API server error")
  const RequestTimeout := Classified("REQUEST_TIMEOUT", "Request timeout. The operation took too long to complete")
  const InternalError := Classified("INTERNAL_SERVER_ERROR", "An unexpected error occurred. Please try again later")
  const UnknownCause := "Unknown"
  const InvalidArgument := "INVALID_ARGUMENT"
  const InvalidState := "INVALID_STATE"
  const EntityNotFoundCode := "NOT_FOUND"
  const MethodNotAllowedCode := "METHOD_NOT_ALLOWED"
  const ResourceNotFound := "RESOURCE_NOT_FOUND"
  const MissingParameterCode := "MISSING_PARAMETER"
  const InvalidParameterType := "INVALID_PARAMETER_TYPE"

  /** None of the keys that only development mode adds. */
  predicate NoDiagnostics(body: map<Key, BodyValue>) {
    Details !in body && SqlState !in body && ErrorCode !in body && ExternalApiResponse !in body &&
    CauseName !in body && ExceptionType !in body
  }

  /** A well-formed error response: the common keys, and the status field equal to the status sent. */
  predicate WellFormed(r: Response) {
    {Timestamp, Status, Code, Message} <= r.body.Keys && r.body[Status] == Number(r.status)
  }

  /** `handleValidation`: 422 with the per-field messages. */
  function HandleValidation(errors: seq<FieldError>, timestamp: string): (r: Response)
    ensures WellFormed(r) && NoDiagnostics(r.body) && r.status == UnprocessableContent
    ensures Fields in r.body && r.body[Fields] == FieldMessages(FieldMap(errors))
  {
    var body := BuildErrorResponse(ValidationError.code, Some(ValidationError.message), UnprocessableContent,
                                   timestamp);
    Response(UnprocessableContent, body[Fields := FieldMessages(FieldMap(errors))])
  }

  /** `handleDataIntegrityViolation`: always 409, the code from the lower-cased message. */
  function HandleDataIntegrity(message: string, timestamp: string): (r: Response)
    ensures WellFormed(r) && NoDiagnostics(r.body) && r.status == Conflict
    ensures r.body[Code] == Text(IntegrityClass(ToLower(message)).code)
  {
    var c := IntegrityClass(ToLower(message));
    Respond(c.code, Some(c.message), Conflict, timestamp)
  }

  /** `handleSQLException`: the decision's status and code; diagnostics in development. */
  function HandleSql(c: Decision, message: string, sqlState: Option<string>, errorCode: int, timestamp: string,
                     profile: Option<string>): (r: Response)
    ensures WellFormed(r) && r.status == c.status && r.body[Code] == Text(c.code)
    ensures !IsDevelopmentMode(profile) ==> NoDiagnostics(r.body)
  {
    var body := BuildErrorResponse(c.code, Some(c.message), c.status, timestamp);
    Response(c.status, WithDiagnostics(body, profile,
      map[SqlState := TextOrNull(sqlState), ErrorCode := Number(errorCode), Details := Text(message)]))
  }

  /** `handleHttpClientError`: 429 passed through, 502 otherwise; the upstream code echoed. */
  function HandleClientError(c: Decision, statusCode: int, responseBody: string, timestamp: string,
                             profile: Option<string>): (r: Response)
    ensures WellFormed(r) && r.status == c.status && r.body[Code] == Text(c.code)
    ensures ExternalApiStatus in r.body && r.body[ExternalApiStatus] == Number(statusCode)
    ensures !IsDevelopmentMode(profile) ==> NoDiagnostics(r.body)
  {
    var body := BuildErrorResponse(c.code, Some(c.message), c.status, timestamp);
    Response(c.status, WithDiagnostics(body[ExternalApiStatus := Number(statusCode)], profile,
      map[ExternalApiResponse := Text(responseBody)]))
  }

  /** `handleHttpServerError`: 502, the upstream code echoed. */
  function HandleServerError(statusCode: int, responseBody: string, timestamp: string, profile: Option<string>)
    : (r: Response)
    ensures WellFormed(r) && r.status == BadGateway
    ensures ExternalApiStatus in r.body && r.body[ExternalApiStatus] == Number(statusCode)
    ensures !IsDevelopmentMode(profile) ==> NoDiagnostics(r.body)
  {
    var body := BuildErrorResponse(ExternalApiServerError.code, Some(ExternalApiServerError.message), BadGateway,
                                   timestamp);
    Response(BadGateway, WithDiagnostics(body[ExternalApiStatus := Number(statusCode)], profile,
      map[ExternalApiResponse := Text(responseBody)]))
  }

  /** `handleResourceAccessException`: always 503. */
  function HandleResourceAccess(c: Classified, message: Option<string>, cause: Option<Cause>, timestamp: string,
                                profile: Option<string>): (r: Response)
    ensures WellFormed(r) && r.status == ServiceUnavailable && r.body[Code] == Text(c.code)
    ensures !IsDevelopmentMode(profile) ==> NoDiagnostics(r.body)
  {
    var body := BuildErrorResponse(c.code, Some(c.message), ServiceUnavailable, timestamp);
    var causeName := if cause.Some? then cause.value.simpleName else UnknownCause;
    Response(ServiceUnavailable, WithDiagnostics(body, profile,
      map[Details := TextOrNull(message), CauseName := Text(causeName)]))
  }

  /** `handleSocketTimeout`: 504. */
  function HandleSocketTimeout(message: Option<string>, timestamp: string, profile: Option<string>): (r: Response)
    ensures WellFormed(r) && r.status == GatewayTimeout
    ensures !IsDevelopmentMode(profile) ==> NoDiagnostics(r.body)
  {
    var body := BuildErrorResponse(RequestTimeout.code, Some(RequestTimeout.message), GatewayTimeout, timestamp);
    Response(GatewayTimeout, WithDiagnostics(body, profile, map[Details := TextOrNull(message)]))
  }

  /** `handleGenericException`: 500, the exception's message and type only in development. */
  function HandleUnexpected(message: Option<string>, simpleName: string, timestamp: string, profile: Option<string>)
    : (r: Response)
    ensures WellFormed(r) && r.status == InternalServerError
    ensures !IsDevelopmentMode(profile) ==> NoDiagnostics(r.body)
  {
    var body := BuildErrorResponse(InternalError.code, Some(InternalError.message), InternalServerError, timestamp);
    Response(InternalServerError, WithDiagnostics(body, profile,
      map[Details := TextOrNull(message), ExceptionType := Text(simpleName)]))
  }

  /** `handleMessageNotReadable`: 400, the code from the message. */
  function HandleNotReadable(message: string, timestamp: string): (r: Response)
    ensures WellFormed(r) && NoDiagnostics(r.body) && r.status == BadRequest
    ensures r.body[Code] == Text(NotReadableClass(message).code)
  {
    var c := NotReadableClass(message);
    Respond(c.code, Some(c.message), BadRequest, timestamp)
  }

  const NoRouteMessage := "The requested route does not exist on the server"

  function MethodNotSupportedMessage(httpMethod: string, supported: seq<string>): string {
    "The HTTP method '" + httpMethod + "' is not allowed for this route. Allowed methods: " + Join(", ", supported)
  }

  function MissingParameterMessage(name: string, typeName: string): string {
    "The required parameter '" + name + "' of type " + typeName + " is missing"
  }

  function TypeMismatchMessage(name: string, requiredType: Option<string>): string {
    var typeName := if requiredType.Some? then requiredType.value else "unknown";
    "The parameter '" + name + "' has an invalid value. The type " + typeName + " was expected"
  }

  /** The handler Spring picks for the exception, and what it returns. */
  function Handle(failure: Failure, timestamp: string, profile: Option<string>): (r: Option<Response>)
    ensures r.Some? ==> WellFormed(r.value)
    ensures r.Some? && !IsDevelopmentMode(profile) ==> NoDiagnostics(r.value.body)
  {
    match failure
    case ValidationFailed(errors) => Some(HandleValidation(errors, timestamp))
    case IllegalArgumentThrown(m) => Some(Respond(InvalidArgument, m, BadRequest, timestamp))
    case IllegalStateThrown(m) => Some(Respond(InvalidState, m, BadRequest, timestamp))
    case EntityNotFoundThrown(m) => Some(Respond(EntityNotFoundCode, m, NotFound, timestamp))
    case DataIntegrityViolation(m) =>
      if m.None? then None else Some(HandleDataIntegrity(m.value, timestamp))
    case SqlFailure(m, sqlState, errorCode) =>
      if m.None? then None else Some(HandleSql(SqlDecision(ToLower(m.value)), m.value, sqlState, errorCode, timestamp, profile))
    case HttpClientError(statusCode, responseBody) =>
      Some(HandleClientError(ClientErrorDecision(statusCode), statusCode, responseBody, timestamp, profile))
    case HttpServerError(statusCode, responseBody) =>
      Some(HandleServerError(statusCode, responseBody, timestamp, profile))
    case ResourceAccess(m, cause) =>
      (match AccessClass(m, cause)
       case None => None
       case Some(c) => Some(HandleResourceAccess(c, m, cause, timestamp, profile)))
    case SocketTimeout(m) => Some(HandleSocketTimeout(m, timestamp, profile))
    case MethodNotSupported(httpMethod, supported) =>
      Some(Respond(MethodNotAllowedCode, Some(MethodNotSupportedMessage(httpMethod, supported)), MethodNotAllowed,
                   timestamp))
    case NoResourceFound => Some(Respond(ResourceNotFound, Some(NoRouteMessage), NotFound, timestamp))
    case MissingParameter(name, typeName) =>
      Some(Respond(MissingParameterCode, Some(MissingParameterMessage(name, typeName)), BadRequest, timestamp))
    case TypeMismatch(name, requiredType) =>
      Some(Respond(InvalidParameterType, Some(TypeMismatchMessage(name, requiredType)), BadRequest, timestamp))
    case MessageNotReadable(m) => if m.None? then None else Some(HandleNotReadable(m.value, timestamp))
    case Unexpected(m, simpleName) => Some(HandleUnexpected(m, simpleName, timestamp, profile))
  }

  /**
   * A handler fails only by reading a `null` message: the integrity, SQL and
   * unreadable-message handlers always read it, the resource-access handler
   * unless the cause is a socket timeout.
   */
  lemma HandleFailsExactly(failure: Failure, timestamp: string, profile: Option<string>)
    ensures Handle(failure, timestamp, profile).None? <==>
      ((failure.DataIntegrityViolation? || failure.SqlFailure? || failure.MessageNotReadable?) && failure.message.None?) ||
      (failure.ResourceAccess? && AccessClass(failure.message, failure.cause).None?)
  {
  }

  /** The caller's mistakes: 400, 404, 405 or 422, and a conflicting write 409. */
  lemma ClientMistakeStatus(failure: Failure, timestamp: string, profile: Option<string>)
    requires Handle(failure, timestamp, profile).Some?
    ensures var s := Handle(failure, timestamp, profile).value.status;
      (failure.ValidationFailed? ==> s == UnprocessableContent) &&
      ((failure.IllegalArgumentThrown? || failure.IllegalStateThrown? || failure.MissingParameter? ||
        failure.TypeMismatch? || failure.MessageNotReadable?) ==> s == BadRequest) &&
      (failure.EntityNotFoundThrown? || failure.NoResourceFound? ==> s == NotFound) &&
      (failure.MethodNotSupported? ==> s == MethodNotAllowed) &&
      (failure.DataIntegrityViolation? ==> s == Conflict)
  {
  }

  /**
   * Failures of what the service depends on: 503 or 500 for the database
   * (500 when it refuses the credentials), 429 or 502 for an upstream client
   * error, 502 for an upstream server error, 503 when it cannot be reached,
   * 504 on a timeout, and 500 for anything unexpected.
   */
  lemma DependencyFailureStatus(failure: Failure, timestamp: string, profile: Option<string>)
    requires Handle(failure, timestamp, profile).Some?
    ensures var s := Handle(failure, timestamp, profile).value.status;
      (failure.SqlFailure? ==> s == ServiceUnavailable || s == InternalServerError) &&
      (failure.HttpClientError? ==> (s == TooManyRequests <==> failure.statusCode == 429)) &&
      (failure.HttpClientError? && failure.statusCode != 429 ==> s == BadGateway) &&
      (failure.HttpServerError? ==> s == BadGateway) &&
      (failure.ResourceAccess? ==> s == ServiceUnavailable) &&
      (failure.SocketTimeout? ==> s == GatewayTimeout) &&
      (failure.Unexpected? ==> s == InternalServerError)
  {
  }

  /**
   * The service's failures: an invalid argument or state is a 400, a
   * missing entity a 404, any other exception a 500, and the body carries
   * the message of the first three; an upstream 5xx passed through is a 502
   * and an unreachable upstream a 503.
   */
  lemma ServiceErrorResponse(e: Error, timestamp: string, profile: Option<string>)
    ensures var r := Handle(OfServiceError(e), timestamp, profile);
      r.Some? &&
      r.value.status == (match e
                         case IllegalArgument(_) => BadRequest
                         case IllegalState(_) => BadRequest
                         case EntityNotFound(_) => NotFound
                         case Runtime(_) => InternalServerError
                         case UpstreamServerError(_, _) => BadGateway
                         case UpstreamUnreachable(_, _, _) => ServiceUnavailable) &&
      (e.IllegalArgument? || e.IllegalState? || e.EntityNotFound? ==> r.value.body[Message] == Text(e.message))
  {
  }

  /** The HTTP client-error body echoes the upstream status code. */
  lemma ClientErrorEchoesStatus(statusCode: int, responseBody: string, timestamp: string, profile: Option<string>)
    ensures var r := Handle(HttpClientError(statusCode, responseBody), timestamp, profile).value;
      ExternalApiStatus in r.body && r.body[ExternalApiStatus] == Number(statusCode)
  {
  }
}
