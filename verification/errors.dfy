/**
 * The application error hierarchy of `src/utils/errors.ts`: a base class
 * `AppError` and five subclasses, each fixing an HTTP status and a
 * machine-readable code. A class becomes a constructor of one datatype; the
 * class constructors, which build the messages, become the `New…` functions.
 */
module Errors {
  import opened Base
  import opened Text

  /** The `details` record an error may carry. */
  datatype Details =
    | FieldMessages(messages: seq<string>)           // `{ messages }`: the field messages of a store validation failure
    | Issues(issues: seq<string>)                   // the formatted issue list of a schema parser
    | OriginalError(originalError: Option<string>)  // `{ originalError }` of a DatabaseError

  /**
   * What a caller passes as the `originalError` argument of `DatabaseError`:
   * nothing, an `Error` object (only its message matters), or a plain string,
   * which has no `message` property.
   */
  datatype Wrapped = NoValue | ErrorValue(message: string) | StringValue(text: string)

  datatype AppError =
    | AppError(message: string, statusCode: int, code: string, details: Option<Details>)
    | ValidationError(message: string, details: Option<Details>)
    | NotFoundError(message: string)
    | InvalidIdError(message: string)
    | DatabaseError(message: string, originalError: Option<string>)
    | DuplicateError(message: string)
  {
    /** The `statusCode` field. */
    function StatusCode(): int {
      match this
      case AppError(_, status, _, _) => status
      case ValidationError(_, _) => 400
      case NotFoundError(_) => 404
      case InvalidIdError(_) => 400
      case DatabaseError(_, _) => 500
      case DuplicateError(_) => 409
    }

    /** The `code` field. */
    function Code(): string {
      match this
      case AppError(_, _, code, _) => code
      case ValidationError(_, _) => "VALIDATION_ERROR"
      case NotFoundError(_) => "NOT_FOUND"
      case InvalidIdError(_) => "INVALID_ID"
      case DatabaseError(_, _) => "DATABASE_ERROR"
      case DuplicateError(_) => "DUPLICATE_ERROR"
    }

    /** The `details` field; `None` when the property was never set. */
    function Details(): Option<Details> {
      match this
      case AppError(_, _, _, details) => details
      case ValidationError(_, details) => details
      case DatabaseError(_, original) => Some(OriginalError(original))
      case _ => None
    }

    /** The `name` field, which the base constructor sets to the class name. */
    function Name(): string {
      match this
      case AppError(_, _, _, _) => "AppError"
      case ValidationError(_, _) => "ValidationError"
      case NotFoundError(_) => "NotFoundError"
      case InvalidIdError(_) => "InvalidIdError"
      case DatabaseError(_, _) => "DatabaseError"
      case DuplicateError(_) => "DuplicateError"
    }
  }

  /** An optional string argument as JavaScript tests it: `''` is false. */
  predicate Truthy(s: Option<string>) {
    s.Some? && s.value != []
  }

  /**
   * `new AppError(message, statusCode?, code?, details?)`: absent arguments
   * take their defaults, and `details` is set only when one is supplied.
   */
  function NewAppError(message: string, statusCode: Option<int>, code: Option<string>, details: Option<Details>): (e: AppError)
    ensures e.message == message && e.Name() == "AppError"
    ensures statusCode.None? ==> e.StatusCode() == 500
    ensures statusCode.Some? ==> e.StatusCode() == statusCode.value
    ensures code.None? ==> e.Code() == "INTERNAL_ERROR"
    ensures code.Some? ==> e.Code() == code.value
    ensures e.Details().Some? <==> details.Some?
    ensures details.Some? ==> e.Details() == details
  {
    AppError(message, statusCode.GetOr(500), code.GetOr("INTERNAL_ERROR"), details)
  }

  /** `new ValidationError(message, details?)`. */
  function NewValidationError(message: string, details: Option<Details>): (e: AppError)
    ensures e.message == message && e.Name() == "ValidationError"
    ensures e.StatusCode() == 400 && e.Code() == "VALIDATION_ERROR"
    ensures e.Details() == details
  {
    ValidationError(message, details)
  }

  const NotFoundSuffix := " no encontrado"
  const NotFoundWithId := " con ID '"
  const NotFoundAfterId := "' no encontrado"

  /**
   * `new NotFoundError(resource, id?)`: the message names the id only when
   * one is given and it is not the empty string.
   */
  function NewNotFoundError(resource: string, id: Option<string>): (e: AppError)
    ensures e.Name() == "NotFoundError"
    ensures e.StatusCode() == 404 && e.Code() == "NOT_FOUND" && e.Details().None?
    ensures StartsWith(e.message, resource)
    ensures Truthy(id) ==>
      e.message[|resource|..] == NotFoundWithId + id.value + NotFoundAfterId
    ensures !Truthy(id) ==> e.message[|resource|..] == NotFoundSuffix
  {
    var message :=
      if Truthy(id) then resource + NotFoundWithId + id.value + NotFoundAfterId
      else resource + NotFoundSuffix;
    NotFoundError(message)
  }

  const InvalidIdPrefix := "ID inválido: '"
  const InvalidIdSuffix := "'. Debe ser un ObjectId válido de MongoDB"

  /** `new InvalidIdError(id)`: the message quotes the offending id verbatim. */
  function NewInvalidIdError(id: string): (e: AppError)
    ensures e.Name() == "InvalidIdError"
    ensures e.StatusCode() == 400 && e.Code() == "INVALID_ID" && e.Details().None?
    ensures |e.message| == |InvalidIdPrefix| + |id| + |InvalidIdSuffix|
    ensures e.message[..|InvalidIdPrefix|] == InvalidIdPrefix
    ensures e.message[|InvalidIdPrefix|..|InvalidIdPrefix| + |id|] == id
    ensures e.message[|InvalidIdPrefix| + |id|..] == InvalidIdSuffix
  {
    var message := InvalidIdPrefix + id + InvalidIdSuffix;
    assert message[..|InvalidIdPrefix|] == InvalidIdPrefix;
    assert message[|InvalidIdPrefix|..|InvalidIdPrefix| + |id|] == id;
    assert message[|InvalidIdPrefix| + |id|..] == InvalidIdSuffix;
    InvalidIdError(message)
  }

  /**
   * `new DatabaseError(message, originalError?)`: the error always carries a
   * details record, whose `originalError` is the wrapped value's `message`
   * property — absent when nothing or a plain string was wrapped.
   */
  function NewDatabaseError(message: string, original: Wrapped): (e: AppError)
    ensures e.message == message && e.Name() == "DatabaseError"
    ensures e.StatusCode() == 500 && e.Code() == "DATABASE_ERROR"
    ensures e.Details().Some? && e.Details().value.OriginalError?
    ensures e.Details().value.originalError.Some? <==> original.ErrorValue?
    ensures original.ErrorValue? ==> e.Details().value.originalError == Some(original.message)
  {
    var carried := match original
      case ErrorValue(m) => Some(m)
      case _ => None;
    DatabaseError(message, carried)
  }

  const DuplicatePrefix := "Ya existe un "
  const DuplicateWith := " con ese "
  const DuplicateSuffix := " duplicado"

  /**
   * `new DuplicateError(resource, field?)`: which of the two message shapes
   * is used depends only on whether a non-empty field name is supplied.
   */
  function NewDuplicateError(resource: string, field: Option<string>): (e: AppError)
    ensures e.Name() == "DuplicateError"
    ensures e.StatusCode() == 409 && e.Code() == "DUPLICATE_ERROR" && e.Details().None?
    ensures Truthy(field) ==> StartsWith(e.message, DuplicatePrefix + resource + DuplicateWith)
    ensures Truthy(field) ==> e.message[|DuplicatePrefix + resource + DuplicateWith|..] == field.value
    ensures !Truthy(field) ==> e.message == resource + DuplicateSuffix
  {
    var message :=
      if Truthy(field) then DuplicatePrefix + resource + DuplicateWith + field.value
      else resource + DuplicateSuffix;
    DuplicateError(message)
  }

  /** The object `AppError.toJSON` returns. `stack` is `None` when the key is missing. */
  datatype ErrorJson = ErrorJson(
    name: string,
    message: string,
    statusCode: int,
    code: string,
    timestamp: string,
    details: Option<Details>,
    stack: Option<Option<string>>)

  /**
   * `AppError.toJSON()`. `timestamp` is the creation time already formatted,
   * `stack` the captured trace, `development` whether NODE_ENV is
   * 'development'.
   */
  function ToJson(e: AppError, timestamp: string, stack: Option<string>, development: bool): (j: ErrorJson)
    ensures j.name == e.Name() && j.message == e.message && j.timestamp == timestamp
    ensures j.statusCode == e.StatusCode() && j.code == e.Code()
    ensures j.details.Some? <==> e.Details().Some?
    ensures j.details == e.Details()
    ensures j.stack.Some? <==> development
    ensures development ==> j.stack == Some(stack)
  {
    ErrorJson(e.Name(), e.message, e.StatusCode(), e.Code(), timestamp, e.Details(),
              if development then Some(stack) else None)
  }

  /** The status every error variant reports, as a table keyed by its code. */
  function StatusForCode(code: string): Option<int> {
    if code == "VALIDATION_ERROR" then Some(400)
    else if code == "NOT_FOUND" then Some(404)
    else if code == "INVALID_ID" then Some(400)
    else if code == "DATABASE_ERROR" then Some(500)
    else if code == "DUPLICATE_ERROR" then Some(409)
    else None
  }

  /**
   * For every subclass the status is the one the code table assigns: the
   * code alone determines the HTTP status. Only the base class can break it.
   */
  lemma StatusFollowsCode(e: AppError)
    requires !e.AppError?
    ensures StatusForCode(e.Code()) == Some(e.StatusCode())
  {
  }
}
