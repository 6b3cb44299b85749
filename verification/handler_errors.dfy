/**
 * The `onErrors` plugin of `src/middleware/handlerErros.ts`. Its cases, in
 * order: an instance of one of three application error classes, an `Error`
 * named 'ValidationError', one named 'CastError', the framework codes
 * VALIDATION and PARSE, and a fallback.
 *
 * The plugin imports a `ServerError` class and reads `error.status`; neither
 * exists in `src/utils/errors.ts` (which defines `statusCode`). Both are
 * parameters here: `isServerError` says which application errors are
 * instances of that class, `statusOf` what their `status` property holds.
 */
module HandlerErrors {
  import opened Base
  import opened Errors
  import opened Envelope

  const InvalidDataMessage := "Los datos proporcionados no son válidos"
  const InvalidIdMessage := "ID de tarea inválido"
  const InternalMessage := "Ha ocurrido un error interno del servidor"

  /** The first case: ValidationError, NotFoundError or ServerError instances. */
  predicate IsListedAppError(isServerError: AppError -> bool, thrown: Thrown) {
    thrown.App? && (thrown.err.ValidationError? || thrown.err.NotFoundError? || isServerError(thrown.err))
  }

  function Failure(status: int, error: string, message: string, details: Option<Detail>, now: string): Response {
    Response(Some(status), Body(Some(false), error, message, details, now, None, None, None, None))
  }

  function OnErrors(isServerError: AppError -> bool, statusOf: AppError -> Option<int>,
                    thrown: Thrown, code: string, now: string): (r: Response)
    // every body says `success: false` and carries a timestamp, but no path or method
    ensures r.body.success == Some(false) && r.body.timestamp == now
    ensures r.body.path.None? && r.body.httpMethod.None? && r.body.stack.None?
    // a listed application error keeps its own code, with `status` as its status and no details
    ensures IsListedAppError(isServerError, thrown) ==>
      r.status == statusOf(thrown.err) && r.body.error == thrown.err.Code()
      && r.body.message == thrown.err.message && r.body.details.None?
    ensures !IsListedAppError(isServerError, thrown) && thrown.IsError() && thrown.Name() == "ValidationError" ==>
      r.status == Some(400) && r.body.error == "VALIDATION_ERROR" && r.body.details == Some(Text(thrown.Message()))
    ensures !IsListedAppError(isServerError, thrown) && thrown.IsError() && thrown.Name() == "CastError" ==>
      r.status == Some(400) && r.body.error == "INVALID_ID" && r.body.details.None?
    ensures !IsListedAppError(isServerError, thrown) && !(thrown.IsError() && thrown.Name() in {"ValidationError", "CastError"}) ==>
      if code in {"VALIDATION", "PARSE"} then r.status == Some(400) && r.body.error == "VALIDATION_ERROR"
      else r.status == Some(500) && r.body.error == "INTERNAL_SERVER_ERROR"
  {
    if IsListedAppError(isServerError, thrown) then
      Response(statusOf(thrown.err),
        Body(Some(false), thrown.err.Code(), thrown.err.message, None, now, None, None, None, None))
    else if thrown.IsError() && thrown.Name() == "ValidationError" then
      Failure(400, "VALIDATION_ERROR", InvalidDataMessage, Some(Text(thrown.Message())), now)
    else if thrown.IsError() && thrown.Name() == "CastError" then
      Failure(400, "INVALID_ID", InvalidIdMessage, None, now)
    else if code == "VALIDATION" || code == "PARSE" then
      Failure(400, "VALIDATION_ERROR", InvalidDataMessage, None, now)
    else
      Failure(500, "INTERNAL_SERVER_ERROR", InternalMessage, None, now)
  }

  /** An `Error` named 'ValidationError' or 'CastError' is classified by its name, whatever the framework code. */
  lemma NameTakesPrecedenceOverCode(isServerError: AppError -> bool, statusOf: AppError -> Option<int>,
                                    name: string, message: string, stack: Option<string>, code1: string, code2: string, now: string)
    requires name == "ValidationError" || name == "CastError"
    ensures OnErrors(isServerError, statusOf, Native(name, message, stack), code1, now)
         == OnErrors(isServerError, statusOf, Native(name, message, stack), code2, now)
    ensures OnErrors(isServerError, statusOf, Native(name, message, stack), code1, now).status == Some(400)
  {
  }

  /**
   * An InvalidIdError, DatabaseError or DuplicateError that is not a
   * ServerError matches none of the named cases: it is reported as a
   * generic validation failure or an internal error, by framework code alone,
   * and its own code is lost.
   */
  lemma UnlistedAppErrorLosesItsCode(isServerError: AppError -> bool, statusOf: AppError -> Option<int>,
                                     e: AppError, stack: Option<string>, code: string, now: string)
    requires e.InvalidIdError? || e.DatabaseError? || e.DuplicateError?
    requires !isServerError(e)
    ensures var r := OnErrors(isServerError, statusOf, App(e, stack), code, now);
      && r.body.error != e.Code()
      && (code == "VALIDATION" || code == "PARSE" <==> r.status == Some(400))
      && (r.status == Some(400) || r.status == Some(500))
  {
  }

  /**
   * Read against `src/utils/errors.ts`, where no error has a `status`
   * property: a listed application error leaves the status unassigned.
   */
  lemma ListedStatusUnsetWithoutStatusField(isServerError: AppError -> bool, thrown: Thrown, code: string, now: string)
    requires IsListedAppError(isServerError, thrown)
    ensures OnErrors(isServerError, e => None, thrown, code, now).status.None?
  {
  }
}
