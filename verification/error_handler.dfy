/**
 * The `onError` hook installed by `setupErrorHandler` in
 * `src/middleware/errorHandler.ts`. Four cases, tried in order: an
 * application error, the framework's VALIDATION code, its NOT_FOUND code,
 * and everything else.
 */
module ErrorHandler {
  import opened Base
  import opened Errors
  import opened Envelope

  const InvalidDataMessage := "Los datos proporcionados no son válidos"
  const ValidationFallbackDetail := "Error de validación"
  const MissingRouteMessage := "La ruta solicitada no existe"
  const MissingRouteSuggestion := "Verifica la documentación de la API"
  const UnexpectedMessage := "Ha ocurrido un error inesperado en el servidor"
  const UnknownErrorDetail := "Error desconocido"

  /** Case 1: the error's own status and code; details only for a ValidationError that has them. */
  function ApplicationResponse(e: AppError, req: Request, now: string): Response {
    var details := if e.ValidationError? && e.details.Some? then Some(Record(e.details.value)) else None;
    Response(Some(e.StatusCode()),
      Body(None, e.Code(), e.message, details, now, Some(req.path), Some(req.httpMethod), None, None))
  }

  /** Case 2: the framework rejected the request's shape. */
  function InvalidDataResponse(thrown: Thrown, req: Request, now: string): Response {
    var detail := if thrown.IsError() then thrown.Message() else ValidationFallbackDetail;
    Response(Some(400),
      Body(None, "VALIDATION_ERROR", InvalidDataMessage, Some(Text(detail)), now,
           Some(req.path), Some(req.httpMethod), None, None))
  }

  /** Case 3: no route matched. */
  function MissingRouteResponse(req: Request, now: string): Response {
    Response(Some(404),
      Body(None, "NOT_FOUND", MissingRouteMessage, None, now,
           Some(req.path), Some(req.httpMethod), Some(MissingRouteSuggestion), None))
  }

  /** Case 4: anything else; the diagnostic fields exist only in development. */
  function UnexpectedResponse(thrown: Thrown, development: bool, req: Request, now: string): Response {
    var details :=
      if !development then None
      else if thrown.IsError() then Some(Text(thrown.Message()))
      else Some(Text(UnknownErrorDetail));
    var stack := if development && thrown.IsError() then thrown.Stack() else None;
    Response(Some(500),
      Body(None, "INTERNAL_SERVER_ERROR", UnexpectedMessage, details, now,
           Some(req.path), Some(req.httpMethod), None, stack))
  }

  /**
   * The hook: `thrown` is the error, `code` the framework's error code,
   * `development` whether NODE_ENV is 'development', `now` the response time.
   */
  function OnError(thrown: Thrown, code: string, development: bool, req: Request, now: string): (r: Response)
    // every envelope carries the code, message, timestamp, path and method
    ensures r.status.Some? && r.body.success.None?
    ensures r.body.timestamp == now && r.body.path == Some(req.path) && r.body.httpMethod == Some(req.httpMethod)
    // an application error is reported with its own status and code, whatever the framework code
    ensures thrown.App? ==>
      r.status == Some(thrown.err.StatusCode()) && r.body.error == thrown.err.Code() && r.body.message == thrown.err.message
    ensures thrown.App? ==>
      (r.body.details.Some? <==> thrown.err.ValidationError? && thrown.err.details.Some?)
    ensures !thrown.App? && code == "VALIDATION" ==>
      && r.status == Some(400) && r.body.error == "VALIDATION_ERROR" && r.body.message == InvalidDataMessage
      && r.body.details == Some(Text(if thrown.IsError() then thrown.Message() else ValidationFallbackDetail))
    ensures !thrown.App? && code == "NOT_FOUND" ==>
      r.status == Some(404) && r.body.error == "NOT_FOUND" && r.body.details.None?
    ensures !thrown.App? && code != "VALIDATION" && code != "NOT_FOUND" ==>
      r.status == Some(500) && r.body.error == "INTERNAL_SERVER_ERROR"
    // diagnostics are only ever written in development
    ensures r.body.stack.Some? ==> development
    ensures !thrown.App? && code != "VALIDATION" && code != "NOT_FOUND" ==>
      (r.body.details.Some? <==> development)
  {
    if thrown.App? then ApplicationResponse(thrown.err, req, now)
    else if code == "VALIDATION" then InvalidDataResponse(thrown, req, now)
    else if code == "NOT_FOUND" then MissingRouteResponse(req, now)
    else UnexpectedResponse(thrown, development, req, now)
  }

  /** The details a DatabaseError carries never reach the client, in any mode. */
  lemma DatabaseDetailsWithheld(e: AppError, stack: Option<string>, code: string, development: bool, req: Request, now: string)
    requires e.DatabaseError?
    ensures e.Details().Some?
    ensures OnError(App(e, stack), code, development, req, now).body.details.None?
  {
  }

  /** Outside development no 5xx response carries details or a stack. */
  lemma NoServerDiagnosticsInProduction(thrown: Thrown, code: string, req: Request, now: string)
    ensures var r := OnError(thrown, code, false, req, now);
      r.body.stack.None? && (r.status == Some(500) ==> r.body.details.None?)
  {
  }

  /**
   * The hook and `toJSON` describe an application error alike: the response
   * carries the serialised error's status, code and message, and its details
   * are the serialised details exactly for a ValidationError; every other
   * error keeps them out of the response.
   */
  lemma ResponseAgreesWithToJson(e: AppError, stack: Option<string>, code: string, development: bool,
                                 req: Request, now: string, created: string)
    ensures var r := OnError(App(e, stack), code, development, req, now);
      var j := ToJson(e, created, stack, development);
      && r.status == Some(j.statusCode) && r.body.error == j.code && r.body.message == j.message
      && (e.ValidationError? ==> r.body.details == (if j.details.Some? then Some(Record(j.details.value)) else None))
      && (!e.ValidationError? ==> r.body.details.None?)
  {
  }

  /** The status a response reports for each error code the taxonomy and this hook use. */
  function StatusForResponseCode(code: string): Option<int> {
    if code == "INTERNAL_SERVER_ERROR" then Some(500) else StatusForCode(code)
  }

  /**
   * Unless a bare AppError chose its own pair, a client can read the status
   * off the `error` code alone: the two never disagree.
   */
  lemma StatusAgreesWithCode(thrown: Thrown, code: string, development: bool, req: Request, now: string)
    requires thrown.App? ==> !thrown.err.AppError?
    ensures var r := OnError(thrown, code, development, req, now);
      r.status == StatusForResponseCode(r.body.error)
  {
    if thrown.App? {
      StatusFollowsCode(thrown.err);
    }
  }
}
