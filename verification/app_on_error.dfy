/**
 * The `app.onError` callback registered in `src/index.ts`. After the two
 * framework codes it classifies an `Error` by the prefix of its message:
 * a thrower signals the kind of failure by writing e.g. "INVALID_ID: …".
 */
module AppOnError {
  import opened Base
  import opened Text
  import opened Envelope

  const InvalidDataMessage := "Los datos proporcionados no son válidos"
  const ValidationFallbackDetail := "Error de validación desconocido"
  const MissingRouteMessage := "La ruta solicitada no existe"
  const MissingRouteSuggestion := "Verifica la documentación de la API en /api/test"
  const UnexpectedMessage := "Ha ocurrido un error inesperado en el servidor"
  const UnknownErrorDetail := "Error desconocido"

  /**
   * One message-prefix case: the status and body it produces, and whether
   * its details are shown outside development.
   */
  datatype PrefixRule = PrefixRule(prefix: string, status: int, error: string, message: string, detailsInProduction: bool)

  const ValidationRule := PrefixRule("VALIDATION_ERROR:", 400, "Validation Error", InvalidDataMessage, true)
  const InvalidIdRule := PrefixRule("INVALID_ID:", 400, "Invalid ID", "El ID proporcionado no es válido", true)
  const DuplicateRule := PrefixRule("DUPLICATE_ERROR:", 409, "Duplicate Error", "Ya existe un registro con estos datos", true)
  const DatabaseRule := PrefixRule("DATABASE_ERROR:", 500, "Database Error", "Error interno de la base de datos", false)

  /** The details of a matched prefix: the message with the prefix removed, then trimmed. */
  function PrefixDetails(rule: PrefixRule, message: string): string {
    Trim(ReplaceFirst(message, rule.prefix, ""))
  }

  function PrefixResponse(rule: PrefixRule, message: string, development: bool, req: Request, now: string): Response {
    var details := if rule.detailsInProduction || development then Some(Text(PrefixDetails(rule, message))) else None;
    Response(Some(rule.status),
      Body(None, rule.error, rule.message, details, now, Some(req.path), Some(req.httpMethod), None, None))
  }

  function InvalidDataResponse(thrown: Thrown, req: Request, now: string): Response {
    var detail := if thrown.IsError() then thrown.Message() else ValidationFallbackDetail;
    Response(Some(400),
      Body(None, "Validation Error", InvalidDataMessage, Some(Text(detail)), now,
           Some(req.path), Some(req.httpMethod), None, None))
  }

  function MissingRouteResponse(req: Request, now: string): Response {
    Response(Some(404),
      Body(None, "Not Found", MissingRouteMessage, None, now,
           Some(req.path), Some(req.httpMethod), Some(MissingRouteSuggestion), None))
  }

  function UnexpectedResponse(thrown: Thrown, development: bool, req: Request, now: string): Response {
    var details :=
      if !development then None
      else if thrown.IsError() then Some(Text(thrown.Message()))
      else Some(Text(UnknownErrorDetail));
    var stack := if development && thrown.IsError() then thrown.Stack() else None;
    Response(Some(500),
      Body(None, "Internal Server Error", UnexpectedMessage, details, now,
           Some(req.path), Some(req.httpMethod), None, stack))
  }

  /** The callback, with its cases in the order the source tries them. */
  function OnError(thrown: Thrown, code: string, development: bool, req: Request, now: string): (r: Response)
    ensures r.body.timestamp == now && r.body.path == Some(req.path) && r.body.httpMethod == Some(req.httpMethod)
    // the framework codes are decided before any message is looked at
    ensures code == "VALIDATION" ==> r.status == Some(400) && r.body.error == "Validation Error"
    ensures code == "NOT_FOUND" ==> r.status == Some(404) && r.body.error == "Not Found"
    ensures r.body.stack.Some? ==> development
  {
    if code == "VALIDATION" then InvalidDataResponse(thrown, req, now)
    else if code == "NOT_FOUND" then MissingRouteResponse(req, now)
    else if thrown.IsError() && StartsWith(thrown.Message(), ValidationRule.prefix) then
      PrefixResponse(ValidationRule, thrown.Message(), development, req, now)
    else if thrown.IsError() && StartsWith(thrown.Message(), InvalidIdRule.prefix) then
      PrefixResponse(InvalidIdRule, thrown.Message(), development, req, now)
    else if thrown.IsError() && StartsWith(thrown.Message(), DuplicateRule.prefix) then
      PrefixResponse(DuplicateRule, thrown.Message(), development, req, now)
    else if thrown.IsError() && StartsWith(thrown.Message(), DatabaseRule.prefix) then
      PrefixResponse(DatabaseRule, thrown.Message(), development, req, now)
    else UnexpectedResponse(thrown, development, req, now)
  }

  // ----- Reference definition: the prefix cases as a table ---------------------------

  /** The prefix cases in the order they are tried. */
  const PrefixTable: seq<PrefixRule> := [ValidationRule, InvalidIdRule, DuplicateRule, DatabaseRule]

  /** The first rule of `rules` whose prefix starts `message`. */
  function FirstMatch(rules: seq<PrefixRule>, message: string): (m: Option<PrefixRule>)
    ensures m.Some? ==> m.value in rules && StartsWith(message, m.value.prefix)
    ensures m.None? <==> forall i :: 0 <= i < |rules| ==> !StartsWith(message, rules[i].prefix)
  {
    if |rules| == 0 then None
    else if StartsWith(message, rules[0].prefix) then Some(rules[0])
    else
      var m := FirstMatch(rules[1..], message);
      assert forall i :: 1 <= i < |rules| ==> rules[i] == rules[1..][i - 1];
      m
  }

  /** The callback read off the table: framework codes first, then the first matching prefix. */
  function TableOnError(thrown: Thrown, code: string, development: bool, req: Request, now: string): Response {
    if code == "VALIDATION" then InvalidDataResponse(thrown, req, now)
    else if code == "NOT_FOUND" then MissingRouteResponse(req, now)
    else if !thrown.IsError() then UnexpectedResponse(thrown, development, req, now)
    else match FirstMatch(PrefixTable, thrown.Message())
      case Some(rule) => PrefixResponse(rule, thrown.Message(), development, req, now)
      case None => UnexpectedResponse(thrown, development, req, now)
  }

  /** The table lookup unrolled: the rules are tried in the order of the table. */
  lemma {:induction false} FirstMatchUnrolled(message: string)
    ensures FirstMatch(PrefixTable, message) ==
      if StartsWith(message, ValidationRule.prefix) then Some(ValidationRule)
      else if StartsWith(message, InvalidIdRule.prefix) then Some(InvalidIdRule)
      else if StartsWith(message, DuplicateRule.prefix) then Some(DuplicateRule)
      else if StartsWith(message, DatabaseRule.prefix) then Some(DatabaseRule)
      else None
  {
    var t1 := PrefixTable[1..];
    var t2 := t1[1..];
    var t3 := t2[1..];
    assert t1 == [InvalidIdRule, DuplicateRule, DatabaseRule];
    assert t2 == [DuplicateRule, DatabaseRule];
    assert t3 == [DatabaseRule];
    assert FirstMatch(t3, message) ==
      if StartsWith(message, DatabaseRule.prefix) then Some(DatabaseRule) else FirstMatch(t3[1..], message);
    assert FirstMatch(t2, message) ==
      if StartsWith(message, DuplicateRule.prefix) then Some(DuplicateRule) else FirstMatch(t3, message);
    assert FirstMatch(t1, message) ==
      if StartsWith(message, InvalidIdRule.prefix) then Some(InvalidIdRule) else FirstMatch(t2, message);
  }

  /** The chain of `if`s in the callback is exactly the table lookup. */
  lemma OnErrorIsTableLookup(thrown: Thrown, code: string, development: bool, req: Request, now: string)
    ensures OnError(thrown, code, development, req, now) == TableOnError(thrown, code, development, req, now)
  {
    if code != "VALIDATION" && code != "NOT_FOUND" && thrown.IsError() {
      FirstMatchUnrolled(thrown.Message());
    }
  }

  /** No message starts with two of the prefixes, so the order of the table cannot matter. */
  lemma PrefixesExclusive(message: string, i: nat, j: nat)
    requires i < j < |PrefixTable|
    ensures !(StartsWith(message, PrefixTable[i].prefix) && StartsWith(message, PrefixTable[j].prefix))
  {
    var a := PrefixTable[i].prefix;
    var b := PrefixTable[j].prefix;
    // the prefixes differ in their first or second character
    assert a[0] != b[0] || a[1] != b[1];
    StartsWithAt(message, a, 0);
    StartsWithAt(message, a, 1);
    StartsWithAt(message, b, 0);
    StartsWithAt(message, b, 1);
  }

  /** A matched prefix yields the rule's status, with the rest of the message, trimmed, as details. */
  lemma MatchedPrefixDetails(thrown: Thrown, code: string, development: bool, req: Request, now: string, i: nat)
    requires code != "VALIDATION" && code != "NOT_FOUND"
    requires thrown.IsError() && i < |PrefixTable| && StartsWith(thrown.Message(), PrefixTable[i].prefix)
    ensures var r := OnError(thrown, code, development, req, now);
      var rule := PrefixTable[i];
      && r.status == Some(rule.status)
      && r.body.error == rule.error
      && (rule.detailsInProduction || development ==>
            r.body.details == Some(Text(Trim(thrown.Message()[|rule.prefix|..]))))
      && (!rule.detailsInProduction && !development ==> r.body.details.None?)
  {
    var msg := thrown.Message();
    OnErrorIsTableLookup(thrown, code, development, req, now);
    FirstMatchUnrolled(msg);
    forall k | 0 <= k < i ensures !StartsWith(msg, PrefixTable[k].prefix) {
      PrefixesExclusive(msg, k, i);
    }
    ReplacePrefix(msg, PrefixTable[i].prefix);
  }

  /** Outside development a DATABASE_ERROR: message never reaches the client. */
  lemma DatabaseDetailsOnlyInDevelopment(thrown: Thrown, code: string, req: Request, now: string)
    requires code != "VALIDATION" && code != "NOT_FOUND"
    requires thrown.IsError() && StartsWith(thrown.Message(), DatabaseRule.prefix)
    ensures var r := OnError(thrown, code, false, req, now);
      r.status == Some(500) && r.body.details.None?
  {
    MatchedPrefixDetails(thrown, code, false, req, now, 3);
  }

  /** A message matching no prefix falls through to a generic 500; details and stack only in development. */
  lemma UnmatchedIsInternalError(thrown: Thrown, code: string, development: bool, req: Request, now: string)
    requires code != "VALIDATION" && code != "NOT_FOUND"
    requires thrown.IsError() ==> forall i :: 0 <= i < |PrefixTable| ==> !StartsWith(thrown.Message(), PrefixTable[i].prefix)
    ensures var r := OnError(thrown, code, development, req, now);
      && r.status == Some(500) && r.body.error == "Internal Server Error"
      && (r.body.details.Some? <==> development)
      && (r.body.stack.Some? ==> development)
  {
    OnErrorIsTableLookup(thrown, code, development, req, now);
  }
}
