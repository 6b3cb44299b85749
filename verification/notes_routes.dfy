/**
 * The note routes of `src/routes/notes.routes.ts`: what each route's
 * parameter and body schemas accept, which controller call an accepted
 * request makes, and the status the handler sets on the way. Each route
 * takes the note service's answer for the request as a parameter and hands
 * it to the controller, which wraps it in its envelope.
 */
module NotesRoutes {
  import opened Base
  import opened Text
  import opened Errors
  import Validators
  import NotesService
  import NotesController
  import opened Store

  /** The `maxLength` of every `content` schema. */
  const MaxContent := 2000

  datatype Verb = Get | Post | Patch | Put | Delete

  /** The status each route sets for a request it handles. */
  function SuccessStatus(v: Verb): (s: int)
    ensures 200 <= s < 300
    ensures s == 201 <==> v == Post
    ensures s == 204 <==> v == Delete
    ensures s == 200 <==> v == Get || v == Patch || v == Put
  {
    match v
    case Get => 200
    case Post => 201
    case Patch => 200
    case Put => 200
    case Delete => 204
  }

  /**
   * What a route does with a request: the schemas reject it before the
   * handler runs, or the handler runs, having set `status` (if it did)
   * by the time the controller call returned or threw.
   */
  datatype Handled<T> = Rejected | Handled(status: Option<int>, outcome: Result<T, AppError>)

  // ----- The schemas ----------------------------------------------------------------

  /** The `:id` schema: `minLength` 24, `maxLength` 24, and the pattern `^[0-9a-fA-F]{24}$`. */
  function IdParamAccepted(id: string): (ok: bool)
    ensures ok <==> IsHex24(id)
  {
    24 <= |id| && |id| <= 24 && |id| == 24 && forall i :: 0 <= i < |id| ==> IsHexDigit(id[i])
  }

  /** A `content` schema: a string of 1 to 2000 characters, counted as they come, white space included. */
  function ContentAccepted(v: Json): (ok: bool)
    ensures ok <==> v.JString? && 0 < |v.s| <= MaxContent
  {
    match v
    case JString(s) => 1 <= |s| && |s| <= MaxContent
    case _ => false
  }

  /** `t.Optional(...)` of a field: absent, or present with the required kind. */
  predicate OptionalOfKind(fields: map<string, Json>, key: string, isKind: Json -> bool) {
    key in fields ==> isKind(fields[key])
  }

  /** The POST body: `content` required; `date`, a string, and `important`, a boolean, optional. */
  function CreateBody(body: Payload): (dto: Option<NotesService.CreateNoteDto>)
    ensures dto.Some? <==>
      && body.Object?
      && "content" in body.fields && ContentAccepted(body.fields["content"])
      && ("date" in body.fields ==> body.fields["date"].JString?)
      && ("important" in body.fields ==> body.fields["important"].JBool?)
    ensures dto.Some? ==>
      && dto.value.content == body.fields["content"].s
      && (dto.value.date.Some? <==> "date" in body.fields)
      && (dto.value.date.Some? ==> dto.value.date.value == NotesService.DateText(body.fields["date"].s))
      && (dto.value.important.Some? <==> "important" in body.fields)
      && (dto.value.important.Some? ==> dto.value.important.value == body.fields["important"].b)
  {
    match body
    case NotAnObject => None
    case Object(fields) =>
      if "content" in fields && ContentAccepted(fields["content"])
         && OptionalOfKind(fields, "date", (v: Json) => v.JString?)
         && OptionalOfKind(fields, "important", (v: Json) => v.JBool?)
      then
        var date := if "date" in fields then Some(NotesService.DateText(fields["date"].s)) else None;
        var important := if "important" in fields then Some(fields["important"].b) else None;
        Some(NotesService.CreateNoteDto(fields["content"].s, date, important))
      else None
  }

  /** The PATCH and PUT body: `content` required, `important` optional; there is no `date`. */
  function UpdateBody(body: Payload): (dto: Option<NotesService.UpdateNoteDto>)
    ensures dto.Some? <==>
      && body.Object?
      && "content" in body.fields && ContentAccepted(body.fields["content"])
      && ("important" in body.fields ==> body.fields["important"].JBool?)
    ensures dto.Some? ==>
      && dto.value.content == body.fields["content"].s
      && (dto.value.important.Some? <==> "important" in body.fields)
      && (dto.value.important.Some? ==> dto.value.important.value == body.fields["important"].b)
  {
    match body
    case NotAnObject => None
    case Object(fields) =>
      if "content" in fields && ContentAccepted(fields["content"])
         && OptionalOfKind(fields, "important", (v: Json) => v.JBool?)
      then
        var important := if "important" in fields then Some(fields["important"].b) else None;
        Some(NotesService.UpdateNoteDto(fields["content"].s, important))
      else None
  }

  // ----- The routes -----------------------------------------------------------------

  /** GET /api/notes: 200 is set before the controller is called. */
  function ListNotes(answer: Result<seq<NotesService.Note>, AppError>, now: string): (h: Handled<NotesController.Listing>)
    ensures h.Handled? && h.status == Some(SuccessStatus(Get))
    ensures h.outcome.Ok? <==> answer.Ok?
    ensures answer.Ok? ==> h.outcome.value.notes == answer.value && h.outcome.value.count == |answer.value|
    ensures answer.Err? ==> h.outcome == Err(answer.error)
  {
    Handled(Some(200), NotesController.GetAllNotes(answer, now))
  }

  /** GET /api/notes/:id: the controller returns the service's note without an envelope. */
  function ShowNote(id: string, get: string -> Result<NotesService.Note, AppError>): (h: Handled<NotesService.Note>)
    ensures h.Rejected? <==> !IsHex24(id)
    ensures h.Handled? ==> h.status == Some(SuccessStatus(Get)) && h.outcome == get(id)
  {
    if !IdParamAccepted(id) then Rejected else Handled(Some(200), get(id))
  }

  /** POST /api/notes: 201 is set before the controller is called. */
  function CreateNote(body: Payload, now: string,
                      create: NotesService.CreateNoteDto -> Result<NotesService.Note, AppError>): (h: Handled<NotesController.Created>)
    ensures h.Rejected? <==> CreateBody(body).None?
    ensures h.Handled? ==> h.status == Some(SuccessStatus(Post))
    ensures h.Handled? ==>
      var answer := create(CreateBody(body).value);
      && (h.outcome.Ok? <==> answer.Ok?)
      && (answer.Ok? ==> h.outcome.value.note == answer.value)
      && (answer.Err? ==> h.outcome == Err(answer.error))
  {
    match CreateBody(body)
    case None => Rejected
    case Some(dto) => Handled(Some(201), NotesController.CreateNote(create(dto), now))
  }

  /** PATCH and PUT /api/notes/:id: one schema, one controller call; the id is checked first. */
  function UpdateNote(verb: Verb, id: string, body: Payload,
                      update: (string, NotesService.UpdateNoteDto) -> Result<NotesService.Note, AppError>): (h: Handled<NotesController.Updated>)
    requires verb == Patch || verb == Put
    ensures h.Rejected? <==> !IsHex24(id) || UpdateBody(body).None?
    ensures h.Handled? ==> h.status == Some(SuccessStatus(verb))
    ensures h.Handled? ==>
      var answer := update(id, UpdateBody(body).value);
      && (h.outcome.Ok? <==> answer.Ok?)
      && (answer.Ok? ==> h.outcome.value.note == answer.value)
      && (answer.Err? ==> h.outcome == Err(answer.error))
  {
    if !IdParamAccepted(id) then Rejected
    else match UpdateBody(body)
      case None => Rejected
      case Some(dto) => Handled(Some(200), NotesController.UpdateNote(update(id, dto)))
  }

  /**
   * DELETE /api/notes/:id: 204 is set only once the controller call has
   * returned; when it throws, the status is left to the error hook. The
   * route drops the controller's envelope and answers with its own of the
   * same shape, stamped with the route's time `now`.
   */
  function DeleteNote(id: string, now: string, delete: string -> Outcome<AppError>): (h: Handled<NotesController.Deletion>)
    ensures h.Rejected? <==> !IsHex24(id)
    ensures h.Handled? ==> (h.status.Some? <==> delete(id).Pass?)
    ensures h.Handled? && delete(id).Pass? ==>
      h.status == Some(SuccessStatus(Delete)) && h.outcome == Ok(NotesController.Deletion(NotesController.DeletedMessage, id, now))
    ensures h.Handled? && delete(id).Fail? ==> h.outcome == Err(delete(id).error)
  {
    if !IdParamAccepted(id) then Rejected
    else match delete(id)
      case Pass => Handled(Some(204), Ok(NotesController.Deletion(NotesController.DeletedMessage, id, now)))
      case Fail(e) => Handled(None, Err(e))
  }

  // ----- Properties -----------------------------------------------------------------

  /**
   * The body DELETE answers with is the controller's envelope whenever the
   * two read the same time: dropping one for the other changes nothing else.
   */
  lemma DeleteAnswersControllerEnvelope(id: string, now: string, delete: string -> Outcome<AppError>)
    requires IsHex24(id)
    ensures DeleteNote(id, now, delete).outcome == NotesController.DeleteNote(delete(id), id, now)
  {
  }

  /** PATCH and PUT are the same route under two verbs. */
  lemma PatchIsPut(id: string, body: Payload, update: (string, NotesService.UpdateNoteDto) -> Result<NotesService.Note, AppError>)
    ensures UpdateNote(Patch, id, body, update) == UpdateNote(Put, id, body, update)
  {
  }

  /** A request the schemas reject never reaches the controller: its answer cannot change the outcome. */
  lemma RejectedRequestSkipsController(id: string, body: Payload, now: string,
                                       get1: string -> Result<NotesService.Note, AppError>,
                                       get2: string -> Result<NotesService.Note, AppError>,
                                       create1: NotesService.CreateNoteDto -> Result<NotesService.Note, AppError>,
                                       create2: NotesService.CreateNoteDto -> Result<NotesService.Note, AppError>,
                                       delete1: string -> Outcome<AppError>,
                                       delete2: string -> Outcome<AppError>)
    ensures ShowNote(id, get1).Rejected? ==> ShowNote(id, get1) == ShowNote(id, get2)
    ensures CreateNote(body, now, create1).Rejected? ==> CreateNote(body, now, create1) == CreateNote(body, now, create2)
    ensures DeleteNote(id, now, delete1).Rejected? ==> DeleteNote(id, now, delete1) == DeleteNote(id, now, delete2)
  {
  }

  /**
   * With a library check that accepts every 24-hex string, an id the route
   * accepts always passes the service's own check, so the service's
   * InvalidIdError cannot be reached through these routes.
   */
  lemma RouteIdPassesServiceCheck(objectIdIsValid: string -> bool, id: string, found: Lookup<NotesService.StoredNote>)
    requires Validators.AcceptsHex24(objectIdIsValid)
    requires IdParamAccepted(id)
    ensures Validators.IsValidObjectId(objectIdIsValid, id)
    ensures NotesService.GetNoteById(objectIdIsValid, id, found).Err? ==>
      !NotesService.GetNoteById(objectIdIsValid, id, found).error.InvalidIdError?
    ensures NotesService.DeleteNote(objectIdIsValid, id, found).Fail? ==>
      !NotesService.DeleteNote(objectIdIsValid, id, found).error.InvalidIdError?
  {
    Validators.ObjectIdIsHex24(objectIdIsValid, id);
  }

  /** The route counts raw characters: content of white space only passes it, though the validator rejects it. */
  lemma BlankContentPassesRoute(content: string)
    requires 0 < |content| <= MaxContent && AllSpace(content)
    ensures ContentAccepted(JString(content))
    ensures !Validators.IsValidContent(content)
  {
    Validators.WhiteSpaceContentRejected(content);
  }

  /** The validator accepts exactly the content the route accepts that is not white space only. */
  lemma ValidContentIsRouteContentWithText(content: string)
    ensures Validators.IsValidContent(content) <==> ContentAccepted(JString(content)) && !AllSpace(content)
  {
  }
}
