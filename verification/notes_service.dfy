/**
 * `NotesService` of `src/services/notes.service.ts`: what each operation
 * asks of the store, and how it turns the store's answer into a note or an
 * application error. The store's answer for each call is a parameter; an
 * operation that writes receives the store as a function of what is written,
 * so its contract can say what it writes.
 */
module NotesService {
  import opened Base
  import opened Errors
  import opened Envelope
  import opened Store
  import opened NoteSchema
  import Validators

  const Resource := "Nota"
  const InvalidDataMessage := "Datos inválidos"
  const ListFailed := "Error al obtener las notas"
  const GetFailed := "Error al obtener la nota"
  const CreateFailed := "Error al crear la nota"
  const UpdateFailed := "Error al actualizar la nota"
  const DeleteFailed := "Error al eliminar la nota"

  /** The query's `.limit(100)`. */
  const PageSize := 100

  /** A stored note as a lean query returns it; `objectId` is `_id` already turned into a string. */
  datatype StoredNote = StoredNote(
    objectId: Option<string>,
    id: Option<string>,
    content: string,
    date: Instant,
    important: Option<bool>,
    createdAt: Option<int>,
    updatedAt: Option<int>)

  /** The `Note` the service returns. */
  datatype Note = Note(
    id: string,
    content: string,
    date: Instant,
    important: bool,
    createdAt: Option<int>,
    updatedAt: Option<int>)

  /** The `date` of a create request: a string to parse or a `Date` value. */
  datatype DateInput = DateText(text: string) | DateValue(at: Instant)

  datatype CreateNoteDto = CreateNoteDto(content: string, date: Option<DateInput>, important: Option<bool>)
  datatype UpdateNoteDto = UpdateNoteDto(content: string, important: Option<bool>)

  /** The fields of a new note, as handed to the store. */
  datatype NewNote = NewNote(content: string, date: Instant, important: bool)

  /** The fields an update writes. */
  datatype Changes = Changes(content: string, important: bool)

  // ----- formatNote -----------------------------------------------------------------

  /** `formatNote`: the id from `_id`, else `id`, else the empty string; `important` defaults to false. */
  function FormatNote(n: StoredNote): (r: Note)
    ensures Truthy(n.objectId) ==> r.id == n.objectId.value
    ensures !Truthy(n.objectId) && Truthy(n.id) ==> r.id == n.id.value
    ensures !Truthy(n.objectId) && !Truthy(n.id) ==> r.id == ""
    ensures r.important <==> n.important == Some(true)
    ensures r.content == n.content && r.date == n.date
    ensures r.createdAt == n.createdAt && r.updatedAt == n.updatedAt
  {
    var id := if Truthy(n.objectId) then n.objectId.value else if Truthy(n.id) then n.id.value else "";
    Note(id, n.content, n.date, n.important.GetOr(false), n.createdAt, n.updatedAt)
  }

  /** A formatted note read back as a stored one, under its `id` key. */
  function Restored(note: Note): StoredNote {
    StoredNote(None, Some(note.id), note.content, note.date, Some(note.important), note.createdAt, note.updatedAt)
  }

  /** Formatting is stable: a formatted note formats to itself. */
  lemma FormatNoteStable(n: StoredNote)
    ensures FormatNote(Restored(FormatNote(n))) == FormatNote(n)
  {
  }

  /** For a note with an `_id`, the service's format and the schema's `toJSON` agree on every shared field. */
  lemma FormatAgreesWithToJson(n: StoredNote, now: int)
    requires Truthy(n.objectId)
    ensures var f := FormatNote(n);
      var j := NoteSchema.ToJson(NoteDocument(n.objectId, n.content, n.date, n.important, n.createdAt, n.updatedAt), now);
      && f.id == j.id && f.content == j.content && f.date == j.date && f.important == j.important
      && f.createdAt == j.createdAt && f.updatedAt == j.updatedAt
  {
  }

  // ----- Error translation ----------------------------------------------------------

  /** `error instanceof Error ? error : undefined`, as a DatabaseError's second argument. */
  function Wrap(thrown: Thrown): (w: Wrapped)
    ensures w.ErrorValue? <==> thrown.IsError()
    ensures w.ErrorValue? ==> w.message == thrown.Message()
  {
    if thrown.IsError() then ErrorValue(thrown.Message()) else NoValue
  }

  /**
   * A catch block: a NotFoundError passes through where `passesNotFound`, a
   * store validation failure becomes a ValidationError with its field
   * messages where `seesValidation`, and anything else a DatabaseError.
   */
  function StoreError(f: Failure, message: string, passesNotFound: bool, seesValidation: bool): (e: AppError)
    ensures passesNotFound && f.thrown.App? && f.thrown.err.NotFoundError? ==> e == f.thrown.err
    ensures !(passesNotFound && f.thrown.App? && f.thrown.err.NotFoundError?) && seesValidation && f.IsValidationFailure() ==>
      e.ValidationError? && e.message == InvalidDataMessage && e.Details() == Some(FieldMessages(f.fieldMessages))
    ensures !(passesNotFound && f.thrown.App? && f.thrown.err.NotFoundError?) && !(seesValidation && f.IsValidationFailure()) ==>
      e.DatabaseError? && e.message == message && e.Details() == Some(OriginalError(if f.thrown.IsError() then Some(f.thrown.Message()) else None))
  {
    if passesNotFound && f.thrown.App? && f.thrown.err.NotFoundError? then f.thrown.err
    else if seesValidation && f.IsValidationFailure() then
      NewValidationError(InvalidDataMessage, Some(FieldMessages(f.fieldMessages)))
    else NewDatabaseError(message, Wrap(f.thrown))
  }

  /** The error classes a service call can end in. */
  predicate ServiceError(e: AppError) {
    e.InvalidIdError? || e.NotFoundError? || e.ValidationError? || e.DatabaseError?
  }

  // ----- Operations -----------------------------------------------------------------

  /** `getAllNotes`: `matching` is every note in the query's sort order, or the query's failure. */
  function GetAllNotes(matching: Query<seq<StoredNote>>): (r: Result<seq<Note>, AppError>)
    ensures matching.Answered? ==> r.Ok? && |r.value| <= PageSize
    ensures matching.Answered? ==>
      && |r.value| == (if |matching.value| <= PageSize then |matching.value| else PageSize)
      && forall i :: 0 <= i < |r.value| ==> r.value[i] == FormatNote(matching.value[i])
    // the one error it can raise
    ensures matching.QueryFailed? ==> r == Err(NewDatabaseError(ListFailed, Wrap(matching.failure.thrown)))
  {
    match matching
    case Answered(notes) =>
      var page := if |notes| <= PageSize then notes else notes[..PageSize];
      Ok(seq(|page|, i requires 0 <= i < |page| => FormatNote(page[i])))
    case QueryFailed(f) => Err(NewDatabaseError(ListFailed, Wrap(f.thrown)))
  }

  /** `getNoteById`: the id check comes first, outside the `try`. */
  function GetNoteById(objectIdIsValid: string -> bool, id: string, found: Lookup<StoredNote>): (r: Result<Note, AppError>)
    ensures !Validators.IsValidObjectId(objectIdIsValid, id) ==> r == Err(NewInvalidIdError(id))
    ensures Validators.IsValidObjectId(objectIdIsValid, id) ==>
      && (found.Found? ==> r == Ok(FormatNote(found.value)))
      && (found.Missing? ==> r == Err(NewNotFoundError(Resource, Some(id))))
      && (found.Failed? ==> r == Err(StoreError(found.failure, GetFailed, true, false)))
  {
    match Validators.ValidateObjectId(objectIdIsValid, id)
    case Fail(e) => Err(e)
    case Pass =>
      match found
      case Found(n) => Ok(FormatNote(n))
      case Missing => Err(NewNotFoundError(Resource, Some(id)))
      case Failed(f) => Err(StoreError(f, GetFailed, true, false))
  }

  /** The fields `createNote` hands to the store: a truthy date is parsed, else it is `now`; `important` defaults to false. */
  function CreateFields(data: CreateNoteDto, now: int, parseDate: string -> Instant): (n: NewNote)
    ensures n.content == data.content
    ensures n.important == (data.important == Some(true))
    ensures data.date.None? ==> n.date == At(now)
    ensures data.date == Some(DateText("")) ==> n.date == At(now)
    ensures data.date.Some? && data.date.value.DateText? && data.date.value.text != "" ==> n.date == parseDate(data.date.value.text)
    ensures data.date.Some? && data.date.value.DateValue? ==> n.date == data.date.value.at
  {
    var date := match data.date
      case None => At(now)
      case Some(DateText(s)) => if s != "" then parseDate(s) else At(now)
      case Some(DateValue(d)) => d;
    NewNote(data.content, date, data.important.GetOr(false))
  }

  /** `createNote`: `save` is the store's answer to saving the given fields. */
  function CreateNote(data: CreateNoteDto, now: int, parseDate: string -> Instant, save: NewNote -> Query<StoredNote>): (r: Result<Note, AppError>)
    ensures var written := save(CreateFields(data, now, parseDate));
      && (written.Answered? ==> r == Ok(FormatNote(written.value)))
      && (written.QueryFailed? ==> r == Err(StoreError(written.failure, CreateFailed, false, true)))
  {
    match save(CreateFields(data, now, parseDate))
    case Answered(n) => Ok(FormatNote(n))
    case QueryFailed(f) => Err(StoreError(f, CreateFailed, false, true))
  }

  /** The fields `updateNote` writes: an omitted `important` is written as false. */
  function UpdateFields(data: UpdateNoteDto): (c: Changes)
    ensures c.content == data.content
    ensures c.important <==> data.important == Some(true)
  {
    Changes(data.content, data.important.GetOr(false))
  }

  /** `updateNote`: `update` is the store's answer to applying the given changes to the note `id`. */
  function UpdateNote(objectIdIsValid: string -> bool, id: string, data: UpdateNoteDto,
                      update: Changes -> Lookup<StoredNote>): (r: Result<Note, AppError>)
    ensures !Validators.IsValidObjectId(objectIdIsValid, id) ==> r == Err(NewInvalidIdError(id))
    ensures Validators.IsValidObjectId(objectIdIsValid, id) ==>
      var written := update(UpdateFields(data));
      && (written.Found? ==> r == Ok(FormatNote(written.value)))
      && (written.Missing? ==> r == Err(NewNotFoundError(Resource, Some(id))))
      && (written.Failed? ==> r == Err(StoreError(written.failure, UpdateFailed, true, true)))
  {
    match Validators.ValidateObjectId(objectIdIsValid, id)
    case Fail(e) => Err(e)
    case Pass =>
      match update(UpdateFields(data))
      case Found(n) => Ok(FormatNote(n))
      case Missing => Err(NewNotFoundError(Resource, Some(id)))
      case Failed(f) => Err(StoreError(f, UpdateFailed, true, true))
  }

  /** `deleteNote`: `deleted` is the store's answer to removing the note `id`. */
  function DeleteNote(objectIdIsValid: string -> bool, id: string, deleted: Lookup<StoredNote>): (r: Outcome<AppError>)
    ensures !Validators.IsValidObjectId(objectIdIsValid, id) ==> r == Fail(NewInvalidIdError(id))
    ensures Validators.IsValidObjectId(objectIdIsValid, id) ==>
      && (r.Pass? <==> deleted.Found?)
      && (deleted.Missing? ==> r == Fail(NewNotFoundError(Resource, Some(id))))
      && (deleted.Failed? ==> r == Fail(StoreError(deleted.failure, DeleteFailed, true, false)))
  {
    match Validators.ValidateObjectId(objectIdIsValid, id)
    case Fail(e) => Fail(e)
    case Pass =>
      match deleted
      case Found(_) => Pass
      case Missing => Fail(NewNotFoundError(Resource, Some(id)))
      case Failed(f) => Fail(StoreError(f, DeleteFailed, true, false))
  }

  // ----- Properties -----------------------------------------------------------------

  /** An invalid id is rejected before the store is asked: its answer cannot change the outcome. */
  lemma InvalidIdIgnoresStore(objectIdIsValid: string -> bool, id: string, a: Lookup<StoredNote>, b: Lookup<StoredNote>,
                              data: UpdateNoteDto, u: Changes -> Lookup<StoredNote>, v: Changes -> Lookup<StoredNote>)
    requires !Validators.IsValidObjectId(objectIdIsValid, id)
    ensures GetNoteById(objectIdIsValid, id, a) == GetNoteById(objectIdIsValid, id, b)
    ensures UpdateNote(objectIdIsValid, id, data, u) == UpdateNote(objectIdIsValid, id, data, v)
    ensures DeleteNote(objectIdIsValid, id, a) == DeleteNote(objectIdIsValid, id, b)
    ensures GetNoteById(objectIdIsValid, id, a).error.InvalidIdError?
  {
  }

  /** A missing note is reported as a 404 that names the id. */
  lemma MissingNoteNamesId(objectIdIsValid: string -> bool, id: string)
    requires Validators.IsValidObjectId(objectIdIsValid, id)
    ensures var r := GetNoteById(objectIdIsValid, id, Missing);
      && r.Err? && r.error.StatusCode() == 404
      && r.error.message == "Nota con ID '" + id + "' no encontrado"
  {
    var e := NewNotFoundError(Resource, Some(id));
    assert e.message == e.message[..|Resource|] + e.message[|Resource|..];
  }

  /** A store validation failure in `createNote` carries the field messages, whatever else the error says. */
  lemma CreateValidationKeepsMessages(data: CreateNoteDto, now: int, parseDate: string -> Instant,
                                      name: string, message: string, stack: Option<string>, messages: seq<string>)
    ensures var r := CreateNote(data, now, parseDate, n => QueryFailed(Failure(Native("ValidationError", message, stack), messages)));
      r.Err? && r.error.StatusCode() == 400 && r.error.Details() == Some(FieldMessages(messages))
  {
  }

  /** Every error a service call raises is an InvalidIdError, NotFoundError, ValidationError or DatabaseError. */
  lemma ErrorsAreClassified(objectIdIsValid: string -> bool, id: string, found: Lookup<StoredNote>,
                            matching: Query<seq<StoredNote>>, create: CreateNoteDto, now: int,
                            parseDate: string -> Instant, save: NewNote -> Query<StoredNote>,
                            update: UpdateNoteDto, apply: Changes -> Lookup<StoredNote>)
    ensures GetAllNotes(matching).Err? ==> GetAllNotes(matching).error.DatabaseError?
    ensures GetNoteById(objectIdIsValid, id, found).Err? ==> ServiceError(GetNoteById(objectIdIsValid, id, found).error)
    ensures CreateNote(create, now, parseDate, save).Err? ==>
      var e := CreateNote(create, now, parseDate, save).error;
      e.ValidationError? || e.DatabaseError?
    ensures UpdateNote(objectIdIsValid, id, update, apply).Err? ==> ServiceError(UpdateNote(objectIdIsValid, id, update, apply).error)
    ensures DeleteNote(objectIdIsValid, id, found).Fail? ==> ServiceError(DeleteNote(objectIdIsValid, id, found).error)
  {
  }

  /**
   * What `findByIdAndUpdate` with `new: true` hands back when the note
   * exists and the write succeeds: the stored note with the two fields replaced.
   */
  function Applied(stored: StoredNote, c: Changes): StoredNote {
    stored.(content := c.content, important := Some(c.important))
  }

  /** An update that omits `important` clears a flag that was set. */
  lemma OmittedImportantClearsFlag(objectIdIsValid: string -> bool, id: string, stored: StoredNote, content: string)
    requires Validators.IsValidObjectId(objectIdIsValid, id)
    requires stored.important == Some(true)
    ensures var r := UpdateNote(objectIdIsValid, id, UpdateNoteDto(content, None), c => Found(Applied(stored, c)));
      r.Ok? && !r.value.important && r.value.content == content
  {
  }
}
