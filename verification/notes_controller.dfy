/**
 * The notes controller of `src/routes/notes.controller.ts`: each method
 * calls the note service and wraps what it returns in a response envelope;
 * whatever the service throws passes through unchanged. `getNoteById`
 * returns the service's note as it is, so it has no envelope. The service's
 * answer is a parameter, and so is `now`, the envelope's formatted time.
 */
module NotesController {
  import opened Base
  import opened Errors
  import NotesService

  const ListedMessage := "Notas obtenidas exitosamente"
  const CreatedMessage := "Nota creada exitosamente"
  const UpdatedMessage := "Nota actualizada exitosamente"
  const DeletedMessage := "Nota eliminada exitosamente"

  /** The envelope of `getAllNotes`. */
  datatype Listing = Listing(message: string, count: nat, notes: seq<NotesService.Note>, timestamp: string)

  /** The envelope of `createNote`. */
  datatype Created = Created(message: string, note: NotesService.Note, timestamp: string)

  /** The envelope of `updateNote`: its time is the note's own `updatedAt`. */
  datatype Updated = Updated(message: string, note: NotesService.Note, updatedAt: Option<int>)

  /** The envelope of `deleteNote`, which echoes the id. */
  datatype Deletion = Deletion(message: string, id: string, deletedAt: string)

  /** `getAllNotes`: the notes with their count. */
  function GetAllNotes(answer: Result<seq<NotesService.Note>, AppError>, now: string): (r: Result<Listing, AppError>)
    ensures r.Ok? <==> answer.Ok?
    ensures answer.Err? ==> r == Err(answer.error)
    ensures answer.Ok? ==>
      && r.value.notes == answer.value && r.value.count == |answer.value|
      && r.value.message == ListedMessage && r.value.timestamp == now
  {
    match answer
    case Ok(notes) => Ok(Listing(ListedMessage, |notes|, notes, now))
    case Err(e) => Err(e)
  }

  /** `createNote`: the created note with the time of the answer. */
  function CreateNote(answer: Result<NotesService.Note, AppError>, now: string): (r: Result<Created, AppError>)
    ensures r.Ok? <==> answer.Ok?
    ensures answer.Err? ==> r == Err(answer.error)
    ensures answer.Ok? ==> r.value.note == answer.value && r.value.message == CreatedMessage && r.value.timestamp == now
  {
    match answer
    case Ok(note) => Ok(Created(CreatedMessage, note, now))
    case Err(e) => Err(e)
  }

  /** `updateNote`: the updated note, stamped with its own `updatedAt`. */
  function UpdateNote(answer: Result<NotesService.Note, AppError>): (r: Result<Updated, AppError>)
    ensures r.Ok? <==> answer.Ok?
    ensures answer.Err? ==> r == Err(answer.error)
    ensures answer.Ok? ==>
      && r.value.note == answer.value && r.value.message == UpdatedMessage
      && r.value.updatedAt == answer.value.updatedAt
  {
    match answer
    case Ok(note) => Ok(Updated(UpdatedMessage, note, note.updatedAt))
    case Err(e) => Err(e)
  }

  /** `deleteNote`: the service returns nothing, so the envelope is built from the id. */
  function DeleteNote(answer: Outcome<AppError>, id: string, now: string): (r: Result<Deletion, AppError>)
    ensures r.Ok? <==> answer.Pass?
    ensures answer.Fail? ==> r == Err(answer.error)
    ensures answer.Pass? ==> r.value == Deletion(DeletedMessage, id, now)
  {
    match answer
    case Pass => Ok(Deletion(DeletedMessage, id, now))
    case Fail(e) => Err(e)
  }

  // ----- Reading the service's answer back ------------------------------------------

  function ListedNotes(r: Result<Listing, AppError>): Result<seq<NotesService.Note>, AppError> {
    match r
    case Ok(l) => Ok(l.notes)
    case Err(e) => Err(e)
  }

  function CreatedNote(r: Result<Created, AppError>): Result<NotesService.Note, AppError> {
    match r
    case Ok(c) => Ok(c.note)
    case Err(e) => Err(e)
  }

  function UpdatedNote(r: Result<Updated, AppError>): Result<NotesService.Note, AppError> {
    match r
    case Ok(u) => Ok(u.note)
    case Err(e) => Err(e)
  }

  /**
   * The envelopes add fixed text and a time but lose nothing: the service's
   * answer, notes or error, can be read back from each of them.
   */
  lemma EnvelopesKeepServiceAnswer(notes: Result<seq<NotesService.Note>, AppError>,
                                   note: Result<NotesService.Note, AppError>, now: string)
    ensures ListedNotes(GetAllNotes(notes, now)) == notes
    ensures CreatedNote(CreateNote(note, now)) == note
    ensures UpdatedNote(UpdateNote(note)) == note
  {
  }
}
