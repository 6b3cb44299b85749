# Notes and todos API: a Dafny model of its validation and error core

This project models the validation and error handling of a small REST API.
The API has notes, stored through a service layer, and todos, stored through
a controller and a model. The Dafny model covers:

- the application error taxonomy and its `toJSON` (`Errors`);
- the ObjectId and content validators (`Validators`);
- the three error hooks that turn a thrown value into an HTTP response:
  - `ErrorHandler` for `setupErrorHandler`;
  - `AppOnError` for the `onError` callback of the entry point;
  - `HandlerErrors` for the `onErrors` plugin;
- the todo request schemas (`TodoSchema`);
- the note schema's validators, its pre-save sanitisation and its `toJSON` transform (`NoteSchema`);
- the notes service, with its error translation, its defaults and `formatNote` (`NotesService`);
- the todo model and controller (`TodoModel`, `TodosController`);
- the notes controller's response envelopes (`NotesController`);
- the note routes' acceptance schemas and success statuses (`NotesRoutes`).

The database, the clock and any library predicate the source calls without
defining are parameters, never modelled:

- each store call's answer is a `Lookup`, a `Query` or a function from what is written to the answer;
- `now` is the clock;
- `objectIdIsValid` is Mongoose's `ObjectId.isValid`;
- `isValidId` is the todo controller's import that its helper module does not export;
- `isServerError` and `statusOf` are the `ServerError` class and the `status` field that the `onErrors` plugin reads; the plugin imports `ServerError`, but src/utils/errors.ts defines no such class and no `status` field.

A thrown value is an `Envelope.Thrown`, one of three kinds:

- an application error with its stack;
- a native `Error`, given by its name, message and stack;
- a value that is not an `Error` at all.

Every operation is a pure function from its inputs to a `Result` (or an `Outcome`) whose error half is what the source throws.

Two properties of the note routes follow from their schemas:

- The note routes check the raw length of `content` and do not trim it, so text of white space only passes them (`NotesRoutes.BlankContentPassesRoute`). The service's `isValidContent` would reject that text.
- Every id the routes' parameter schema accepts also passes the service's `validateObjectId`, so the service's `INVALID_ID` error cannot be reached through these routes (`NotesRoutes.RouteIdPassesServiceCheck`). A malformed id is rejected by the schema before the controller runs, and the framework reports that rejection with its `VALIDATION` code. Which error hook answers it depends on wiring that the model does not include (see "Left out").

## Model

| member | source | states |
|---|---|---|
| Errors.NewAppError | src/utils/errors.ts:11-25 | Status 500 and code INTERNAL_ERROR are the defaults; details are present exactly when supplied; the name is the class name |
| Errors.NewValidationError | src/utils/errors.ts:66-70 | Always 400 VALIDATION_ERROR, with exactly the given details |
| Errors.NewNotFoundError | src/utils/errors.ts:75-82 | 404 NOT_FOUND with no details; the message names the id only for a non-empty id, otherwise "<resource> no encontrado" |
| Errors.NewInvalidIdError | src/utils/errors.ts:87-91 | 400 INVALID_ID with no details; the message is the fixed prefix "ID inválido: '", then the id verbatim, then the fixed suffix "'. Debe ser un ObjectId válido de MongoDB" |
| Errors.NewDatabaseError | src/utils/errors.ts:96-100 | 500 DATABASE_ERROR, always with a details record whose originalError is present exactly when an Error was wrapped |
| Errors.NewDuplicateError | src/utils/errors.ts:105-112 | 409 DUPLICATE_ERROR; the "Ya existe un … con ese …" shape exactly when a non-empty field is given |
| Errors.ToJson | src/utils/errors.ts:30-42 | The serialised form repeats name, message, status and code; has details iff the error has them; has a stack key iff in development |
| ErrorHandler.ResponseAgreesWithToJson | src/middleware/errorHandler.ts:33-50 | For an application error, the response has the status, code and message of its toJSON form; its details are toJSON's details for a ValidationError and absent for every other error |
| Errors.StatusFollowsCode | src/utils/errors.ts:63-112 | For every subclass, the code alone determines the HTTP status |
| Validators.IsValidObjectId | src/middleware/validators.ts:19-21 | Accepted ids are 24 hex characters that the library also accepts |
| Validators.ObjectIdIsHex24 | src/middleware/validators.ts:19-21 | If the library accepts all 24-hex strings, the validation accepts exactly the 24-hex pattern, both ways |
| Validators.DocumentedExamples | src/middleware/validators.ts:15-17 | The documented ObjectId is accepted and 'abc123' is rejected |
| Validators.ValidateObjectId | src/middleware/validators.ts:34-38 | Fails exactly on invalid ids, and then with InvalidIdError quoting the id |
| Validators.IsValidContent | src/middleware/validators.ts:46-48 | Valid iff some character is not white space and the raw length is at most 2000 |
| Validators.WhiteSpaceContentRejected | src/middleware/validators.ts:46-48 | White space alone is never valid content, whatever its length |
| Text.Trim | src/middleware/validators.ts:47 | The result is empty iff the input is all white space; otherwise it is the infix with non-space ends and only white space cut off around it |
| Text.TrimIdempotent | src/schema/note.ts:162 | Trimming twice is trimming once |
| Text.ReplaceFirst | src/index.ts:82 | Without an occurrence the text is unchanged; otherwise the first occurrence, and only it, is replaced, with the text on both sides kept |
| Text.ReplacePrefix | src/index.ts:82 | Replacing the first occurrence of a prefix the message starts with removes exactly that prefix |
| Text.Lower | src/schema/note.ts:167 | Same length as the input, each character ASCII-lower-cased in place |
| Text.ContainsIgnoringCaseIsIndexOfLower | src/controllers/todos.controller.ts:29 | The case-insensitive search finds the needle iff it occurs in the lower-cased text |
| ErrorHandler.OnError | src/middleware/errorHandler.ts:25-114 | Application errors keep their status and code and show details only for a ValidationError; framework VALIDATION is 400 with the fixed invalid-data message and the thrown error's message, or 'Error de validación', as details; NOT_FOUND is 404, anything else 500; stacks only in development |
| ErrorHandler.DatabaseDetailsWithheld | src/middleware/errorHandler.ts:41-49 | A DatabaseError's details never reach the client, in any mode |
| ErrorHandler.NoServerDiagnosticsInProduction | src/middleware/errorHandler.ts:101-113 | Outside development no response has a stack and no 500 has details |
| ErrorHandler.StatusAgreesWithCode | src/middleware/errorHandler.ts:33-113 | Except for a bare AppError, the response status can be read off its error code |
| AppOnError.OnError | src/index.ts:33-143 | The framework codes are decided before any message is looked at; every body has the timestamp, path and method; stacks only in development |
| AppOnError.FirstMatch | src/index.ts:73-128 | A reference table lookup: the rule found is in the table and the message starts with its prefix; none is found iff no prefix matches |
| AppOnError.OnErrorIsTableLookup | src/index.ts:47-143 | The callback's chain of prefix tests is exactly the lookup in the prefix table |
| AppOnError.PrefixesExclusive | src/index.ts:77-116 | No message starts with two of the four prefixes, so their order cannot matter |
| AppOnError.MatchedPrefixDetails | src/index.ts:77-127 | A matched prefix gives that rule's status and error name, with the rest of the message, trimmed, as details unless they are hidden in production |
| AppOnError.DatabaseDetailsOnlyInDevelopment | src/index.ts:116-127 | Outside development a DATABASE_ERROR: message is a 500 without details |
| AppOnError.UnmatchedIsInternalError | src/index.ts:130-142 | A message with no known prefix is a generic 500; details iff in development |
| HandlerErrors.OnErrors | src/middleware/handlerErros.ts:21-83 | Cases in order: listed application errors keep their code, then 'ValidationError' and 'CastError' names, then VALIDATION/PARSE codes as 400, else 500; every body says success: false |
| HandlerErrors.NameTakesPrecedenceOverCode | src/middleware/handlerErros.ts:42-62 | An Error named ValidationError or CastError gets the same 400 response whatever the framework code |
| HandlerErrors.UnlistedAppErrorLosesItsCode | src/middleware/handlerErros.ts:31-82 | InvalidId, Database and Duplicate errors that are not ServerErrors lose their code: 400 iff VALIDATION or PARSE, else 500 |
| HandlerErrors.ListedStatusUnsetWithoutStatusField | src/middleware/handlerErros.ts:31-32 | With no `status` property, a listed application error leaves the status unset |
| TodoSchema.ParseDescription | src/helpers/todo.ts:12-15 | Accepted iff a string of raw length 1..2000; the value kept is the trimmed string |
| TodoSchema.ValidateCreateTodo | src/helpers/todo.ts:17-20 | Accepted iff an object with a valid description and an optional boolean completed; completed defaults to false; a rejection has at least one issue |
| TodoSchema.ValidateUpdateTodo | src/helpers/todo.ts:22-28 | Accepted iff at least one key is present and each present key is valid; absent keys stay absent |
| TodoSchema.ValidateTodoId | src/helpers/todo.ts:30-32 | Accepted iff the id is a non-empty string, which is kept as given |
| TodoSchema.BlankDescriptionAccepted | src/helpers/todo.ts:12-15 | Blank descriptions pass the length checks and come out empty |
| TodoSchema.UndeclaredKeysIgnored | src/helpers/todo.ts:17-28 | Keys the schemas do not declare change neither the result nor the complaints |
| TodoSchema.AnyNonEmptyIdAccepted | src/helpers/todo.ts:30-32 | Any non-empty id is accepted, ObjectId or not |
| NoteSchema.ValidateContent | src/schema/note.ts:34-44 | Valid iff 1..2000 characters with at least one that is not white space |
| NoteSchema.ContentValidatorsAgree | src/schema/note.ts:34-44 | The schema's content validator and isValidContent accept the same strings |
| NoteSchema.ValidateDate | src/schema/note.ts:47-64 | Valid iff a valid date within 50 years before and one year after now, bounds included |
| NoteSchema.ValidateDateShift | src/schema/note.ts:47-64 | Moving the date and the clock by the same amount never changes the verdict |
| NoteSchema.ValidateDateWindow | src/schema/note.ts:47-64 | now is accepted; both ends of the window are accepted and one millisecond beyond either end is rejected; an invalid date is rejected |
| NoteSchema.ValidateTags | src/schema/note.ts:101-112 | Accepts iff at most 10 tags, each at most 30 characters and not blank |
| NoteSchema.CollapseSpace | src/schema/note.ts:160 | Never longer than the input and empty iff it is; starts with white space iff the input does; only plain blanks remain as white space and never two in a row |
| NoteSchema.CollapseSpaceKeepsText | src/schema/note.ts:160 | Every character that is not white space is kept, in order, and no other is added |
| NoteSchema.CollapseSpaceSplits | src/schema/note.ts:160 | A maximal run of white space between two pieces of text becomes exactly one blank, and each piece is collapsed on its own |
| NoteSchema.TrimKeepsText | src/schema/note.ts:162 | Trimming removes only white space |
| NoteSchema.BlankLineMatch | src/schema/note.ts:161 | A blank-line match starts and ends at a line feed, spans at least two characters, and covers only white space |
| NoteSchema.CollapseBlankLines | src/schema/note.ts:161 | Never longer than the input, and empty iff the input is |
| NoteSchema.CollapseBlankLinesKeepsText | src/schema/note.ts:161 | The blank-line replace removes only white space: every other character is kept, in order |
| NoteSchema.NoNewlineNoBlankLines | src/schema/note.ts:161 | Text without line feeds is unchanged by the blank-line replace |
| NoteSchema.CollapsedHasNoNewline | src/schema/note.ts:160 | After the first replace no line feed is left |
| NoteSchema.BlankLineReplaceIsDead | src/schema/note.ts:159-162 | The second replace never changes anything: sanitising is collapsing white space and trimming |
| NoteSchema.Sanitize | src/schema/note.ts:156-163 | Sanitised content keeps every character of the input that is not white space, in order, and is never longer than the input |
| NoteSchema.SanitizeShape | src/schema/note.ts:156-163 | Sanitised content has no white space at either end, no two white-space characters in a row, only blanks and no line feed |
| NoteSchema.CollapseKeepsSanitizedRuns | src/schema/note.ts:160 | Collapsing leaves text of sanitised shape unchanged |
| NoteSchema.SanitizeIdempotent | src/schema/note.ts:156-163 | Saving sanitised content again does not change it |
| NoteSchema.Dedup | src/schema/note.ts:167 | Deduplication keeps exactly the same elements, each once |
| NoteSchema.DedupKeepsFirstOccurrenceOrder | src/schema/note.ts:167 | Deduplicated elements appear in the order of their first occurrence |
| NoteSchema.NormalizeEach | src/schema/note.ts:167 | Each tag is mapped, in place, to its trimmed lower-cased form |
| NoteSchema.NormalizeTags | src/schema/note.ts:165-168 | The stored tags are distinct, no more than given, and are exactly the normalised forms of the given tags |
| NoteSchema.NormalizeTagsKeepFirstOccurrenceOrder | src/schema/note.ts:165-168 | The stored tags appear in the order in which their normalised forms first occur among the given tags |
| NoteSchema.NormalizedTagShape | src/schema/note.ts:167 | A stored tag has no white space at its ends and no upper-case ASCII letter |
| NoteSchema.ToJson | src/schema/note.ts:185-210 | id falls back to ''; important defaults to false; timestamp is createdAt, else updatedAt, else now |
| NotesService.FormatNote | src/services/notes.service.ts:213-222 | id is _id if non-empty, else id if non-empty, else ''; important is true only when stored true; other fields are copied |
| NotesService.FormatNoteStable | src/services/notes.service.ts:213-222 | A formatted note, read back, formats to itself |
| NotesService.FormatAgreesWithToJson | src/services/notes.service.ts:213-222 | For a note with an _id, the service's format and the schema's toJSON agree on every shared field |
| NotesService.Wrap | src/services/notes.service.ts:58 | Only an Error is passed on to DatabaseError, with its message |
| NotesService.StoreError | src/services/notes.service.ts:162-177 | A NotFoundError passes through where the catch allows; a store validation failure becomes a ValidationError with its field messages; anything else becomes a DatabaseError |
| NotesService.GetAllNotes | src/services/notes.service.ts:41-60 | At most 100 notes, each the formatted note at the same position; a failure is a DatabaseError |
| NotesService.GetNoteById | src/services/notes.service.ts:66-92 | Invalid ids raise InvalidIdError; a missing note is NotFoundError('Nota', id); store failures become DatabaseErrors |
| NotesService.CreateFields | src/services/notes.service.ts:102-106 | A missing or empty date becomes now, any other is parsed; important defaults to false |
| NotesService.CreateNote | src/services/notes.service.ts:98-125 | What the store answers to the fields written is formatted, or translated into a Validation or Database error |
| NotesService.UpdateFields | src/services/notes.service.ts:137-140 | An omitted important is written as false |
| NotesService.UpdateNote | src/services/notes.service.ts:131-178 | Invalid ids raise InvalidIdError; a missing note is NotFoundError('Nota', id); store failures are translated |
| NotesService.DeleteNote | src/services/notes.service.ts:184-207 | Succeeds iff the id is valid and the note was removed; otherwise InvalidId, NotFound or Database error |
| NotesService.InvalidIdIgnoresStore | src/services/notes.service.ts:66-69 | With an invalid id the store's answer cannot change the outcome, which is InvalidIdError |
| NotesService.MissingNoteNamesId | src/services/notes.service.ts:77-80 | A missing note is a 404 whose message is "Nota con ID '<id>' no encontrado" |
| NotesService.CreateValidationKeepsMessages | src/services/notes.service.ts:113-120 | A store validation failure on create is a 400 carrying the field messages |
| NotesService.ErrorsAreClassified | src/services/notes.service.ts:41-207 | Every service error is InvalidId, NotFound, Validation or Database |
| NotesService.OmittedImportantClearsFlag | src/services/notes.service.ts:137-149 | An update without important clears a set flag |
| TodoModel.Project | src/models/todo.model.ts:34-39 | The projection keeps id, description and completed |
| TodoModel.ProjectionForgetsExtraKeys | src/models/todo.model.ts:34-39 | Keys other than the three never reach the projection |
| TodoModel.ProjectionIsExact | src/models/todo.model.ts:35-39 | Two projections are equal iff the three keys are |
| TodoModel.GetAllTodos | src/models/todo.model.ts:20-27 | At most 100 records, a prefix of the answer, all of it when shorter; any failure is 'Error al obtener tareas' |
| TodoModel.GetTodoById | src/models/todo.model.ts:29-40 | A missing todo is 'Tarea no encontrada'; store failures propagate unchanged |
| TodoModel.CreateTodo | src/models/todo.model.ts:42-53 | An empty answer is 'Error al crear la tarea'; store failures propagate unchanged |
| TodoModel.UpdateTodo | src/models/todo.model.ts:55-73 | Anything but a found record becomes 'Error al actualizar tarea' |
| TodoModel.DeleteTodo | src/models/todo.model.ts:75-86 | Success returns the fixed message and the given id; anything else becomes 'Error al eliminar tarea' |
| TodoModel.MissingIndistinguishableFromFailure | src/models/todo.model.ts:55-86 | Update and delete answer a missing record and a failed call alike |
| TodoModel.UpdateTodoReportingMissing | src/models/todo.model.ts:55-73 | Corrected update: a missing record is 'Tarea no encontrada' |
| TodoModel.DeleteTodoReportingMissing | src/models/todo.model.ts:75-86 | Corrected delete: a missing record is 'Tarea no encontrada' |
| TodoModel.ReportingDiffersOnlyWhenMissing | src/models/todo.model.ts:55-86 | For update and for delete, the corrected variant's result differs from the original's if and only if the record is missing |
| TodosController.Wrapped | src/controllers/todos.controller.ts:32 | A DatabaseError with the method's message and no originalError, whatever was caught |
| TodosController.WrappedKeepingOriginal | src/controllers/todos.controller.ts:32 | Corrected wrapping: a caught Error's message is kept as originalError |
| TodosController.WrappingLosesOriginalMessage | src/controllers/todos.controller.ts:32 | The two wrappings differ exactly when an Error was caught |
| TodosController.Normalize | src/controllers/todos.controller.ts:27-33 | A message matching the not-found pattern becomes NotFoundError(message), anything else the method's DatabaseError |
| TodosController.BadIdSaysNothingMissing | src/controllers/todos.controller.ts:22-30 | The controller's own InvalidIdError message does not match the not-found pattern |
| TodosController.ModelNotFoundMatches | src/controllers/todos.controller.ts:29-30 | The model's 'Tarea no encontrada' matches the pattern |
| TodosController.ModelMaskedMessagesSayNothingMissing | src/controllers/todos.controller.ts:65-81 | The model's generic update and delete messages do not match the pattern |
| TodosController.GetAllTodos | src/controllers/todos.controller.ts:10-18 | Todos are returned unchanged; any failure is a DatabaseError |
| TodosController.GetTodoById | src/controllers/todos.controller.ts:20-34 | An invalid id ends as a DatabaseError; model errors are normalised; every error is one of four classes |
| TodosController.CreateTodo | src/controllers/todos.controller.ts:36-49 | A rejected payload is a details-free ValidationError; a ValidationError from the model is rethrown; anything else is a DatabaseError |
| TodosController.IssueMessages | src/controllers/todos.controller.ts:59 | The issues' messages, in order |
| TodosController.UpdateTodo | src/controllers/todos.controller.ts:51-70 | Invalid id is InvalidIdError; a rejected payload is ValidationError with the issues; Validation and InvalidId errors from the model are rethrown; others are normalised |
| TodosController.DeleteTodo | src/controllers/todos.controller.ts:72-85 | An invalid id ends as a DatabaseError; model errors are normalised; every error is one of four classes |
| TodosController.RejectedCreateSkipsModel | src/controllers/todos.controller.ts:38-45 | A rejected create payload never reaches the model and is a 400 without details |
| TodosController.InvalidIdOnUpdateSkipsEverything | src/controllers/todos.controller.ts:53-64 | An invalid id on update is INVALID_ID 400 whatever the payload or the model |
| TodosController.MissingTodoIsNotFoundOnGet | src/controllers/todos.controller.ts:26-30 | A missing todo on GET is a 404 whose message repeats the model's |
| TodosController.MissingTodoIsDatabaseErrorOnChange | src/controllers/todos.controller.ts:62-83 | Over the model as written, a missing todo on update or delete is a 500 DatabaseError |
| TodosController.MissingTodoIsNotFoundOnChangeWhenReported | src/controllers/todos.controller.ts:65-81 | Over the corrected model, a missing todo on update or delete is a 404 |
| TodosController.InvalidIdIsDatabaseErrorOnGetAndDelete | src/controllers/todos.controller.ts:20-34 | As written, an invalid id on GET or DELETE is a 500 DATABASE_ERROR |
| TodosController.GetTodoByIdKeepingInvalidId | src/controllers/todos.controller.ts:20-34 | Corrected GET: an invalid id is a 400; otherwise it behaves like the original |
| TodosController.DeleteTodoKeepingInvalidId | src/controllers/todos.controller.ts:72-85 | Corrected DELETE: an invalid id is a 400; otherwise it behaves like the original |
| TodosController.InvalidIdReportedAlike | src/controllers/todos.controller.ts:64 | With the rethrow, all three id-taking methods report an invalid id with the same error |
| NotesController.GetAllNotes | src/routes/notes.controller.ts:19-30 | The service's notes with their count, the fixed message and the time; a service error passes through unchanged |
| NotesController.CreateNote | src/routes/notes.controller.ts:46-56 | The created note with the fixed message and the time; a service error passes through unchanged |
| NotesController.UpdateNote | src/routes/notes.controller.ts:62-72 | The updated note with the fixed message and the note's own updatedAt; a service error passes through unchanged |
| NotesController.DeleteNote | src/routes/notes.controller.ts:78-88 | After a deletion, the fixed message, the id and the time; a service error passes through unchanged |
| NotesController.EnvelopesKeepServiceAnswer | src/routes/notes.controller.ts:19-72 | The service's answer, notes or error, can be read back unchanged from each envelope |
| NotesRoutes.SuccessStatus | src/routes/notes.routes.ts:24-129 | POST is 201, DELETE 204, GET, PATCH and PUT 200 |
| NotesRoutes.IdParamAccepted | src/routes/notes.routes.ts:37-43 | The :id parameter is accepted iff it is exactly 24 hex characters |
| NotesRoutes.ContentAccepted | src/routes/notes.routes.ts:56-60 | content is accepted iff a string of raw length 1..2000 |
| NotesRoutes.CreateBody | src/routes/notes.routes.ts:55-63 | Accepted iff content is valid and date (a string) and important (a boolean) are absent or well typed; the request fields are passed on as given |
| NotesRoutes.UpdateBody | src/routes/notes.routes.ts:82-89 | Accepted iff content is valid and important is absent or a boolean |
| NotesRoutes.ListNotes | src/routes/notes.routes.ts:24-27 | Status 200; the controller's listing holds the service's notes and their count, or the service's error |
| NotesRoutes.ShowNote | src/routes/notes.routes.ts:33-45 | Rejected iff the id is not 24 hex characters; else 200 with the controller's answer |
| NotesRoutes.CreateNote | src/routes/notes.routes.ts:51-64 | Rejected iff the body schema fails; else 201, and the envelope holds the note the service created from the parsed body, or the service's error |
| NotesRoutes.UpdateNote | src/routes/notes.routes.ts:70-116 | Rejected iff the id or body fails; else 200, and the envelope holds the note the service updated, or the service's error |
| NotesRoutes.DeleteNote | src/routes/notes.routes.ts:122-139 | 204 is set iff the deletion returned; the success body echoes the id; failures propagate |
| NotesRoutes.DeleteAnswersControllerEnvelope | src/routes/notes.routes.ts:122-129 | The body the route builds for DELETE equals the controller's envelope for the same id and time |
| NotesRoutes.PatchIsPut | src/routes/notes.routes.ts:70-116 | PATCH and PUT behave identically |
| NotesRoutes.RejectedRequestSkipsController | src/routes/notes.routes.ts:33-139 | A rejected request never reaches the controller |
| NotesRoutes.RouteIdPassesServiceCheck | src/routes/notes.routes.ts:37-43 | An id the route accepts always passes the service's check, so InvalidIdError is unreachable through the routes |
| NotesRoutes.BlankContentPassesRoute | src/routes/notes.routes.ts:56-60 | White-space content passes the route though isValidContent rejects it |
| NotesRoutes.ValidContentIsRouteContentWithText | src/routes/notes.routes.ts:56-60 | isValidContent accepts content iff the route's content schema accepts it and it is not white space only |

## Left out

- Mongoose, the database and the network. Each store call's answer is a parameter. Sort order, `select`, `lean`, indexes, virtuals (`contentLength`, `isRecent`) and the statics `findByImportance` and `findRecent` are not modelled.
- The schema options `trim: true`, `required` and `maxlength` of `src/schema/note.ts` belong to Mongoose's own casting and validation, which is not part of this model. Only the hand-written validators and middleware are modelled.
- Logging: `logger`, `AppError.log` and the post-save hook have no effect on results.
- The clock and ISO-8601 formatting: times are integer milliseconds or ready-made strings passed in. Date parsing (`new Date(text)`) is the parameter `parseDate`.
- Stack traces are opaque optional strings. `Error.captureStackTrace` is not modelled.
- String lengths count characters, not UTF-16 code units. Lower-casing covers ASCII letters only, not Unicode case folding.
- The notes controller's logging is not modelled; its envelopes are (`NotesController`). The routes take the note service's answer as a parameter. The todo routes, the test routes, the catch-all route and `startServer` are not part of this model.
- The wiring that would mount `notesRoutes` and install one of the three error hooks is not in the modelled files: `src/index.ts` installs its own `onError` and mounts only the test routes. Each hook is modelled on its own, and nothing states which one answers a rejected note request. `setupErrorHandler` would answer the framework's `VALIDATION` code with a 400 `VALIDATION_ERROR`, and the entry point's `onError` with a 400 'Validation Error'.
- CollapseSpace: its own contract states only the shape of the result, because a contract about the kept text makes every proof that mentions the function too costly. That every other character is kept in order is stated by `NoteSchema.CollapseSpaceKeepsText`, and that each maximal run becomes one blank by `NoteSchema.CollapseSpaceSplits`.
- `isValidDate` in `src/middleware/validators.ts` is not modelled: nothing in the modelled core calls it.
- A thrown value that is not an `Error` but has a `name` of 'ValidationError' is treated as a plain non-error. The service's `'name' in error` test would also accept it.
- TodosController.UpdateTodo: the issue tree of `parsed.error.format()` is flattened to the list of issue messages, in order. The parser's own default messages are short fixed strings.
- TodoSchema.ValidateCreateTodo: the messages of the parser's type errors are fixed placeholders, not the library's wording.
- NotesRoutes.CreateBody: whether the framework strips undeclared body keys depends on its configuration, so undeclared keys are ignored and not passed on.
- NotesRoutes.DeleteNote: the `deletedAt` time is a parameter. Whether a 204 body reaches the client is left to HTTP.

## Findings

| source | as written | input that shows it | evidently intended | confidence | as-written member | corrected member |
|---|---|---|---|---|---|---|
| src/models/todo.model.ts:55-86 | updateTodo and deleteTodo throw 'Tarea no encontrada' inside their own try; the catch replaces it with a generic message that the controller's not-found pattern does not match | PATCH or DELETE of a well-formed id with no stored todo gives a 500 DATABASE_ERROR | a 404 NotFoundError, as for GET | medium, not executed | TodosController.MissingTodoIsDatabaseErrorOnChange | TodosController.MissingTodoIsNotFoundOnChangeWhenReported |
| src/controllers/todos.controller.ts:20-34 | getTodoById and deleteTodo throw InvalidIdError inside the try, and their catch rewraps it, since its message does not match the not-found pattern | GET or DELETE of an id that isValidId rejects gives a 500 DATABASE_ERROR | a 400 INVALID_ID, as updateTodo gives by rethrowing | high, not executed | TodosController.InvalidIdIsDatabaseErrorOnGetAndDelete | TodosController.InvalidIdReportedAlike |
| src/controllers/todos.controller.ts:32 | the controller passes `error.message`, a string, as DatabaseError's originalError, and the constructor reads `.message` of it | the model throws `new Error('boom')`: the DatabaseError's details hold no originalError | the details keep 'boom' as originalError | medium, not executed | TodosController.WrappingLosesOriginalMessage | TodosController.WrappedKeepingOriginal |
