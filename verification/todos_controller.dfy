/**
 * `todoController` of `src/controllers/todos.controller.ts`: the id check,
 * the schema check and the classification of whatever the model throws.
 * The model is a parameter — a function from what the controller hands it
 * to what it returns or throws — and so is `isValidId`, which the controller
 * imports from a module that does not define it.
 *
 * `/no encontrada|not found/i` is the case-insensitive search for either
 * literal. The controller passes `error.message` (a string) as a
 * DatabaseError's second argument, so the error's `originalError` is always
 * absent.
 */
module TodosController {
  import opened Base
  import opened Text
  import opened Errors
  import opened Envelope
  import TodoSchema
  import TodoModel
  import opened Store

  const InvalidIdArgument := "ID inválido"
  const InvalidDataMessage := "Datos inválidos"
  const ListFailed := "Ocurrió un error al obtener las tareas"
  const GetFailed := "Ocurrió un error al obtener la tarea"
  const CreateFailed := "Ocurrió un error al crear la tarea"
  const UpdateFailed := "Ocurrió un error al actualizar la tarea"
  const DeleteFailed := "Ocurrió un error al eliminar la tarea"

  const SpanishNeedle := "no encontrada"
  const EnglishNeedle := "not found"

  /** `/no encontrada|not found/i.test(message)`. */
  predicate MessageSaysNotFound(m: string) {
    ContainsIgnoringCase(m, SpanishNeedle) || ContainsIgnoringCase(m, EnglishNeedle)
  }

  /** `error instanceof Error && /no encontrada|not found/i.test(error.message)`. */
  predicate SaysNotFound(t: Thrown) {
    t.IsError() && MessageSaysNotFound(t.Message())
  }

  /** `new DatabaseError(message, error instanceof Error ? error.message : String(error))`. */
  function Wrapped(t: Thrown, message: string): (e: AppError)
    ensures e.DatabaseError? && e.message == message && e.StatusCode() == 500
    // a string has no `message` property: nothing of the caught value survives
    ensures e.Details() == Some(OriginalError(None))
  {
    NewDatabaseError(message, StringValue(t.Description()))
  }

  /** `new DatabaseError(message, error)` with the caught value itself, as DatabaseError's signature expects. */
  function WrappedKeepingOriginal(t: Thrown, message: string): (e: AppError)
    ensures e.DatabaseError? && e.message == message && e.StatusCode() == 500
    ensures t.IsError() ==> e.Details() == Some(OriginalError(Some(t.Message())))
    ensures !t.IsError() ==> e.Details() == Some(OriginalError(None))
  {
    NewDatabaseError(message, if t.IsError() then ErrorValue(t.Message()) else NoValue)
  }

  /** Passing the message instead of the error loses exactly the `originalError` of a caught `Error`. */
  lemma WrappingLosesOriginalMessage(t: Thrown, message: string)
    ensures Wrapped(t, message).message == WrappedKeepingOriginal(t, message).message
    ensures Wrapped(t, message).Details() == WrappedKeepingOriginal(t, message).Details() <==> !t.IsError()
  {
  }

  /** The tail of the `catch` blocks of getTodoById, updateTodo and deleteTodo. */
  function Normalize(t: Thrown, message: string): (e: AppError)
    ensures SaysNotFound(t) ==> e.NotFoundError? && e.StatusCode() == 404 && e.message == t.Message() + NotFoundSuffix
    ensures !SaysNotFound(t) ==> e == Wrapped(t, message)
  {
    if SaysNotFound(t) then NewNotFoundError(t.Message(), None) else Wrapped(t, message)
  }

  /** The InvalidIdError the id check throws; its argument is the text 'ID inválido', not the id. */
  function BadId(): AppError {
    NewInvalidIdError(InvalidIdArgument)
  }

  /**
   * A message lacking, in both cases, a letter of each literal matches
   * neither of them.
   */
  lemma LacksLetters(m: string, c: char, d: char)
    requires 'a' <= c <= 'z' && c in SpanishNeedle && c !in m && (c as int - 32) as char !in m
    requires 'a' <= d <= 'z' && d in EnglishNeedle && d !in m && (d as int - 32) as char !in m
    ensures !MessageSaysNotFound(m)
  {
    MissingLetter(m, SpanishNeedle, c);
    MissingLetter(m, EnglishNeedle, d);
  }

  /** Three pieces lacking 'a' and 'f' in both cases make a message that matches neither literal. */
  lemma JoinedLacksAF(p: string, id: string, q: string)
    requires 'a' !in p && 'A' !in p && 'f' !in p && 'F' !in p
    requires 'a' !in id && 'A' !in id && 'f' !in id && 'F' !in id
    requires 'a' !in q && 'A' !in q && 'f' !in q && 'F' !in q
    ensures !MessageSaysNotFound(p + id + q)
  {
    LacksLetters(p + id + q, 'a', 'f');
  }

  /** An InvalidIdError quoting an id without 'a' or 'f' in either case matches neither literal. */
  lemma InvalidIdSaysNothingMissing(id: string)
    requires 'a' !in id && 'A' !in id && 'f' !in id && 'F' !in id
    ensures !SaysNotFound(App(NewInvalidIdError(id), None))
  {
    PrefixLacksAF();
    SuffixLacksA();
    SuffixLacksUpperA();
    SuffixLacksF();
    SuffixLacksUpperF();
    JoinedLacksAF(InvalidIdPrefix, id, InvalidIdSuffix);
  }

  /** The message of the id check's error matches neither literal. */
  lemma BadIdSaysNothingMissing()
    ensures !SaysNotFound(App(BadId(), None))
  {
    ArgumentLacksAF();
    InvalidIdSaysNothingMissing(InvalidIdArgument);
  }

  /** The model's 'Tarea no encontrada' matches the Spanish literal. */
  lemma ModelNotFoundMatches()
    ensures SaysNotFound(TodoModel.Raise(TodoModel.NotFound))
  {
    var m := TodoModel.NotFound;
    assert m[6..6 + |SpanishNeedle|] == SpanishNeedle;
    OccurrenceFound(m, SpanishNeedle, 6);
  }

  /** The generic messages the model substitutes for a missing record match neither literal. */
  lemma ModelMaskedMessagesSayNothingMissing()
    ensures !SaysNotFound(TodoModel.Raise(TodoModel.UpdateFailed))
    ensures !SaysNotFound(TodoModel.Raise(TodoModel.DeleteFailed))
  {
    UpdateFailedLacksN();
    LacksLetters(TodoModel.UpdateFailed, 'n', 'n');
    DeleteFailedLacksC();
    DeleteFailedLacksF();
    LacksLetters(TodoModel.DeleteFailed, 'c', 'f');
  }

  // ----- The controller methods -----------------------------------------------------

  /** The error classes a controller call can end in. */
  predicate ControllerError(e: AppError) {
    e.InvalidIdError? || e.ValidationError? || e.NotFoundError? || e.DatabaseError?
  }

  /** `getAllTodos`: any failure becomes a DatabaseError. */
  function GetAllTodos(model: Result<seq<TodoModel.TodoJson>, Thrown>): (r: Result<seq<TodoModel.TodoJson>, AppError>)
    ensures model.Ok? ==> r == Ok(model.value)
    ensures model.Err? ==> r == Err(Wrapped(model.error, ListFailed))
    ensures r.Err? ==> r.error.DatabaseError?
  {
    match model
    case Ok(todos) => Ok(todos)
    case Err(t) => Err(Wrapped(t, ListFailed))
  }

  /** `getTodoById`: the InvalidIdError of the id check is thrown inside the `try` and caught again. */
  function GetTodoById(isValidId: string -> bool, id: string, model: string -> Result<TodoModel.TodoView, Thrown>): (r: Result<TodoModel.TodoView, AppError>)
    ensures !isValidId(id) ==> r == Err(Wrapped(App(BadId(), None), GetFailed))
    ensures isValidId(id) && model(id).Ok? ==> r == Ok(model(id).value)
    ensures isValidId(id) && model(id).Err? ==> r == Err(Normalize(model(id).error, GetFailed))
    ensures r.Err? ==> ControllerError(r.error)
  {
    BadIdSaysNothingMissing();
    var outcome := if isValidId(id) then model(id) else Err(App(BadId(), None));
    match outcome
    case Ok(v) => Ok(v)
    case Err(t) => Err(Normalize(t, GetFailed))
  }

  /** `createTodo`: a rejected payload throws a ValidationError without details, which the `catch` rethrows. */
  function CreateTodo(data: Payload, model: TodoSchema.CreateTodo -> Result<TodoModel.TodoView, Thrown>): (r: Result<TodoModel.TodoView, AppError>)
    ensures TodoSchema.ValidateCreateTodo(data).Err? ==> r == Err(NewValidationError(InvalidDataMessage, None))
    ensures TodoSchema.ValidateCreateTodo(data).Ok? ==>
      var answer := model(TodoSchema.ValidateCreateTodo(data).value);
      && (answer.Ok? ==> r == Ok(answer.value))
      && (answer.Err? && answer.error.App? && answer.error.err.ValidationError? ==> r == Err(answer.error.err))
      && (answer.Err? && !(answer.error.App? && answer.error.err.ValidationError?) ==> r == Err(Wrapped(answer.error, CreateFailed)))
    ensures r.Err? ==> ControllerError(r.error)
  {
    match TodoSchema.ValidateCreateTodo(data)
    case Err(_) => Err(NewValidationError(InvalidDataMessage, None))
    case Ok(todo) =>
      match model(todo)
      case Ok(v) => Ok(v)
      case Err(t) => if t.App? && t.err.ValidationError? then Err(t.err) else Err(Wrapped(t, CreateFailed))
  }

  /** The parser's complaints as the details of the ValidationError: their messages, in order. */
  function IssueMessages(issues: seq<TodoSchema.Issue>): (m: seq<string>)
    ensures |m| == |issues| && forall i :: 0 <= i < |issues| ==> m[i] == issues[i].message
  {
    seq(|issues|, i requires 0 <= i < |issues| => issues[i].message)
  }

  /** `updateTodo`: unlike getTodoById, its `catch` rethrows the InvalidIdError unchanged. */
  function UpdateTodo(isValidId: string -> bool, id: string, data: Payload,
                      model: (string, TodoSchema.UpdateTodo) -> Result<TodoModel.TodoView, Thrown>): (r: Result<TodoModel.TodoView, AppError>)
    ensures !isValidId(id) ==> r == Err(BadId())
    ensures isValidId(id) && TodoSchema.ValidateUpdateTodo(data).Err? ==>
      r == Err(NewValidationError(InvalidDataMessage, Some(Issues(IssueMessages(TodoSchema.ValidateUpdateTodo(data).error)))))
    ensures isValidId(id) && TodoSchema.ValidateUpdateTodo(data).Ok? ==>
      var answer := model(id, TodoSchema.ValidateUpdateTodo(data).value);
      && (answer.Ok? ==> r == Ok(answer.value))
      && (answer.Err? && answer.error.App? && (answer.error.err.ValidationError? || answer.error.err.InvalidIdError?) ==> r == Err(answer.error.err))
      && (answer.Err? && !(answer.error.App? && (answer.error.err.ValidationError? || answer.error.err.InvalidIdError?)) ==>
            r == Err(Normalize(answer.error, UpdateFailed)))
    ensures r.Err? ==> ControllerError(r.error)
  {
    if !isValidId(id) then Err(BadId())
    else match TodoSchema.ValidateUpdateTodo(data)
      case Err(issues) => Err(NewValidationError(InvalidDataMessage, Some(Issues(IssueMessages(issues)))))
      case Ok(changes) =>
        match model(id, changes)
        case Ok(v) => Ok(v)
        case Err(t) =>
          if t.App? && (t.err.ValidationError? || t.err.InvalidIdError?) then Err(t.err)
          else Err(Normalize(t, UpdateFailed))
  }

  /** `deleteTodo`: the id check's InvalidIdError is caught and rewrapped, as in getTodoById. */
  function DeleteTodo(isValidId: string -> bool, id: string, model: string -> Result<TodoModel.Deletion, Thrown>): (r: Result<TodoModel.Deletion, AppError>)
    ensures !isValidId(id) ==> r == Err(Wrapped(App(BadId(), None), DeleteFailed))
    ensures isValidId(id) && model(id).Ok? ==> r == Ok(model(id).value)
    ensures isValidId(id) && model(id).Err? ==> r == Err(Normalize(model(id).error, DeleteFailed))
    ensures r.Err? ==> ControllerError(r.error)
  {
    BadIdSaysNothingMissing();
    var outcome := if isValidId(id) then model(id) else Err(App(BadId(), None));
    match outcome
    case Ok(v) => Ok(v)
    case Err(t) => Err(Normalize(t, DeleteFailed))
  }

  // ----- Properties -----------------------------------------------------------------

  /** A rejected create payload never reaches the model. */
  lemma RejectedCreateSkipsModel(data: Payload, m1: TodoSchema.CreateTodo -> Result<TodoModel.TodoView, Thrown>,
                                 m2: TodoSchema.CreateTodo -> Result<TodoModel.TodoView, Thrown>)
    requires TodoSchema.ValidateCreateTodo(data).Err?
    ensures CreateTodo(data, m1) == CreateTodo(data, m2)
    ensures CreateTodo(data, m1).error.StatusCode() == 400 && CreateTodo(data, m1).error.Details().None?
  {
  }

  /** An invalid id on update is reported as such, before the payload or the model is looked at. */
  lemma InvalidIdOnUpdateSkipsEverything(isValidId: string -> bool, id: string, d1: Payload, d2: Payload,
                                         m1: (string, TodoSchema.UpdateTodo) -> Result<TodoModel.TodoView, Thrown>,
                                         m2: (string, TodoSchema.UpdateTodo) -> Result<TodoModel.TodoView, Thrown>)
    requires !isValidId(id)
    ensures UpdateTodo(isValidId, id, d1, m1) == UpdateTodo(isValidId, id, d2, m2)
    ensures UpdateTodo(isValidId, id, d1, m1).error.StatusCode() == 400
    ensures UpdateTodo(isValidId, id, d1, m1).error.Code() == "INVALID_ID"
  {
  }

  /** Over the todo model: a missing record on GET is a 404 whose message repeats the model's. */
  lemma MissingTodoIsNotFoundOnGet(isValidId: string -> bool, id: string)
    requires isValidId(id)
    ensures var r := GetTodoById(isValidId, id, i => TodoModel.GetTodoById(Missing));
      r.Err? && r.error.StatusCode() == 404 && r.error.message == TodoModel.NotFound + NotFoundSuffix
  {
    ModelNotFoundMatches();
  }

  /** Over the todo model as written: a missing record on update or delete ends in a 500. */
  lemma MissingTodoIsDatabaseErrorOnChange(isValidId: string -> bool, id: string, data: Payload)
    requires isValidId(id) && TodoSchema.ValidateUpdateTodo(data).Ok?
    ensures var r := UpdateTodo(isValidId, id, data, (i, u) => TodoModel.UpdateTodo(Missing));
      r.Err? && r.error.DatabaseError? && r.error.StatusCode() == 500
    ensures var r := DeleteTodo(isValidId, id, i => TodoModel.DeleteTodo(i, Missing));
      r.Err? && r.error.DatabaseError? && r.error.StatusCode() == 500
  {
    ModelMaskedMessagesSayNothingMissing();
  }

  /** Over the model variants that keep the not-found message: update and delete report a 404. */
  lemma MissingTodoIsNotFoundOnChangeWhenReported(isValidId: string -> bool, id: string, data: Payload)
    requires isValidId(id) && TodoSchema.ValidateUpdateTodo(data).Ok?
    ensures var r := UpdateTodo(isValidId, id, data, (i, u) => TodoModel.UpdateTodoReportingMissing(Missing));
      r.Err? && r.error.NotFoundError? && r.error.StatusCode() == 404
    ensures var r := DeleteTodo(isValidId, id, i => TodoModel.DeleteTodoReportingMissing(i, Missing));
      r.Err? && r.error.NotFoundError? && r.error.StatusCode() == 404
  {
    ModelNotFoundMatches();
  }

  /** As written, an invalid id on GET or DELETE is a 500 DatabaseError, not a 400. */
  lemma InvalidIdIsDatabaseErrorOnGetAndDelete(isValidId: string -> bool, id: string,
                                               get: string -> Result<TodoModel.TodoView, Thrown>,
                                               delete: string -> Result<TodoModel.Deletion, Thrown>)
    requires !isValidId(id)
    ensures GetTodoById(isValidId, id, get).error.StatusCode() == 500
    ensures GetTodoById(isValidId, id, get).error.Code() == "DATABASE_ERROR"
    ensures DeleteTodo(isValidId, id, delete).error.StatusCode() == 500
    ensures DeleteTodo(isValidId, id, delete).error.Code() == "DATABASE_ERROR"
  {
  }

  // ----- With the InvalidIdError rethrown, as updateTodo does -----------------------

  /** `getTodoById` whose `catch` rethrows an InvalidIdError unchanged. */
  function GetTodoByIdKeepingInvalidId(isValidId: string -> bool, id: string, model: string -> Result<TodoModel.TodoView, Thrown>): (r: Result<TodoModel.TodoView, AppError>)
    ensures !isValidId(id) ==> r == Err(BadId()) && r.error.StatusCode() == 400
    ensures isValidId(id) ==> r == GetTodoById(isValidId, id, model)
  {
    if !isValidId(id) then Err(BadId())
    else match model(id)
      case Ok(v) => Ok(v)
      case Err(t) => Err(Normalize(t, GetFailed))
  }

  /** `deleteTodo` whose `catch` rethrows an InvalidIdError unchanged. */
  function DeleteTodoKeepingInvalidId(isValidId: string -> bool, id: string, model: string -> Result<TodoModel.Deletion, Thrown>): (r: Result<TodoModel.Deletion, AppError>)
    ensures !isValidId(id) ==> r == Err(BadId()) && r.error.StatusCode() == 400
    ensures isValidId(id) ==> r == DeleteTodo(isValidId, id, model)
  {
    if !isValidId(id) then Err(BadId())
    else match model(id)
      case Ok(v) => Ok(v)
      case Err(t) => Err(Normalize(t, DeleteFailed))
  }

  /** With the rethrow, all three id-taking methods report an invalid id alike. */
  lemma InvalidIdReportedAlike(isValidId: string -> bool, id: string, data: Payload,
                               get: string -> Result<TodoModel.TodoView, Thrown>,
                               update: (string, TodoSchema.UpdateTodo) -> Result<TodoModel.TodoView, Thrown>,
                               delete: string -> Result<TodoModel.Deletion, Thrown>)
    requires !isValidId(id)
    ensures GetTodoByIdKeepingInvalidId(isValidId, id, get).error == UpdateTodo(isValidId, id, data, update).error
    ensures DeleteTodoKeepingInvalidId(isValidId, id, delete).error == UpdateTodo(isValidId, id, data, update).error
  {
  }

  // ----- Letter facts about the fixed messages --------------------------------------
  // Each fact is checked on its own: checking several characters of a long
  // literal in one proof is costly for the solver.

  lemma PrefixLacksAF()
    ensures 'a' !in InvalidIdPrefix && 'A' !in InvalidIdPrefix && 'f' !in InvalidIdPrefix && 'F' !in InvalidIdPrefix
  {
  }

  lemma ArgumentLacksAF()
    ensures 'a' !in InvalidIdArgument && 'A' !in InvalidIdArgument && 'f' !in InvalidIdArgument && 'F' !in InvalidIdArgument
  {
  }

  lemma SuffixLacksA()
    ensures 'a' !in InvalidIdSuffix
  {
  }

  lemma SuffixLacksUpperA()
    ensures 'A' !in InvalidIdSuffix
  {
  }

  lemma SuffixLacksF()
    ensures 'f' !in InvalidIdSuffix
  {
  }

  lemma SuffixLacksUpperF()
    ensures 'F' !in InvalidIdSuffix
  {
  }

  lemma UpdateFailedLacksN()
    ensures 'n' !in TodoModel.UpdateFailed && 'N' !in TodoModel.UpdateFailed
  {
  }

  lemma DeleteFailedLacksC()
    ensures 'c' !in TodoModel.DeleteFailed && 'C' !in TodoModel.DeleteFailed
  {
  }

  lemma DeleteFailedLacksF()
    ensures 'f' !in TodoModel.DeleteFailed && 'F' !in TodoModel.DeleteFailed
  {
  }
}
