/**
 * `todoModel` of `src/models/todo.model.ts`: how each method turns the
 * store's answer into a result or a thrown `Error`, and the projection of a
 * stored todo onto `{id, description, completed}`. The store's answer for
 * each call is a parameter.
 */
module TodoModel {
  import opened Base
  import opened Envelope
  import opened Store

  const ListFailed := "Error al obtener tareas"
  const NotFound := "Tarea no encontrada"
  const CreateFailed := "Error al crear la tarea"
  const UpdateFailed := "Error al actualizar tarea"
  const DeleteFailed := "Error al eliminar tarea"
  const DeletedMessage := "Tarea eliminada exitosamente"

  /** The query's `.limit(100)`. */
  const PageSize := 100

  /** A stored todo as `toJSON()` renders it; every key beyond the three the model projects is in `extra`. */
  datatype TodoJson = TodoJson(id: string, description: string, completed: bool, extra: map<string, Json>)

  /** The projection the single-record methods return. */
  datatype TodoView = TodoView(id: string, description: string, completed: bool)

  /** What a successful delete returns. */
  datatype Deletion = Deletion(message: string, id: string)

  /** `new Error(message)`; the stack trace is not modelled. */
  function Raise(message: string): (t: Thrown)
    ensures t.IsError() && t.Name() == "Error" && t.Message() == message
  {
    Native("Error", message, None)
  }

  /** The `{id, description, completed}` object built from `toJSON()`. */
  function Project(t: TodoJson): (v: TodoView)
    ensures v.id == t.id && v.description == t.description && v.completed == t.completed
  {
    TodoView(t.id, t.description, t.completed)
  }

  /** Keys outside the three never reach the projection. */
  lemma ProjectionForgetsExtraKeys(t: TodoJson, extra: map<string, Json>)
    ensures Project(t.(extra := extra)) == Project(t)
  {
  }

  /** A projection is determined by the three keys, and each of them is kept. */
  lemma ProjectionIsExact(a: TodoJson, b: TodoJson)
    ensures Project(a) == Project(b) <==> a.id == b.id && a.description == b.description && a.completed == b.completed
  {
  }

  /** `getAllTodos`: at most 100 records in full, or 'Error al obtener tareas' whatever the failure. */
  function GetAllTodos(all: Query<seq<TodoJson>>): (r: Result<seq<TodoJson>, Thrown>)
    ensures all.Answered? ==> r.Ok? && |r.value| <= PageSize && |r.value| <= |all.value| && r.value == all.value[..|r.value|]
    ensures all.Answered? && |all.value| >= PageSize ==> |r.value| == PageSize
    ensures all.Answered? && |all.value| < PageSize ==> r.value == all.value
    ensures all.QueryFailed? ==> r == Err(Raise(ListFailed))
  {
    match all
    case Answered(todos) => Ok(if |todos| <= PageSize then todos else todos[..PageSize])
    case QueryFailed(_) => Err(Raise(ListFailed))
  }

  /** `getTodoById`: no `try`, so a store failure propagates as it was thrown. */
  function GetTodoById(found: Lookup<TodoJson>): (r: Result<TodoView, Thrown>)
    ensures found.Found? ==> r == Ok(Project(found.value))
    ensures found.Missing? ==> r == Err(Raise(NotFound))
    ensures found.Failed? ==> r == Err(found.failure.thrown)
  {
    match found
    case Found(t) => Ok(Project(t))
    case Missing => Err(Raise(NotFound))
    case Failed(f) => Err(f.thrown)
  }

  /** `createTodo`: no `try` either; an empty answer becomes 'Error al crear la tarea'. */
  function CreateTodo(created: Lookup<TodoJson>): (r: Result<TodoView, Thrown>)
    ensures created.Found? ==> r == Ok(Project(created.value))
    ensures created.Missing? ==> r == Err(Raise(CreateFailed))
    ensures created.Failed? ==> r == Err(created.failure.thrown)
  {
    match created
    case Found(t) => Ok(Project(t))
    case Missing => Err(Raise(CreateFailed))
    case Failed(f) => Err(f.thrown)
  }

  /**
   * `updateTodo`: its own 'Tarea no encontrada' is thrown inside the `try`
   * and replaced, like any store failure, by 'Error al actualizar tarea'.
   */
  function UpdateTodo(updated: Lookup<TodoJson>): (r: Result<TodoView, Thrown>)
    ensures updated.Found? ==> r == Ok(Project(updated.value))
    ensures !updated.Found? ==> r == Err(Raise(UpdateFailed))
  {
    match updated
    case Found(t) => Ok(Project(t))
    case _ => Err(Raise(UpdateFailed))
  }

  /** `deleteTodo`: the same masking, with 'Error al eliminar tarea'; success echoes the id. */
  function DeleteTodo(id: string, deleted: Lookup<TodoJson>): (r: Result<Deletion, Thrown>)
    ensures deleted.Found? ==> r == Ok(Deletion(DeletedMessage, id))
    ensures !deleted.Found? ==> r == Err(Raise(DeleteFailed))
  {
    match deleted
    case Found(_) => Ok(Deletion(DeletedMessage, id))
    case _ => Err(Raise(DeleteFailed))
  }

  /** Update and delete cannot tell a missing record from a failed call. */
  lemma MissingIndistinguishableFromFailure(id: string, f: Failure)
    ensures UpdateTodo(Missing) == UpdateTodo(Failed(f))
    ensures DeleteTodo(id, Missing) == DeleteTodo(id, Failed(f))
  {
  }

  // ----- With the not-found message kept -----------------------------------------

  /** `updateTodo` letting its own 'Tarea no encontrada' out of the `catch`. */
  function UpdateTodoReportingMissing(updated: Lookup<TodoJson>): (r: Result<TodoView, Thrown>)
    ensures updated.Found? ==> r == Ok(Project(updated.value))
    ensures updated.Missing? ==> r == Err(Raise(NotFound))
    ensures updated.Failed? ==> r == Err(Raise(UpdateFailed))
  {
    match updated
    case Found(t) => Ok(Project(t))
    case Missing => Err(Raise(NotFound))
    case Failed(_) => Err(Raise(UpdateFailed))
  }

  /** `deleteTodo` letting its own 'Tarea no encontrada' out of the `catch`. */
  function DeleteTodoReportingMissing(id: string, deleted: Lookup<TodoJson>): (r: Result<Deletion, Thrown>)
    ensures deleted.Found? ==> r == Ok(Deletion(DeletedMessage, id))
    ensures deleted.Missing? ==> r == Err(Raise(NotFound))
    ensures deleted.Failed? ==> r == Err(Raise(DeleteFailed))
  {
    match deleted
    case Found(_) => Ok(Deletion(DeletedMessage, id))
    case Missing => Err(Raise(NotFound))
    case Failed(_) => Err(Raise(DeleteFailed))
  }

  /** The reporting variants differ from the originals only on a missing record. */
  lemma ReportingDiffersOnlyWhenMissing(id: string, answer: Lookup<TodoJson>)
    ensures answer.Missing? <==> UpdateTodoReportingMissing(answer) != UpdateTodo(answer)
    ensures answer.Missing? <==> DeleteTodoReportingMissing(id, answer) != DeleteTodo(id, answer)
  {
  }
}
