/**
 * The request schemas of `src/helpers/todo.ts` and their `safeParse`
 * wrappers. The description schema checks the RAW string's length first and
 * trims it afterwards, so the length bounds say nothing about the trimmed
 * value. Object schemas keep only the keys they declare.
 *
 * The parser's own messages for a missing key or a wrong type are
 * represented by short fixed strings; the messages the schemas define are
 * reproduced exactly.
 */
module TodoSchema {
  import opened Base
  import opened Text

  const DescriptionRequired := "La descripción es obligatoria"
  const DescriptionTooLong := "La descripción no puede exceder 2000 caracteres"
  const NothingToUpdate := "Debes proporcionar al menos un campo para actualizar"
  const IdRequired := "El ID es obligatorio"
  const MissingKey := "Required"
  const ExpectedString := "Expected string"
  const ExpectedBoolean := "Expected boolean"
  const ExpectedObject := "Expected object"

  const MaxDescription := 2000

  /** A parser complaint, with the key it is about (`""` for the whole object). */
  datatype Issue = Issue(path: string, message: string)

  datatype CreateTodo = CreateTodo(description: string, completed: bool)
  datatype UpdateTodo = UpdateTodo(description: Option<string>, completed: Option<bool>)
  datatype TodoId = TodoId(id: string)

  /** The raw value passes `z.string().min(1).max(2000)`. */
  predicate DescriptionAccepted(v: Json) {
    v.JString? && 1 <= |v.s| <= MaxDescription
  }

  /** `baseDescriptionSchema` on a present value: both length checks on the raw string, then `.trim()`. */
  function ParseDescription(v: Json): (r: Result<string, seq<string>>)
    ensures r.Ok? <==> DescriptionAccepted(v)
    ensures r.Ok? ==> r.value == Trim(v.s) && |r.value| <= MaxDescription
    ensures r.Err? ==> r.error != []
  {
    match v
    case JString(s) =>
      var issues := (if |s| < 1 then [DescriptionRequired] else [])
                  + (if |s| > MaxDescription then [DescriptionTooLong] else []);
      if issues == [] then Ok(Trim(s)) else Err(issues)
    case _ => Err([ExpectedString])
  }

  /** An optional key: absent is `None`; present, it must pass `parse`. */
  function Optional<T>(f: map<string, Json>, key: string, parse: Json -> Result<T, seq<string>>): Result<Option<T>, seq<string>> {
    if key !in f then Ok(None)
    else match parse(f[key])
      case Ok(v) => Ok(Some(v))
      case Err(e) => Err(e)
  }

  /** `z.boolean()`. */
  function ParseBoolean(v: Json): Result<bool, seq<string>> {
    match v
    case JBool(b) => Ok(b)
    case _ => Err([ExpectedBoolean])
  }

  /** The complaints of a failed key, tagged with the key. */
  function IssuesAt<T>(path: string, r: Result<T, seq<string>>): (issues: seq<Issue>)
    ensures |issues| == (if r.Err? then |r.error| else 0)
  {
    if r.Ok? then [] else seq(|r.error|, i requires 0 <= i < |r.error| => Issue(path, r.error[i]))
  }

  predicate CompletedAccepted(f: map<string, Json>) {
    "completed" !in f || f["completed"].JBool?
  }

  /** `validateCreateTodo(data)`: `CreateTodoSchema.safeParse(data)`. */
  function ValidateCreateTodo(data: Payload): (r: Result<CreateTodo, seq<Issue>>)
    ensures r.Ok? <==>
      && data.Object?
      && "description" in data.fields && DescriptionAccepted(data.fields["description"])
      && CompletedAccepted(data.fields)
    ensures r.Ok? ==> r.value.description == Trim(data.fields["description"].s)
    // an absent `completed` defaults to false
    ensures r.Ok? ==> r.value.completed == ("completed" in data.fields && data.fields["completed"].b)
    ensures r.Err? ==> r.error != []
  {
    match data
    case NotAnObject => Err([Issue("", ExpectedObject)])
    case Object(f) =>
      var description := if "description" in f then ParseDescription(f["description"]) else Err([MissingKey]);
      var completed := Optional(f, "completed", ParseBoolean);
      if description.Ok? && completed.Ok? then
        Ok(CreateTodo(description.value, completed.value.GetOr(false)))
      else
        Err(IssuesAt("description", description) + IssuesAt("completed", completed))
  }

  /** `validateUpdateTodo(data)`: `UpdateTodoSchema.safeParse(data)`, whose refinement wants one of the keys. */
  function ValidateUpdateTodo(data: Payload): (r: Result<UpdateTodo, seq<Issue>>)
    ensures r.Ok? <==>
      && data.Object?
      && ("description" in data.fields || "completed" in data.fields)
      && ("description" in data.fields ==> DescriptionAccepted(data.fields["description"]))
      && CompletedAccepted(data.fields)
    // nothing is defaulted: an absent key stays absent
    ensures r.Ok? ==> (r.value.description.Some? <==> "description" in data.fields)
    ensures r.Ok? ==> (r.value.completed.Some? <==> "completed" in data.fields)
    ensures r.Ok? && r.value.description.Some? ==> r.value.description.value == Trim(data.fields["description"].s)
    ensures r.Ok? && r.value.completed.Some? ==> r.value.completed.value == data.fields["completed"].b
    ensures r.Err? ==> r.error != []
  {
    match data
    case NotAnObject => Err([Issue("", ExpectedObject)])
    case Object(f) =>
      var description := Optional(f, "description", ParseDescription);
      var completed := Optional(f, "completed", ParseBoolean);
      if description.Ok? && completed.Ok? then
        if description.value.None? && completed.value.None? then Err([Issue("", NothingToUpdate)])
        else Ok(UpdateTodo(description.value, completed.value))
      else
        Err(IssuesAt("description", description) + IssuesAt("completed", completed))
  }

  /** `validateTodoId(data)`: any non-empty string id; no hexadecimal or length check. */
  function ValidateTodoId(data: Payload): (r: Result<TodoId, seq<Issue>>)
    ensures r.Ok? <==> data.Object? && "id" in data.fields && data.fields["id"].JString? && |data.fields["id"].s| >= 1
    ensures r.Ok? ==> r.value.id == data.fields["id"].s
    ensures r.Err? ==> r.error != []
  {
    match data
    case NotAnObject => Err([Issue("", ExpectedObject)])
    case Object(f) =>
      if "id" !in f then Err([Issue("id", MissingKey)])
      else match f["id"]
        case JString(s) => if |s| >= 1 then Ok(TodoId(s)) else Err([Issue("id", IdRequired)])
        case _ => Err([Issue("id", ExpectedString)])
  }

  /** The length bounds are checked before trimming: a blank description passes and comes out empty. */
  lemma BlankDescriptionAccepted(blank: string)
    requires 1 <= |blank| <= MaxDescription && AllSpace(blank)
    ensures ValidateCreateTodo(Object(map["description" := JString(blank)])) == Ok(CreateTodo("", false))
  {
  }

  /** Keys the schemas do not declare change nothing, neither the result nor the complaints. */
  lemma UndeclaredKeysIgnored(f: map<string, Json>, key: string, v: Json)
    requires key != "description" && key != "completed"
    ensures ValidateCreateTodo(Object(f[key := v])) == ValidateCreateTodo(Object(f))
    ensures ValidateUpdateTodo(Object(f[key := v])) == ValidateUpdateTodo(Object(f))
  {
    var g := f[key := v];
    assert ("description" in g) == ("description" in f);
    assert ("completed" in g) == ("completed" in f);
    assert "description" in f ==> g["description"] == f["description"];
    assert "completed" in f ==> g["completed"] == f["completed"];
  }

  /** The id schema accepts ids that are no ObjectId at all. */
  lemma AnyNonEmptyIdAccepted(id: string)
    requires id != []
    ensures ValidateTodoId(Object(map["id" := JString(id)])) == Ok(TodoId(id))
  {
  }
}
