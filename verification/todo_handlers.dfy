/**
 * The route handlers of src/todo_handlers.rs, each a pure function of the
 * store, the backend's fault answers and the request's inputs.
 */
module TodoHandlers {
  import opened Wrappers
  import opened State
  import opened Decimal
  import opened Worker
  import opened Kv

  /** The PUT body: no id, the id comes from the path. */
  datatype TodoUpdate = TodoUpdate(name: string, description: string)

  /** A writing handler's outcome together with the store it leaves behind. */
  datatype Step = Step(outcome: Outcome, store: Store)

  const NotFoundMessage := "Todo not found"

  /** `Response::error("Todo not found", 404)`, shared by missing parameters and missing keys. */
  const NotFound := Respond(ErrorResponse(NotFoundMessage, 404))

  /** `Response::ok("")` re-statused to 204. */
  const NoContent := Respond(Response(204, Text("")))

  /** A 200 response carrying `payload`. */
  predicate AnswersWith(out: Outcome, payload: Body) {
    out.Respond? && out.response.status == 200 && out.response.body == payload
  }

  /** A 200 response, whatever its payload. */
  predicate Succeeded(out: Outcome) {
    out.Respond? && out.response.status == 200
  }

  /** GET `/`: a fixed banner, never touching the store. */
  function Index(): (out: Outcome)
    ensures AnswersWith(out, Text("Todo Api"))
  {
    Respond(OkText("Todo Api"))
  }

  /**
   * POST `/todo`: store the body under the decimal numeral of its id,
   * overwriting whatever was there, and echo it back.
   */
  function CreateTodo(store: Store, faults: Faults, body: Json<Todo>): (step: Step)
    ensures body.Malformed? ==> step == Step(Fail(MalformedBody), store)
    ensures body.Parsed? && PutKey(ToDecimal(body.value.id)) in faults ==>
              step == Step(Fail(KvFailure(faults[PutKey(ToDecimal(body.value.id))])), store)
    ensures body.Parsed? && PutKey(ToDecimal(body.value.id)) !in faults ==>
              && AnswersWith(step.outcome, TodoJson(body.value))
              && WritesOnly(store, step.store, ToDecimal(body.value.id), Valid(body.value))
  {
    match body
    case Malformed => Step(Fail(MalformedBody), store)
    case Parsed(todo) =>
      match Put(store, faults, ToDecimal(todo.id), Valid(todo))
      case Err(e) => Step(Fail(e), store)
      case Ok(store') => Step(Respond(FromJson(TodoJson(todo))), store')
  }

  /** GET `/todo/:id`: the stored Todo, 404 when absent, an error when undecodable. */
  function TodoById(store: Store, faults: Faults, id: Option<string>): (out: Outcome)
    ensures id.None? ==> out == NotFound
    ensures id.Some? && GetKey(id.value) in faults ==> out == Fail(KvFailure(faults[GetKey(id.value)]))
    ensures id.Some? && GetKey(id.value) !in faults ==>
              && (id.value !in store ==> out == NotFound)
              && (id.value in store && store[id.value].Corrupt? ==> out == Fail(UndecodableValue(id.value)))
              && (id.value in store && store[id.value].Valid? ==> AnswersWith(out, TodoJson(store[id.value].todo)))
  {
    match id
    case None => NotFound
    case Some(key) =>
      match Fetch(store, faults, key)
      case Err(e) => Fail(e)
      case Ok(None) => NotFound
      case Ok(Some(todo)) => Respond(FromJson(TodoJson(todo)))
  }

  /** The id, name and description an update at path `key` writes, when the path parses. */
  function Updated(key: string, body: TodoUpdate): (t: Option<Todo>)
    ensures t.Some? <==> ParseU8(key).Some?
    ensures t.Some? ==> t.value.id == ParseU8(key).value && t.value.name == body.name
                        && t.value.description == body.description
  {
    match ParseU8(key)
    case None => None
    case Some(n) => Some(Todo(n, body.name, body.description))
  }

  /**
   * PUT `/todo/:id`: decode the body, check the key exists, then replace the
   * Todo at the path key with the path's id and the body's fields.
   */
  function UpdateTodo(store: Store, faults: Faults, id: Option<string>, body: Json<TodoUpdate>): (step: Step)
    // Only a successful update writes, and it writes exactly the new Todo under the path key.
    ensures !Succeeded(step.outcome) ==> step.store == store
    ensures Succeeded(step.outcome) ==>
              && id.Some? && body.Parsed? && Readable(store, faults, id.value)
              && Updated(id.value, body.value).Some?
              && AnswersWith(step.outcome, TodoJson(Updated(id.value, body.value).value))
              && WritesOnly(store, step.store, id.value, Valid(Updated(id.value, body.value).value))
    ensures id.None? ==> step == Step(NotFound, store)
    // The body is decoded before the existence check.
    ensures id.Some? && body.Malformed? ==> step == Step(Fail(MalformedBody), store)
    ensures id.Some? && body.Parsed? && GetKey(id.value) !in faults && id.value !in store ==>
              step == Step(NotFound, store)
    ensures (id.Some? && body.Parsed? && GetKey(id.value) !in faults && id.value in store &&
             store[id.value].Corrupt?) ==> step == Step(Fail(UndecodableValue(id.value)), store)
    // Backend failures of the existence fetch and of the write propagate.
    ensures id.Some? && body.Parsed? && GetKey(id.value) in faults ==>
              step == Step(Fail(KvFailure(faults[GetKey(id.value)])), store)
    ensures (id.Some? && body.Parsed? && Readable(store, faults, id.value) &&
             ParseU8(id.value).Some? && PutKey(id.value) in faults) ==>
              step == Step(Fail(KvFailure(faults[PutKey(id.value)])), store)
    ensures step.outcome.Panic? <==>
              id.Some? && body.Parsed? && Readable(store, faults, id.value) && ParseU8(id.value).None?
    ensures Succeeded(step.outcome) <==>
              && id.Some? && body.Parsed? && Readable(store, faults, id.value)
              && ParseU8(id.value).Some? && PutKey(id.value) !in faults
  {
    match id
    case None => Step(NotFound, store)
    case Some(key) =>
      match body
      case Malformed => Step(Fail(MalformedBody), store)
      case Parsed(update) =>
        match Fetch(store, faults, key)
        case Err(e) => Step(Fail(e), store)
        case Ok(None) => Step(NotFound, store)
        case Ok(Some(_)) =>
          match Updated(key, update)
          case None => Step(Panic, store)
          case Some(todo) =>
            match Put(store, faults, key, Valid(todo))
            case Err(e) => Step(Fail(e), store)
            case Ok(store') => Step(Respond(FromJson(TodoJson(todo))), store')
  }

  /**
   * DELETE `/todo/:id`: remove the key whether or not it is bound; a backend
   * failure is answered with 404 and its message rather than propagated.
   */
  function DeleteTodo(store: Store, faults: Faults, id: Option<string>): (step: Step)
    ensures step.outcome.Respond?
    ensures id.None? ==> step == Step(NotFound, store)
    ensures id.Some? && DeleteKey(id.value) in faults ==>
              step == Step(Respond(ErrorResponse(faults[DeleteKey(id.value)], 404)), store)
    ensures id.Some? && DeleteKey(id.value) !in faults ==>
              step.outcome == NoContent && RemovesOnly(store, step.store, id.value)
  {
    match id
    case None => Step(NotFound, store)
    case Some(key) =>
      match Remove(store, faults, key)
      case Ok(store') => Step(NoContent, store')
      case Err(e) => Step(Respond(ErrorResponse(e.message, 404)), store)
  }

  /** The decodable Todos among the listed keys, in listing order. */
  function Collect(store: Store, faults: Faults, listing: seq<string>): (todos: seq<Todo>)
    ensures |todos| <= |listing|
    ensures forall j :: 0 <= j < |todos| ==> Valid(todos[j]) in store.Values
    decreases |listing|
  {
    if |listing| == 0 then []
    else
      var rest := Collect(store, faults, listing[1..]);
      match Fetch(store, faults, listing[0])
      case Ok(Some(t)) => [t] + rest
      case _ => rest
  }

  /**
   * The per-key results `filter_map(|todo| todo.ok())` keeps: every fetch that
   * did not fail, including the `None` of a listed key no longer bound.
   */
  function CollectAsWritten(store: Store, faults: Faults, listing: seq<string>): (entries: seq<Option<Todo>>)
    ensures |entries| <= |listing|
    ensures forall j :: 0 <= j < |entries| && entries[j].Some? ==> Valid(entries[j].value) in store.Values
    decreases |listing|
  {
    if |listing| == 0 then []
    else
      var rest := CollectAsWritten(store, faults, listing[1..]);
      match Fetch(store, faults, listing[0])
      case Ok(entry) => [entry] + rest
      case Err(_) => rest
  }

  /**
   * GET `/todo`, corrected: list the keys, fetch each, answer with the Todos
   * that decode. `listing` is the key list the backend returned, which under
   * eventual consistency need not match the store the fetches read.
   */
  function GetAllTodos(store: Store, faults: Faults, listing: seq<string>): (out: Outcome)
    ensures out.Fail? <==> ListKeys in faults
    ensures out.Fail? ==> out.error == KvFailure(faults[ListKeys])
    ensures out.Respond? ==> Succeeded(out) && out.response.body.TodoArrayJson?
    ensures out.Respond? ==> |out.response.body.todos| <= |listing|
    ensures out.Respond? ==> out.response.body.todos == Collect(store, faults, listing)
  {
    if ListKeys in faults then Fail(KvFailure(faults[ListKeys]))
    else Respond(FromJson(TodoArrayJson(Collect(store, faults, listing))))
  }

  /** GET `/todo` as written: the array keeps a `null` for every listed key found unbound. */
  function GetAllTodosAsWritten(store: Store, faults: Faults, listing: seq<string>): (out: Outcome)
    ensures out.Fail? <==> ListKeys in faults
    ensures out.Fail? ==> out.error == KvFailure(faults[ListKeys])
    ensures out.Respond? ==> Succeeded(out) && out.response.body.NullableTodoArrayJson?
    ensures out.Respond? ==> |out.response.body.entries| <= |listing|
    ensures out.Respond? ==> out.response.body.entries == CollectAsWritten(store, faults, listing)
  {
    if ListKeys in faults then Fail(KvFailure(faults[ListKeys]))
    else Respond(FromJson(NullableTodoArrayJson(CollectAsWritten(store, faults, listing))))
  }
}
