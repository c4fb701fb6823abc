/** The HTTP-facing layer in front of the store: validation of the create request, and
    the mapping of the store's answers to a status code and a JSON body. Responses are
    returned as values instead of being written to an Express response object. */
module TodoController {
  import opened Wrappers
  import opened Todos
  import opened JsString
  import opened TodoService
  import Decimal

  /** One field of the parsed request body. `Other` is any non-string JSON value (number,
      boolean, null, object, array), with its JavaScript truthiness. */
  datatype JsonValue = Missing | Str(s: string) | Other(truthy: bool)

  /** JavaScript truthiness, the `!v` part of the create guard. It never rejects an
      acceptable field on its own; a missing field and the empty string are falsy. */
  function Truthy(v: JsonValue): (r: bool)
    ensures Acceptable(v) ==> r
    ensures v.Missing? ==> !r
    ensures v == Str("") ==> !r
  {
    match v
    case Missing => false
    case Str(s) => s != ""
    case Other(t) => t
  }

  /** What the create handler accepts for a field: a string with some character that is
      not white space. */
  predicate Acceptable(v: JsonValue) {
    v.Str? && !AllWhitespace(v.s)
  }

  /** The guard `!v || typeof v !== 'string' || v.trim().length === 0`; it rejects exactly
      the fields that are not acceptable. */
  function Rejects(v: JsonValue): (r: bool)
    ensures r <==> !Acceptable(v)
  {
    !Truthy(v) || !v.Str? || |Trim(v.s)| == 0
  }

  const TitleError := "Title is required and must be a non-empty string"
  const DescriptionError := "Description is required and must be a non-empty string"

  /** The trimmed strings handed to the store. */
  datatype CreateRequest = CreateRequest(title: string, description: string)

  /** The title is checked first, then the description; on success both are trimmed. */
  function ValidateCreate(title: JsonValue, description: JsonValue): (r: Result<CreateRequest, string>)
    ensures r.Success? <==> Acceptable(title) && Acceptable(description)
    ensures !Acceptable(title) ==> r == Failure(TitleError)
    ensures Acceptable(title) && !Acceptable(description) ==> r == Failure(DescriptionError)
    ensures r.Success? ==> r.value == CreateRequest(Trim(title.s), Trim(description.s))
    ensures r.Success? ==> r.value.title != [] && r.value.description != []
  {
    if Rejects(title) then Failure(TitleError)
    else if Rejects(description) then Failure(DescriptionError)
    else Success(CreateRequest(Trim(title.s), Trim(description.s)))
  }

  /** What a response carries under `data`. */
  datatype Payload = NoData | One(todo: Todo) | Many(todos: seq<Todo>)

  /** A status code and the JSON body `{success, data?, count?, message?}`. */
  datatype Response = Response(
    status: nat,
    success: bool,
    data: Payload,
    count: Option<nat>,
    message: Option<string>)

  /** Every response the handlers produce: `success` is true exactly for a 2xx status, a
      failure carries a message and no data, and `count` is the length of `data`. */
  predicate WellFormed(r: Response) {
    && (r.success <==> 200 <= r.status < 300)
    && (!r.success ==> r.data == NoData && r.message.Some?)
    && (r.count.Some? ==> r.data.Many? && r.count.value == |r.data.todos|)
  }

  function NotFoundMessage(id: string): (message: string) {
    "Todo with id " + id + " not found"
  }

  /** 404 for an id the store does not hold. */
  function NotFound(id: string): (r: Response)
    ensures WellFormed(r) && r.status == 404
    ensures r.message == Some(NotFoundMessage(id))
  {
    Response(404, false, NoData, None, Some(NotFoundMessage(id)))
  }

  /** 400 with the validation message. */
  function BadRequest(message: string): (r: Response)
    ensures WellFormed(r) && r.status == 400 && r.message == Some(message)
  {
    Response(400, false, NoData, None, Some(message))
  }

  /** GET /todos: 200 with the records and their number. */
  function ListResponse(todos: seq<Todo>): (r: Response)
    ensures WellFormed(r) && r.status == 200
    ensures r.data == Many(todos) && r.count == Some(|todos|)
  {
    Response(200, true, Many(todos), Some(|todos|), None)
  }

  /** GET /todos/:id: 404 when the store found nothing, else 200 with the record. */
  function GetResponse(id: string, found: Option<Todo>): (r: Response)
    ensures WellFormed(r)
    ensures r.status == 404 <==> found.None?
    ensures found.None? ==> r == NotFound(id)
    ensures found.Some? ==> r.status == 200 && r.data == One(found.value) && r.message == None
  {
    match found
    case None => NotFound(id)
    case Some(t) => Response(200, true, One(t), None, None)
  }

  /** POST /todos: 400 with the validation message, or 201 with the created record. */
  function CreateResponse(outcome: Result<Todo, string>): (r: Response)
    ensures WellFormed(r)
    ensures outcome.Failure? ==> r == BadRequest(outcome.error)
    ensures outcome.Success? ==> r.status == 201 && r.data == One(outcome.value) &&
                                 r.message == Some("Todo created successfully")
  {
    match outcome
    case Failure(e) => BadRequest(e)
    case Success(t) => Response(201, true, One(t), None, Some("Todo created successfully"))
  }

  /** PATCH /todos/:id/toggle: 404 when the store found nothing, else 200 with the
      updated record. */
  function ToggleResponse(id: string, toggled: Option<Todo>): (r: Response)
    ensures WellFormed(r)
    ensures r.status == 404 <==> toggled.None?
    ensures toggled.None? ==> r == NotFound(id)
    ensures toggled.Some? ==> r.status == 200 && r.data == One(toggled.value) &&
                              r.message == Some("Todo status updated successfully")
  {
    match toggled
    case None => NotFound(id)
    case Some(t) => Response(200, true, One(t), None, Some("Todo status updated successfully"))
  }

  /** DELETE /todos/:id: 404 when nothing was deleted, else 200 with a confirmation. */
  function DeleteResponse(id: string, deleted: bool): (r: Response)
    ensures WellFormed(r)
    ensures r.status == 404 <==> !deleted
    ensures !deleted ==> r == NotFound(id)
    ensures deleted ==> r.status == 200 && r.data == NoData &&
                        r.message == Some("Todo deleted successfully")
  {
    if deleted then Response(200, true, NoData, None, Some("Todo deleted successfully"))
    else NotFound(id)
  }

  /** GET /todos. */
  method HandleGetAll(store: TodoStore) returns (resp: Response)
    requires store.Valid()
    ensures resp == ListResponse(store.todos)
  {
    var todos := store.GetAllTodos();
    resp := ListResponse(todos);
  }

  /** GET /todos/:id: 404 exactly when no stored record has `id`. */
  method HandleGetById(store: TodoStore, id: string) returns (resp: Response)
    requires store.Valid()
    ensures resp == GetResponse(id, Lookup(store.todos, id))
    ensures WellFormed(resp)
    ensures resp.status == 404 <==> forall i :: 0 <= i < |store.todos| ==> store.todos[i].id != id
    ensures resp.status == 404 ==> resp.message == Some(NotFoundMessage(id))
    ensures resp.status != 404 ==> resp.status == 200 && resp.data.One? &&
                                   resp.data.todo.id == id && resp.data.todo in store.todos
  {
    var found := store.GetTodoById(id);
    resp := GetResponse(id, found);
  }

  /** POST /todos: validation, then the store's create with the trimmed fields. A request
      that fails validation leaves the store as it was. */
  method HandleCreate(store: TodoStore, title: JsonValue, description: JsonValue, createdAt: Timestamp)
    returns (resp: Response)
    requires store.Valid()
    modifies store
    ensures store.Valid() && WellFormed(resp)
    ensures !Acceptable(title) ==> resp == BadRequest(TitleError)
    ensures Acceptable(title) && !Acceptable(description) ==> resp == BadRequest(DescriptionError)
    ensures resp.status == 400 <==> !Acceptable(title) || !Acceptable(description)
    ensures resp.status == 400 ==> unchanged(store)
    ensures resp.status != 400 ==>
              && Acceptable(title) && Acceptable(description)
              && resp.status == 201
              && resp.data == One(Todo(Decimal.Render(old(store.nextId)), Trim(title.s),
                                       Trim(description.s), false, createdAt))
              && store.todos == old(store.todos) + [resp.data.todo]
              && store.nextId == old(store.nextId) + 1
              && resp.message == Some("Todo created successfully")
  {
    var request := ValidateCreate(title, description);
    match request
    case Failure(e) =>
      resp := CreateResponse(Failure(e));
    case Success(req) =>
      var t := store.CreateTodo(req.title, req.description, createdAt);
      resp := CreateResponse(Success(t));
  }

  /** PATCH /todos/:id/toggle. */
  method HandleToggle(store: TodoStore, id: string) returns (resp: Response)
    requires store.Valid()
    modifies store
    ensures store.Valid() && WellFormed(resp)
    ensures store.todos == ToggleById(old(store.todos), id) && store.nextId == old(store.nextId)
    ensures resp == ToggleResponse(id, if Lookup(old(store.todos), id).None? then None
                                       else Some(Flipped(Lookup(old(store.todos), id).value)))
    ensures resp.status == 404 ==> resp.message == Some(NotFoundMessage(id))
    ensures resp.status != 404 ==> resp.message == Some("Todo status updated successfully")
    ensures resp.status == 404 <==> Lookup(old(store.todos), id).None?
    ensures resp.status == 404 ==> store.todos == old(store.todos)
    ensures resp.status != 404 ==>
              resp.status == 200 && resp.data == One(Flipped(Lookup(old(store.todos), id).value)) &&
              Lookup(store.todos, id) == Some(resp.data.todo)
  {
    var toggled := store.ToggleTodo(id);
    resp := ToggleResponse(id, toggled);
  }

  /** DELETE /todos/:id. */
  method HandleDelete(store: TodoStore, id: string) returns (resp: Response)
    requires store.Valid()
    modifies store
    ensures store.Valid() && WellFormed(resp)
    ensures store.todos == DeleteById(old(store.todos), id) && store.nextId == old(store.nextId)
    ensures resp == DeleteResponse(id, Lookup(old(store.todos), id).Some?)
    ensures resp.status == 404 ==> resp.message == Some(NotFoundMessage(id))
    ensures resp.status != 404 ==> resp.message == Some("Todo deleted successfully")
    ensures resp.status == 404 <==> Lookup(old(store.todos), id).None?
    ensures resp.status == 404 ==> store.todos == old(store.todos)
    ensures resp.status != 404 ==>
              resp.status == 200 && |store.todos| == |old(store.todos)| - 1 &&
              Lookup(store.todos, id).None?
  {
    var deleted := store.DeleteTodo(id);
    resp := DeleteResponse(id, deleted);
  }

  /** A session against a fresh store: create "A"/"B", toggle it, read it, delete it, read
      it again. Returns the status codes and the `completed` flags the three record-carrying
      answers report. */
  method EndToEnd(createdAt: Timestamp) returns (statuses: seq<nat>, completed: seq<bool>)
    ensures statuses == [201, 200, 200, 200, 404]
    ensures completed == [false, true, true]
  {
    var store := new TodoStore();
    assert "A"[0] == 'A' && "B"[0] == 'B';
    assert Acceptable(Str("A")) && Acceptable(Str("B"));
    var created := HandleCreate(store, Str("A"), Str("B"), createdAt);
    var id := created.data.todo.id;
    var toggled := HandleToggle(store, id);
    assert store.todos == [toggled.data.todo];
    var fetched := HandleGetById(store, id);
    var removed := HandleDelete(store, id);
    var missing := HandleGetById(store, id);
    statuses := [created.status, toggled.status, fetched.status, removed.status, missing.status];
    completed := [created.data.todo.completed, toggled.data.todo.completed, fetched.data.todo.completed];
  }
}
