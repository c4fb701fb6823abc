# Todo store and its HTTP layer, in Dafny

A model of a minimal todo-list service. The store keeps an ordered list of todo records
and a counter. Creating a record gives it the counter's decimal rendering as its id and then
bumps the counter. Toggling flips a record's `completed` flag in place. Deleting splices the
record out of the list. In front of the store, the controller validates the create request
(title first, then description; each must be a string that is not blank after trimming) and
turns the store's answers into a status code and a JSON body (200, 201, 400, 404).

Modules:

- `Wrappers` (`wrappers.dfy`): `Option` (JavaScript's `undefined` result) and `Result`.
- `Decimal` (`decimal.dfy`): `Render`, the counter's `toString()`, and `Parse`, its inverse.
  Both round trips are proved, so distinct counter values give distinct ids.
- `Todos` (`todo.dfy`): the `Todo` record and the list operations as functions. These are the
  `find`/`findIndex` search, the flip of `completed`, the `splice` of one element, and the id
  discipline (`IdsIssued`) with the lemmas that each operation keeps it.
- `JsString` (`js_string.dfy`): `String.prototype.trim` over ECMAScript's white space and line
  terminators.
- `TodoService` (`todo_service.dfy`): the class `TodoStore`. Its fields `todos: seq<Todo>` and
  `nextId: nat` are updated in place by `CreateTodo`, `ToggleTodo` and `DeleteTodo`. Its object
  invariant `Valid()` is the id discipline: every stored id is `Render(n)` for some
  `1 <= n < nextId`, and these `n` increase along the list, so ids are pairwise distinct and
  never reused.
- `TodoController` (`todo_controller.dfy`): request validation and status mapping as functions.
  One method per handler calls the store and returns the response as a value.

The service keeps the list and the counter in module-level variables shared by every
`TodoService` instance. The model has one explicitly constructed `TodoStore` that the handlers
receive as a parameter. On a single store the behaviour is the same.

## Model

| member | source | states |
|---|---|---|
| Decimal.Render | src/services/todoService.ts:27 | `nextId.toString()`: a non-empty digit string with no leading zero, one digit exactly for values below 10 |
| Decimal.ParseRender | src/services/todoService.ts:27 | parsing a rendered counter value gives back that value |
| Decimal.RenderParse | src/services/todoService.ts:27 | every canonical digit string is the rendering of its parsed value (the other round trip) |
| Decimal.RenderInjective | src/services/todoService.ts:27 | distinct counter values render to distinct ids |
| Todos.IndexOf | src/services/todoService.ts:53 | `findIndex`: -1 exactly when no record has the id; otherwise a position holding the id with no earlier one |
| Todos.IndexOfFirst | src/services/todoService.ts:53 | a position holding the id with no earlier one is the position the search returns |
| Todos.Lookup | src/services/todoService.ts:19 | `find`: `None` exactly when no record has the id; otherwise a stored record with that id, the first one |
| Todos.Flipped | src/services/todoService.ts:44 | `completed` is negated and every other field is kept |
| Todos.ToggleById | src/services/todoService.ts:41-47 | same length and same ids; only the found record changes, and it becomes its `Flipped` self (`completed` negated, every other field kept); no match means no change |
| Todos.RemoveAt | src/services/todoService.ts:55 | `splice(k, 1)`: one shorter; the records before `k` stay put and the later ones shift down by one, order kept |
| Todos.DeleteById | src/services/todoService.ts:53-56 | the list gets one shorter exactly when the id is present, and then the first record with it is spliced out; otherwise the list is unchanged |
| Todos.UnissuedIdAbsent | tests/todoService.test.ts:53-56 | under the id discipline, an id the counter never issued is not found |
| Todos.IdsIssuedMeaning | src/services/todoService.ts:4-5 | under the id discipline every stored id is one the counter issued and the ids are pairwise distinct |
| Todos.FreshIdNotIssued | src/services/todoService.ts:27-33 | the id the counter hands out next was never handed out before |
| Todos.IssuedIdsStep | src/services/todoService.ts:33 | bumping the counter adds exactly its old value's rendering to the set of issued ids |
| Todos.IdsIssuedAppend | src/services/todoService.ts:25-35 | appending a record under the current counter and bumping the counter keeps the id discipline |
| Todos.IdsIssuedRemoveAt | src/services/todoService.ts:53-56 | splicing one record out keeps the id discipline |
| Todos.IdsIssuedToggle | src/services/todoService.ts:41-47 | toggling keeps the id discipline |
| Todos.IndexOfSameIds | src/services/todoService.ts:42 | the search depends only on the ids, so toggling does not move a record's position |
| Todos.ToggleTwice | tests/todoService.test.ts:80-86 | toggling the same id twice restores the list |
| Todos.LookupAfterRemove | tests/todoService.test.ts:95-103 | after a delete the deleted id is no longer found, and every other record still is |
| JsString.SkipForward | src/controllers/todoController.ts:64 | the leading-white-space scan of `trim()`: the first position at or after `i` that is not white space (or the end), with only white space skipped |
| JsString.SkipBackward | src/controllers/todoController.ts:64 | the trailing-white-space scan of `trim()`: the smallest `i` such that everything from `i` to `j` is white space, with a non-white-space character (or the start) before it |
| JsString.Trim | src/controllers/todoController.ts:64 | `trim()` gives the empty string exactly when the input is white space only |
| JsString.TrimIsCore | src/controllers/todoController.ts:81-82 | the trimmed string is the slice of the input between its leading and trailing white space, only white space lies outside it, and it neither starts nor ends with white space |
| JsString.TrimIdempotent | src/controllers/todoController.ts:81-82 | trimming a trimmed value changes nothing |
| TodoService.TodoStore.constructor | src/services/todoService.ts:4-5 | a fresh store has an empty list, its counter at 1, and satisfies the id discipline |
| TodoService.TodoStore.GetAllTodos | src/services/todoService.ts:11-13 | returns exactly the stored list in insertion order; its ids are distinct and all issued by the counter |
| TodoService.TodoStore.FindIndex | src/services/todoService.ts:53 | the linear search returns what `IndexOf` specifies |
| TodoService.TodoStore.GetTodoById | src/services/todoService.ts:18-20 | `None` exactly when no record has the id; otherwise the record with that id, which is the only one |
| TodoService.TodoStore.CreateTodo | src/services/todoService.ts:25-35 | the new record has id `Render(old nextId)`, the given title and description, `completed == false` and the given timestamp; it is appended; the counter goes up by one; the id was never issued before; the discipline holds |
| TodoService.TodoStore.ToggleTodo | src/services/todoService.ts:41-47 | the list becomes `ToggleById` of the old list and the counter is unchanged; an absent id gives `None` and no change; otherwise returns the flipped record, which is what a lookup now finds |
| TodoService.TodoStore.DeleteTodo | src/services/todoService.ts:52-59 | `true` exactly when the id was present; then the record is spliced out, the list is one shorter and the id is no longer found; otherwise nothing changes; the counter is unchanged |
| TodoService.CreateTwiceThenList | tests/todoService.test.ts:17-25 | two creations on a fresh store are listed as `[first, second]` with ids "1" and "2", both not completed, and the never-issued id "999" is not found |
| TodoController.Truthy | src/controllers/todoController.ts:64 | the `!v` test never rejects an acceptable field on its own; a missing field and the empty string are falsy |
| TodoController.Rejects | src/controllers/todoController.ts:64 | the guard (falsy, not a string, or blank after `trim()`) rejects exactly the fields that are not a string with some non-white-space character |
| TodoController.ValidateCreate | src/controllers/todoController.ts:64-83 | succeeds exactly when both fields are acceptable; a bad title gives the title message whatever the description is; a good title with a bad description gives the description message; on success both values are trimmed and non-empty |
| TodoController.NotFound | src/controllers/todoController.ts:37-40 | 404 with `Todo with id {id} not found` |
| TodoController.BadRequest | src/controllers/todoController.ts:65-68 | 400, `success: false`, with the given message |
| TodoController.ListResponse | src/controllers/todoController.ts:13-18 | 200 with the records and `count` equal to their number |
| TodoController.GetResponse | src/controllers/todoController.ts:36-47 | 404 exactly when the store found nothing; otherwise 200 with the record |
| TodoController.CreateResponse | src/controllers/todoController.ts:64-90 | a validation failure gives 400 with its message; a created record gives 201 with it and `Todo created successfully` |
| TodoController.ToggleResponse | src/controllers/todoController.ts:108-120 | 404 exactly when the store found nothing; otherwise 200 with the updated record and `Todo status updated successfully` |
| TodoController.DeleteResponse | src/controllers/todoController.ts:138-149 | 404 exactly when nothing was deleted; otherwise 200 with `Todo deleted successfully` and no data |
| TodoController.HandleGetAll | src/controllers/todoController.ts:11-18 | 200 with the store's list and `count` equal to its length |
| TodoController.HandleGetById | src/controllers/todoController.ts:31-47 | the response is `GetResponse` of the store's lookup: 404 with `Todo with id {id} not found` exactly when no stored record has the id; otherwise 200 with a stored record carrying that id |
| TodoController.HandleCreate | src/controllers/todoController.ts:60-90 | 400 exactly when a field is unacceptable, with the title checked first, and then the store is untouched; otherwise 201 with `Todo created successfully` and the record built from the trimmed fields under the old counter, appended to the store |
| TodoController.HandleToggle | src/controllers/todoController.ts:103-120 | the response is `ToggleResponse` of the flipped record: 404 with `Todo with id {id} not found` exactly when the id is absent, and then the store is unchanged; otherwise 200 with `Todo status updated successfully` and the flipped record, which the store now holds |
| TodoController.HandleDelete | src/controllers/todoController.ts:133-149 | the response is `DeleteResponse` of whether the id was present: 404 with `Todo with id {id} not found` exactly when it was absent, and then the store is unchanged; otherwise 200 with `Todo deleted successfully`, the list is one shorter and the id is gone |
| TodoController.EndToEnd | src/controllers/todoController.ts:60-149 | on a fresh store, create/toggle/get/delete/get answer 201, 200, 200, 200, 404, and the records report `completed` as false, true, true |

Every response these functions build satisfies `WellFormed`: `success` is true exactly for a
2xx status, a failure carries a message and no data, and `count` equals the length of `data`.

## Left out

- The `catch` branches that answer 500 (for example src/controllers/todoController.ts:19-25): the store cannot throw, and the model has no exceptions.
- src/index.ts (Express bootstrap, CORS, body parsing, `listen`, logging) and src/routes/api.ts (the route table and the `/health` endpoint, which reads the clock): framework plumbing and wall-clock I/O.
- `createdAt: new Date()`: the timestamp is a parameter of `CreateTodo` and the handlers, not a clock reading.
- Express `Request`/`Response` objects: the request fields are parameters and the response is a returned `Response` value, not `res.status().json()` side effects.
- Aliasing: `getAllTodos` returns the live array and `toggleTodo` mutates a record object that earlier callers may still hold. The model returns sequences and records as values.
- Module-level sharing of the list and counter between `TodoService` instances: the model has one store object per `new TodoStore()`.
- TodoService.TodoStore.CreateTodo: `nextId` is an unbounded `nat`, while the service's counter is a JavaScript number. Once it reaches 2^53, `nextId++` leaves it at 2^53, so the next create hands out "9007199254740992" a second time and the service's ids stop being unique. The uniqueness lemmas therefore describe the service only for counters below 2^53. Exponent notation in `toString()` (from 10^21) is never reached, because the counter stops growing first.
- JsString.Trim: Dafny characters are Unicode scalar values, while JavaScript strings are UTF-16 code units. All white space `trim` strips lies in the Basic Multilingual Plane, so only lone surrogates are treated differently.
- TodoController.Rejects: a non-string JSON value (`Other`) carries only its truthiness, which is all the guard looks at.
