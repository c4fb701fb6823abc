/** The in-memory todo store: an ordered list of records and the counter that numbers them.
    The service keeps both at module level, shared by every service instance; here they
    are the fields of one store object that is passed to whoever uses it. */
module TodoService {
  import opened Wrappers
  import opened Todos
  import Decimal

  class TodoStore {
    var todos: seq<Todo>
    var nextId: nat

    /** The counter has started at 1 and the stored ids follow its discipline. */
    ghost predicate Valid()
      reads this
    {
      nextId >= 1 && IdsIssued(todos, nextId)
    }

    /** A fresh store: empty list, counter at 1. */
    constructor ()
      ensures Valid()
      ensures todos == [] && nextId == 1
    {
      todos := [];
      nextId := 1;
    }

    /** All records, in insertion order. */
    method GetAllTodos() returns (r: seq<Todo>)
      requires Valid()
      ensures r == todos
      ensures forall i :: 0 <= i < |r| ==> r[i].id in IssuedIds(nextId)
      ensures IdsDistinct(r)
    {
      r := todos;
      IdsIssuedMeaning(todos, nextId);
    }

    /** The linear search `findIndex(t => t.id === id)`: the first position holding `id`,
        or -1. */
    method FindIndex(id: string) returns (index: int)
      ensures index == IndexOf(todos, id)
    {
      index := 0;
      while index < |todos|
        invariant 0 <= index <= |todos|
        invariant forall i :: 0 <= i < index ==> todos[i].id != id
      {
        if todos[index].id == id {
          IndexOfFirst(todos, id, index);
          return;
        }
        index := index + 1;
      }
      index := -1;
    }

    /** The record with `id`, or `None`; with distinct ids it is the only such record. */
    method GetTodoById(id: string) returns (r: Option<Todo>)
      requires Valid()
      ensures r == Lookup(todos, id)
      ensures r.None? <==> forall i :: 0 <= i < |todos| ==> todos[i].id != id
      ensures r.Some? ==> r.value.id == id &&
                          forall i :: 0 <= i < |todos| && todos[i].id == id ==> todos[i] == r.value
    {
      IdsIssuedMeaning(todos, nextId);
      var k := FindIndex(id);
      r := if k == -1 then None else Some(todos[k]);
    }

    /** Creates a record under the current counter value, bumps the counter and appends
        the record; its id has never been issued before. */
    method CreateTodo(title: string, description: string, createdAt: Timestamp) returns (t: Todo)
      requires Valid()
      modifies this
      ensures Valid()
      ensures t == Todo(Decimal.Render(old(nextId)), title, description, false, createdAt)
      ensures t.id !in IssuedIds(old(nextId))
      ensures IssuedIds(nextId) == IssuedIds(old(nextId)) + {t.id}
      ensures todos == old(todos) + [t]
      ensures nextId == old(nextId) + 1
    {
      t := Todo(Decimal.Render(nextId), title, description, false, createdAt);
      FreshIdNotIssued(nextId);
      IdsIssuedAppend(todos, nextId, t);
      IssuedIdsStep(nextId);
      nextId := nextId + 1;
      todos := todos + [t];
    }

    /** Flips `completed` of the record with `id` and returns the updated record; with no
        such record nothing changes and the result is `None`. */
    method ToggleTodo(id: string) returns (r: Option<Todo>)
      requires Valid()
      modifies this
      ensures Valid()
      ensures nextId == old(nextId)
      ensures todos == ToggleById(old(todos), id)
      ensures r.None? <==> Lookup(old(todos), id).None?
      ensures r.None? ==> todos == old(todos)
      ensures r.Some? ==> r == Lookup(todos, id) && r.value == Flipped(Lookup(old(todos), id).value)
    {
      var k := FindIndex(id);
      if k == -1 {
        r := None;
      } else {
        var t := Flipped(todos[k]);
        IdsIssuedToggle(todos, nextId, id);
        IndexOfSameIds(todos, todos[k := t], id);
        todos := todos[k := t];
        r := Some(t);
      }
    }

    /** Splices the record with `id` out of the list and answers `true`; with no such
        record nothing changes and the answer is `false`. The counter never moves back. */
    method DeleteTodo(id: string) returns (deleted: bool)
      requires Valid()
      modifies this
      ensures Valid()
      ensures nextId == old(nextId)
      ensures todos == DeleteById(old(todos), id)
      ensures deleted <==> Lookup(old(todos), id).Some?
      ensures !deleted ==> todos == old(todos)
      ensures deleted ==> |todos| == |old(todos)| - 1 && Lookup(todos, id).None?
    {
      var k := FindIndex(id);
      if k == -1 {
        deleted := false;
      } else {
        IdsIssuedMeaning(todos, nextId);
        IdsIssuedRemoveAt(todos, nextId, k);
        LookupAfterRemove(todos, k);
        todos := RemoveAt(todos, k);
        deleted := true;
      }
    }
  }

  /** Two creations on a fresh store: both are listed, in creation order, under different
      ids, and an id the counter never issued is not found. */
  method CreateTwiceThenList(createdAt: Timestamp)
    returns (first: Todo, second: Todo, listed: seq<Todo>, unknown: Option<Todo>)
    ensures listed == [first, second]
    ensures unknown == None
    ensures first.id != second.id
    ensures first.id == "1" && second.id == "2"
    ensures !first.completed && !second.completed
  {
    var store := new TodoStore();
    first := store.CreateTodo("Todo 1", "Desc 1", createdAt);
    second := store.CreateTodo("Todo 2", "Desc 2", createdAt);
    listed := store.GetAllTodos();
    UnissuedIdAbsent(store.todos, store.nextId, "999");
    unknown := store.GetTodoById("999");
  }
}
