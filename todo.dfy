/** The todo record and the pure list operations the store performs on its array: the
    linear search of `find`/`findIndex`, the in-place flip of `completed`, the `splice` of
    one element, and the id discipline the counter guarantees. */
module Todos {
  import opened Wrappers
  import Decimal

  /** A point in time, as the store receives it from its caller (milliseconds since the epoch). */
  type Timestamp = int

  datatype Todo = Todo(
    id: string,
    title: string,
    description: string,
    completed: bool,
    createdAt: Timestamp)

  /** `Array.prototype.findIndex` with the predicate `t => t.id === id`: the first position
      holding that id, or -1 when there is none. */
  function IndexOf(todos: seq<Todo>, id: string): (k: int)
    ensures -1 <= k < |todos|
    ensures k == -1 <==> forall i :: 0 <= i < |todos| ==> todos[i].id != id
    ensures k >= 0 ==> todos[k].id == id && forall i :: 0 <= i < k ==> todos[i].id != id
    decreases |todos|
  {
    if |todos| == 0 then -1
    else if todos[0].id == id then 0
    else
      var k := IndexOf(todos[1..], id);
      if k == -1 then -1 else k + 1
  }

  /** A position holding `id` with no earlier one is what the search answers. */
  lemma IndexOfFirst(todos: seq<Todo>, id: string, k: nat)
    requires k < |todos| && todos[k].id == id
    requires forall i :: 0 <= i < k ==> todos[i].id != id
    ensures IndexOf(todos, id) == k
  {
  }

  /** `Array.prototype.find` with the same predicate: the first record with that id. */
  function Lookup(todos: seq<Todo>, id: string): (r: Option<Todo>)
    ensures r.None? <==> forall i :: 0 <= i < |todos| ==> todos[i].id != id
    ensures r.Some? ==> r.value.id == id && r.value in todos
    ensures r.Some? ==> exists k :: 0 <= k < |todos| && todos[k] == r.value &&
                                   forall i :: 0 <= i < k ==> todos[i].id != id
  {
    var k := IndexOf(todos, id);
    if k == -1 then None else Some(todos[k])
  }

  /** The record after `todo.completed = !todo.completed`. */
  function Flipped(t: Todo): (u: Todo)
    ensures u.completed != t.completed
    ensures u.id == t.id && u.title == t.title && u.description == t.description
    ensures u.createdAt == t.createdAt
  {
    t.(completed := !t.completed)
  }

  /** The list after toggling the record with `id`; unchanged when there is none. */
  function ToggleById(todos: seq<Todo>, id: string): (r: seq<Todo>)
    ensures |r| == |todos|
    ensures forall i :: 0 <= i < |todos| ==> r[i].id == todos[i].id
    ensures forall i :: 0 <= i < |todos| && i != IndexOf(todos, id) ==> r[i] == todos[i]
    ensures IndexOf(todos, id) >= 0 ==> r[IndexOf(todos, id)] == Flipped(todos[IndexOf(todos, id)])
  {
    var k := IndexOf(todos, id);
    if k == -1 then todos else todos[k := Flipped(todos[k])]
  }

  /** The list after `todos.splice(k, 1)`. */
  function RemoveAt(todos: seq<Todo>, k: nat): (r: seq<Todo>)
    requires k < |todos|
    ensures |r| == |todos| - 1
    ensures forall i :: 0 <= i < k ==> r[i] == todos[i]
    ensures forall i :: k <= i < |r| ==> r[i] == todos[i + 1]
  {
    todos[..k] + todos[k + 1..]
  }

  /** The list after deleting the record with `id`; unchanged when there is none. */
  function DeleteById(todos: seq<Todo>, id: string): (r: seq<Todo>)
    ensures |r| == |todos| - 1 <==> Lookup(todos, id).Some?
    ensures Lookup(todos, id).None? ==> r == todos
    ensures Lookup(todos, id).Some? ==> r == RemoveAt(todos, IndexOf(todos, id))
  {
    var k := IndexOf(todos, id);
    if k == -1 then todos else RemoveAt(todos, k)
  }

  /** The number an id stands for; 0 for a string that is not made of digits. */
  function IdNumber(id: string): (n: nat)
  {
    if Decimal.IsDigits(id) then Decimal.Parse(id) else 0
  }

  /** Every id the counter has handed out while it ran from 1 up to `next - 1`. */
  function IssuedIds(next: nat): (ids: set<string>)
  {
    set n: nat | 1 <= n < next :: Decimal.Render(n)
  }

  /** Bumping the counter adds exactly its old value's rendering to the issued ids. */
  lemma IssuedIdsStep(next: nat)
    requires next >= 1
    ensures IssuedIds(next + 1) == IssuedIds(next) + {Decimal.Render(next)}
  {
    forall s | s in IssuedIds(next + 1) ensures s in IssuedIds(next) + {Decimal.Render(next)} {
      var n: nat :| 1 <= n < next + 1 && s == Decimal.Render(n);
    }
  }

  /** The store's id discipline: every id is the decimal rendering of a counter value in
      [1, next), and those values increase along the list (the creation order). */
  predicate IdsIssued(todos: seq<Todo>, next: nat)
  {
    && (forall i :: 0 <= i < |todos| ==>
          todos[i].id == Decimal.Render(IdNumber(todos[i].id)) && 1 <= IdNumber(todos[i].id) < next)
    && (forall i, j :: 0 <= i < j < |todos| ==> IdNumber(todos[i].id) < IdNumber(todos[j].id))
  }

  predicate IdsDistinct(todos: seq<Todo>)
  {
    forall i, j :: 0 <= i < j < |todos| ==> todos[i].id != todos[j].id
  }

  /** The discipline makes every id one the counter issued, and no two records share one. */
  lemma IdsIssuedMeaning(todos: seq<Todo>, next: nat)
    requires IdsIssued(todos, next)
    ensures forall i :: 0 <= i < |todos| ==> todos[i].id in IssuedIds(next)
    ensures IdsDistinct(todos)
  {
    forall i | 0 <= i < |todos| ensures todos[i].id in IssuedIds(next) {
      var n := IdNumber(todos[i].id);
      assert todos[i].id == Decimal.Render(n) && 1 <= n < next;
    }
  }

  /** An id the counter never issued is not found in a list that follows the discipline. */
  lemma UnissuedIdAbsent(todos: seq<Todo>, next: nat, id: string)
    requires IdsIssued(todos, next) && id !in IssuedIds(next)
    ensures Lookup(todos, id).None?
  {
    IdsIssuedMeaning(todos, next);
  }

  /** The id the counter hands out next has never been handed out before. */
  lemma FreshIdNotIssued(next: nat)
    ensures Decimal.Render(next) !in IssuedIds(next)
  {
    if Decimal.Render(next) in IssuedIds(next) {
      var n: nat :| 1 <= n < next && Decimal.Render(n) == Decimal.Render(next);
      Decimal.RenderInjective(n, next);
    }
  }

  /** The number of a rendered counter value is that counter value. */
  lemma IdNumberRender(n: nat)
    ensures IdNumber(Decimal.Render(n)) == n
  {
    Decimal.ParseRender(n);
  }

  /** Appending a record that carries the current counter, then bumping the counter,
      keeps the discipline. */
  lemma IdsIssuedAppend(todos: seq<Todo>, next: nat, t: Todo)
    requires IdsIssued(todos, next) && next >= 1
    requires t.id == Decimal.Render(next)
    ensures IdsIssued(todos + [t], next + 1)
  {
    var r := todos + [t];
    IdNumberRender(next);
    forall i | 0 <= i < |r|
      ensures r[i].id == Decimal.Render(IdNumber(r[i].id)) && 1 <= IdNumber(r[i].id) < next + 1
    {
      if i < |todos| {
        assert r[i] == todos[i];
      }
    }
    forall i, j | 0 <= i < j < |r| ensures IdNumber(r[i].id) < IdNumber(r[j].id) {
      assert r[i] == todos[i];
      if j < |todos| {
        assert r[j] == todos[j];
      }
    }
  }

  /** Splicing one record out keeps the discipline. */
  lemma IdsIssuedRemoveAt(todos: seq<Todo>, next: nat, k: nat)
    requires IdsIssued(todos, next) && k < |todos|
    ensures IdsIssued(RemoveAt(todos, k), next)
  {
    var r := RemoveAt(todos, k);
    forall i, j | 0 <= i < j < |r| ensures IdNumber(r[i].id) < IdNumber(r[j].id) {
      var i' := if i < k then i else i + 1;
      var j' := if j < k then j else j + 1;
      assert r[i] == todos[i'] && r[j] == todos[j'] && i' < j';
    }
  }

  /** Toggling keeps every id in place, so it keeps the discipline. */
  lemma IdsIssuedToggle(todos: seq<Todo>, next: nat, id: string)
    requires IdsIssued(todos, next)
    ensures IdsIssued(ToggleById(todos, id), next)
  {
  }

  /** The search only looks at ids, so two lists with the same ids in the same places
      give the same answer. */
  lemma {:induction false} IndexOfSameIds(s: seq<Todo>, t: seq<Todo>, id: string)
    requires |s| == |t|
    requires forall i :: 0 <= i < |s| ==> s[i].id == t[i].id
    ensures IndexOf(s, id) == IndexOf(t, id)
    decreases |s|
  {
    if |s| > 0 && s[0].id != id {
      IndexOfSameIds(s[1..], t[1..], id);
    }
  }

  /** Toggling the same id twice restores the list. */
  lemma ToggleTwice(todos: seq<Todo>, id: string)
    ensures ToggleById(ToggleById(todos, id), id) == todos
  {
    var once := ToggleById(todos, id);
    IndexOfSameIds(todos, once, id);
  }

  /** After a record is spliced out of a list with distinct ids, its id is no longer found,
      while every other record still is. */
  lemma LookupAfterRemove(todos: seq<Todo>, k: nat)
    requires IdsDistinct(todos) && k < |todos|
    ensures Lookup(RemoveAt(todos, k), todos[k].id).None?
    ensures forall i :: 0 <= i < |todos| && i != k ==>
              Lookup(RemoveAt(todos, k), todos[i].id) == Some(todos[i])
  {
    var r := RemoveAt(todos, k);
    forall i | 0 <= i < |todos| && i != k
      ensures Lookup(r, todos[i].id) == Some(todos[i])
    {
      var p := if i < k then i else i - 1;
      assert r[p] == todos[i];
      var q := IndexOf(r, todos[i].id);
      var q' := if q < k then q else q + 1;
      assert r[q] == todos[q'];
    }
  }
}
