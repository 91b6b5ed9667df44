/** The mock back end. A single localStorage entry holds the whole list. Every
    call loads it; every call except `getTodos` then computes a new list and
    writes that back (`getTodos` only returns what it loaded). The simulated
    network delay is left out, so every call is synchronous. */
module TodoApi {
  import opened ArrayOps
  import TodoContext

  type Todo = TodoContext.Todo
  type Time = TodoContext.Time

  datatype Option<T> = None | Some(value: T)

  /** A call either yields a value or throws an `Error` with a message. */
  datatype Result<T> = Ok(value: T) | Err(message: string)

  const NotFoundMessage := "Todo not found"

  /** The localStorage entry under the key "todos_app_data": missing (or the
      empty string), a payload that does not parse as a list of entries, or a
      stored list. Serialising a list and parsing it back is taken to give
      the same list. */
  datatype Stored = Absent | Unreadable | Saved(todos: seq<Todo>)

  /** The fields `updateTodo` may overwrite; a missing field is left as it was. */
  datatype Patch = Patch(text: Option<string>, completed: Option<bool>)

  /** The fields `replaceTodo` takes from its argument. */
  datatype Draft = Draft(text: string, completed: bool)

  /** The seed list used whenever nothing readable is stored; dates are read as UTC. */
  const InitialTodos: seq<Todo> := [
    TodoContext.Todo("1", "Design the user interface for the todo app", false, 1758708000000, 1758708000000),
    TodoContext.Todo("2", "Implement CRUD operations with Context API", true, 1758706200000, 1758723720000),
    TodoContext.Todo("3", "Add smooth animations and modern styling", false, 1758701700000, 1758701700000),
    TodoContext.Todo("4", "Test the application thoroughly", false, 1758714300000, 1758714300000)
  ]

  /** The list `getStoredTodos` yields for the stored entry, given the current seed. */
  function Loaded(stored: Stored, seed: seq<Todo>): (r: seq<Todo>)
  {
    if stored.Saved? then stored.todos else seed
  }

  /** Position of the first entry with the identifier, or -1. */
  function IndexOfId(todos: seq<Todo>, id: string): (r: int)
  {
    FindIndex(todos, (t: Todo) => t.id == id)
  }

  /** `{...todo, ...updates, updatedAt: new Date()}`. */
  function Merge(todo: Todo, patch: Patch, now: Time): (r: Todo)
  {
    todo.(text := if patch.text.Some? then patch.text.value else todo.text,
          completed := if patch.completed.Some? then patch.completed.value else todo.completed,
          updatedAt := now)
  }

  /** `{...todo, id, createdAt: <the old entry's>, updatedAt: new Date()}`. */
  function Replacement(current: Todo, id: string, draft: Draft, now: Time): (r: Todo)
  {
    TodoContext.Todo(id, draft.text, draft.completed, current.createdAt, now)
  }

  /** What `createTodo` writes: the new entry in front of the loaded list. */
  function WithNewTodo(todos: seq<Todo>, text: string, now: Time): (r: seq<Todo>)
  {
    [TodoContext.NewTodo(text, now)] + todos
  }

  /** What `deleteTodo` writes. */
  function WithoutId(todos: seq<Todo>, id: string): (r: seq<Todo>)
  {
    Filter(todos, (todo: Todo) => todo.id != id)
  }

  /** What `clearCompleted` writes. */
  function ActiveTodos(todos: seq<Todo>): (r: seq<Todo>)
  {
    Filter(todos, (todo: Todo) => !todo.completed)
  }

  class MockApi {
    /** The localStorage entry. */
    var stored: Stored
    /** The module's `initialTodos` array. `getStoredTodos` hands it out by
        reference, so an in-place assignment to a loaded list writes into it. */
    var seed: array<Todo>

    /** Module load: the seed as written, and whatever the browser has stored. */
    constructor (initial: Stored)
      ensures stored == initial
      ensures fresh(seed) && seed[..] == InitialTodos
    {
      stored := initial;
      seed := new TodoContext.Todo[|InitialTodos|](i requires 0 <= i < |InitialTodos| => InitialTodos[i]);
    }

    /** `getStoredTodos`: a new array holding the stored list, or the seed
        array itself when nothing readable is stored. Never fails. */
    method GetStoredTodos() returns (todos: array<Todo>)
      ensures todos[..] == Loaded(stored, seed[..])
      ensures stored.Saved? ==> fresh(todos)
      ensures !stored.Saved? ==> todos == seed
    {
      match stored
      case Saved(list) =>
        todos := new TodoContext.Todo[|list|](i requires 0 <= i < |list| => list[i]);
      case _ =>
        todos := seed;
    }

    /** `storeTodos`: a failed write (`writeOk` false) is logged and swallowed,
        leaving the stored entry as it was. */
    method StoreTodos(todos: seq<Todo>, writeOk: bool)
      modifies this`stored
      ensures stored == if writeOk then Saved(todos) else old(stored)
    {
      if writeOk {
        stored := Saved(todos);
      }
    }

    /** GET /todos: the loaded list, with nothing written. */
    method GetTodos() returns (todos: seq<Todo>)
      ensures todos == Loaded(stored, seed[..])
    {
      var loaded := GetStoredTodos();
      todos := loaded[..];
    }

    /** POST /todos: a new entry in front of the loaded list. */
    method CreateTodo(text: string, now: Time, writeOk: bool) returns (todo: Todo)
      modifies this`stored
      ensures todo == TodoContext.NewTodo(text, now)
      ensures stored == if writeOk then Saved(WithNewTodo(old(Loaded(stored, seed[..])), text, now)) else old(stored)
    {
      var todos := GetStoredTodos();
      todo := TodoContext.NewTodo(text, now);
      StoreTodos(WithNewTodo(todos[..], text, now), writeOk);
    }

    /** PATCH /todos/:id: merge the patch into the first entry with the
        identifier and assign it back into the loaded array. */
    method UpdateTodo(id: string, patch: Patch, now: Time, writeOk: bool) returns (r: Result<Todo>)
      modifies this`stored, seed
      ensures var before := old(Loaded(stored, seed[..]));
              var i := IndexOfId(before, id);
        if i == -1 then
          r == Err(NotFoundMessage) && stored == old(stored) && seed[..] == old(seed[..])
        else
          var after := before[i := Merge(before[i], patch, now)];
          && r == Ok(after[i])
          && stored == (if writeOk then Saved(after) else old(stored))
          && seed[..] == (if old(stored).Saved? then old(seed[..]) else after)
    {
      var todos := GetStoredTodos();
      var i := IndexOfId(todos[..], id);
      if i == -1 {
        return Err(NotFoundMessage);
      }
      var updated := Merge(todos[i], patch, now);
      todos[i] := updated;
      StoreTodos(todos[..], writeOk);
      r := Ok(updated);
    }

    /** PUT /todos/:id: replace the first entry with the identifier, keeping
        its creation time. */
    method ReplaceTodo(id: string, draft: Draft, now: Time, writeOk: bool) returns (r: Result<Todo>)
      modifies this`stored, seed
      ensures var before := old(Loaded(stored, seed[..]));
              var i := IndexOfId(before, id);
        if i == -1 then
          r == Err(NotFoundMessage) && stored == old(stored) && seed[..] == old(seed[..])
        else
          var after := before[i := Replacement(before[i], id, draft, now)];
          && r == Ok(after[i])
          && stored == (if writeOk then Saved(after) else old(stored))
          && seed[..] == (if old(stored).Saved? then old(seed[..]) else after)
    {
      var todos := GetStoredTodos();
      var i := IndexOfId(todos[..], id);
      if i == -1 {
        return Err(NotFoundMessage);
      }
      var updated := Replacement(todos[i], id, draft, now);
      todos[i] := updated;
      StoreTodos(todos[..], writeOk);
      r := Ok(updated);
    }

    /** DELETE /todos/:id: write back the list without that identifier; an
        absent identifier is not an error. */
    method DeleteTodo(id: string, writeOk: bool)
      modifies this`stored
      ensures stored == if writeOk then Saved(WithoutId(old(Loaded(stored, seed[..])), id)) else old(stored)
    {
      var todos := GetStoredTodos();
      StoreTodos(WithoutId(todos[..], id), writeOk);
    }

    /** DELETE /todos/completed: write back only the entries not completed. */
    method ClearCompleted(writeOk: bool)
      modifies this`stored
      ensures stored == if writeOk then Saved(ActiveTodos(old(Loaded(stored, seed[..])))) else old(stored)
    {
      var todos := GetStoredTodos();
      StoreTodos(ActiveTodos(todos[..]), writeOk);
    }
  }

  // ---------------------------------------------------------------------------
  // Properties of the lists the API computes

  /** With nothing stored, or with a payload that does not parse, a fresh
      module loads the seed as written, and the load does not fail. */
  method LoadFallsBackToSeed(initial: Stored) returns (loaded: seq<Todo>)
    requires !initial.Saved?
    ensures loaded == InitialTodos
  {
    var api := new MockApi(initial);
    loaded := api.GetTodos();
  }

  /** A list that was written successfully is what the next load returns. */
  method StoredListLoadsBack(initial: Stored, todos: seq<Todo>) returns (loaded: seq<Todo>)
    ensures loaded == todos
  {
    var api := new MockApi(initial);
    api.StoreTodos(todos, true);
    loaded := api.GetTodos();
  }

  /** The lookup fails exactly when no entry has the identifier; otherwise it
      finds the first entry that has it. */
  lemma IndexOfIdFindsFirst(todos: seq<Todo>, id: string)
    ensures var i := IndexOfId(todos, id);
      && (i == -1 <==> !TodoContext.HasId(todos, id))
      && (i != -1 ==> 0 <= i < |todos| && todos[i].id == id
                      && forall j :: 0 <= j < i ==> todos[j].id != id)
  {
  }

  /** A successful `updateTodo` rewrites only the first entry with the
      identifier: that entry keeps its identifier and creation time, takes the
      supplied fields, keeps the others, and is stamped with the clock. Every
      other entry, and the length, stay as they were. */
  lemma UpdateRewritesFirstMatchOnly(before: seq<Todo>, id: string, patch: Patch, now: Time)
    requires TodoContext.HasId(before, id)
    ensures var i := IndexOfId(before, id);
            var after := before[i := Merge(before[i], patch, now)];
      && |after| == |before|
      && after[i].id == id && after[i].createdAt == before[i].createdAt && after[i].updatedAt == now
      && after[i].text == (if patch.text.Some? then patch.text.value else before[i].text)
      && after[i].completed == (if patch.completed.Some? then patch.completed.value else before[i].completed)
      && (forall j :: 0 <= j < |before| && j != i ==> after[j] == before[j])
  {
  }

  /** A successful `replaceTodo` takes text and flag from the argument, keeps
      the identifier and the original creation time, stamps the clock, and
      leaves every other entry as it was. */
  lemma ReplaceKeepsIdentity(before: seq<Todo>, id: string, draft: Draft, now: Time)
    requires TodoContext.HasId(before, id)
    ensures var i := IndexOfId(before, id);
            var after := before[i := Replacement(before[i], id, draft, now)];
      && |after| == |before|
      && after[i] == TodoContext.Todo(before[i].id, draft.text, draft.completed, before[i].createdAt, now)
      && (forall j :: 0 <= j < |before| && j != i ==> after[j] == before[j])
  {
  }

  /** `deleteTodo` leaves no entry with the identifier, keeps every other one
      in order, leaves the list as it was exactly when the identifier is
      absent, and a second delete changes nothing. */
  lemma DeleteRemovesAllMatches(todos: seq<Todo>, id: string)
    ensures var r := WithoutId(todos, id);
      && (forall t :: t in r ==> t.id != id)
      && IsSubsequence(r, todos)
      && (forall t :: multiset(r)[t] == if t.id != id then multiset(todos)[t] else 0)
      && (r == todos <==> !TodoContext.HasId(todos, id))
      && WithoutId(r, id) == r
  {
    var p := (todo: Todo) => todo.id != id;
    FilterIsSubsequence(todos, p);
    forall t ensures multiset(Filter(todos, p))[t] == if t.id != id then multiset(todos)[t] else 0 {
      FilterCounts(todos, p, t);
    }
    FilterIsIdentityIff(todos, p);
    FilterIdempotent(todos, p);
  }

  /** `clearCompleted` keeps exactly the entries not completed, in order, and
      a second call changes nothing. */
  lemma ClearKeepsExactlyActive(todos: seq<Todo>)
    ensures var r := ActiveTodos(todos);
      && (forall t :: t in r ==> !t.completed)
      && IsSubsequence(r, todos)
      && (forall t :: multiset(r)[t] == if !t.completed then multiset(todos)[t] else 0)
      && ActiveTodos(r) == r
  {
    var p := (todo: Todo) => !todo.completed;
    FilterIsSubsequence(todos, p);
    forall t ensures multiset(Filter(todos, p))[t] == if !t.completed then multiset(todos)[t] else 0 {
      FilterCounts(todos, p, t);
    }
    FilterIdempotent(todos, p);
  }

  /** Two successive successful `deleteTodo` calls for one identifier leave
      the same stored list as the first one did. */
  method DeleteTwiceStoresOnce(initial: Stored, id: string) returns (once: seq<Todo>, twice: seq<Todo>)
    ensures once == WithoutId(Loaded(initial, InitialTodos), id)
    ensures twice == once
  {
    var api := new MockApi(initial);
    api.DeleteTodo(id, true);
    once := api.GetTodos();
    api.DeleteTodo(id, true);
    twice := api.GetTodos();
    FilterIdempotent(Loaded(initial, InitialTodos), (todo: Todo) => todo.id != id);
  }

  /** The seed has distinct identifiers and ordered timestamps, so the
      timestamp lemma below applies from a fresh module onwards. */
  lemma InitialTodosWellFormed()
    ensures TodoContext.UniqueIds(InitialTodos) && TodoContext.StampsOrdered(InitialTodos)
  {
  }

  /** Every write keeps `updatedAt >= createdAt` when the clock reading is no
      earlier than the rewritten entry's creation. */
  lemma WritesKeepStampsOrdered(before: seq<Todo>, id: string, patch: Patch, draft: Draft, text: string, now: Time)
    requires TodoContext.StampsOrdered(before)
    requires forall j :: 0 <= j < |before| ==> before[j].createdAt <= now
    ensures TodoContext.StampsOrdered(WithNewTodo(before, text, now))
    ensures var i := IndexOfId(before, id);
      i != -1 ==> && TodoContext.StampsOrdered(before[i := Merge(before[i], patch, now)])
                  && TodoContext.StampsOrdered(before[i := Replacement(before[i], id, draft, now)])
    ensures TodoContext.StampsOrdered(WithoutId(before, id)) && TodoContext.StampsOrdered(ActiveTodos(before))
  {
    TodoContext.FilterKeepsStampsOrdered(before, (todo: Todo) => todo.id != id);
    TodoContext.FilterKeepsStampsOrdered(before, (todo: Todo) => !todo.completed);
  }

  /** The seed array is shared, not copied: with nothing stored and the write
      failing, a toggle through `updateTodo` still shows up in the next load,
      which then no longer returns the seed as written. */
  method SeedWriteThrough(now: Time) returns (loaded: seq<Todo>)
    ensures loaded != InitialTodos
    ensures loaded == InitialTodos[0 := Merge(InitialTodos[0], Patch(None, Some(true)), now)]
  {
    var api := new MockApi(Absent);
    var r := api.UpdateTodo("1", Patch(None, Some(true)), now, false);
    loaded := api.GetTodos();
    assert loaded[0].completed != InitialTodos[0].completed;
  }
}
