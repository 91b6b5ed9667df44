/** The to-do store: the entry record, the three-way filter, the reducer that
    turns the state and one dispatched action into the next state, and the
    filtered view the list renders. Every transition builds a new state from
    the old one; nothing is updated in place. */
module TodoContext {
  import opened ArrayOps
  import Ids

  /** Milliseconds since the epoch; the reducer stamps entries with the clock. */
  type Time = nat

  datatype Todo = Todo(id: string, text: string, completed: bool, createdAt: Time, updatedAt: Time)

  datatype FilterType = All | Active | Completed

  datatype TodoState = TodoState(todos: seq<Todo>, filter: FilterType)

  /** The six actions the reducer accepts; payloads as the source types them. */
  datatype TodoAction =
    | AddTodo(text: string)
    | ToggleTodo(id: string)
    | DeleteTodo(id: string)
    | EditTodo(id: string, newText: string)
    | SetFilter(filter: FilterType)
    | ClearCompleted

  /** The record a new entry starts as, when the clock reads `now`. */
  function NewTodo(text: string, now: Time): (r: Todo)
  {
    Todo(Ids.DecimalString(now), text, false, now, now)
  }

  /** Reads the clock only through `now`: one reading serves the whole dispatch. */
  function Reducer(state: TodoState, action: TodoAction, now: Time): (r: TodoState)
  {
    match action
    case AddTodo(text) =>
      state.(todos := [NewTodo(text, now)] + state.todos)
    case ToggleTodo(id) =>
      state.(todos := Map(state.todos, (t: Todo) =>
                            if t.id == id then t.(completed := !t.completed, updatedAt := now) else t))
    case DeleteTodo(id) =>
      state.(todos := Filter(state.todos, (t: Todo) => t.id != id))
    case EditTodo(id, text) =>
      state.(todos := Map(state.todos, (t: Todo) =>
                            if t.id == id then t.(text := text, updatedAt := now) else t))
    case SetFilter(filter) =>
      state.(filter := filter)
    case ClearCompleted =>
      state.(todos := Filter(state.todos, (t: Todo) => !t.completed))
  }

  /** The list the UI shows for the current filter. */
  function FilteredTodos(todos: seq<Todo>, filter: FilterType): (r: seq<Todo>)
  {
    match filter
    case Active => Filter(todos, (t: Todo) => !t.completed)
    case Completed => Filter(todos, (t: Todo) => t.completed)
    case All => todos
  }

  /** The built-in entries the store starts with; dates are read as UTC. */
  const MockTodos: seq<Todo> := [
    Todo("1", "Design the user interface for the todo app", false, 1705312800000, 1705312800000),
    Todo("2", "Implement CRUD operations with Context API", true, 1705224600000, 1705242120000),
    Todo("3", "Add smooth animations and modern styling", false, 1705392900000, 1705392900000),
    Todo("4", "Test the application thoroughly", false, 1705491900000, 1705491900000)
  ]

  const InitialState: TodoState := TodoState(MockTodos, All)

  /** No entry was last updated before it was created. */
  ghost predicate StampsOrdered(todos: seq<Todo>)
  {
    forall i :: 0 <= i < |todos| ==> todos[i].createdAt <= todos[i].updatedAt
  }

  /** No two entries share an identifier. The code does not guarantee this. */
  ghost predicate UniqueIds(todos: seq<Todo>)
  {
    forall i, j :: 0 <= i < j < |todos| ==> todos[i].id != todos[j].id
  }

  /** Some entry carries the identifier. */
  ghost predicate HasId(todos: seq<Todo>, id: string)
  {
    exists i :: 0 <= i < |todos| && todos[i].id == id
  }

  // ---------------------------------------------------------------------------
  // One lemma per action

  /** ADD_TODO puts a fresh, not completed entry with the given text in front
      of the unchanged old list. */
  lemma AddTodoPrepends(state: TodoState, text: string, now: Time)
    ensures var r := Reducer(state, AddTodo(text), now);
      && |r.todos| == |state.todos| + 1
      && r.todos[0].text == text && !r.todos[0].completed
      && r.todos[0].id == Ids.DecimalString(now)
      && r.todos[0].createdAt == r.todos[0].updatedAt == now
      && r.todos[1..] == state.todos
      && r.filter == state.filter
  {
  }

  /** TOGGLE_TODO keeps length, order, identifiers, texts and creation times;
      it flips `completed` and stamps `updatedAt` on exactly the entries with
      the identifier, and leaves every other entry as it was. */
  lemma ToggleTodoFlipsMatches(state: TodoState, id: string, now: Time)
    ensures var r := Reducer(state, ToggleTodo(id), now);
      && |r.todos| == |state.todos|
      && r.filter == state.filter
      && forall i :: 0 <= i < |state.todos| ==>
           var (before, after) := (state.todos[i], r.todos[i]);
           && after.id == before.id && after.text == before.text && after.createdAt == before.createdAt
           && (before.id == id ==> after.completed == !before.completed && after.updatedAt == now)
           && (before.id != id ==> after == before)
  {
  }

  /** Toggling the same identifier twice restores every `completed` flag; only
      the matching entries' `updatedAt` has moved, to the second clock reading. */
  lemma ToggleTwiceRestores(state: TodoState, id: string, now1: Time, now2: Time)
    ensures var r := Reducer(Reducer(state, ToggleTodo(id), now1), ToggleTodo(id), now2);
      && |r.todos| == |state.todos|
      && forall i :: 0 <= i < |state.todos| ==>
           r.todos[i] == if state.todos[i].id == id then state.todos[i].(updatedAt := now2) else state.todos[i]
  {
  }

  /** DELETE_TODO removes every entry with the identifier, keeps every other
      entry (each occurrence) in its relative order, and changes nothing
      exactly when no entry has the identifier. */
  lemma DeleteTodoRemoves(state: TodoState, id: string, now: Time)
    ensures var r := Reducer(state, DeleteTodo(id), now);
      && (forall t :: t in r.todos ==> t.id != id)
      && IsSubsequence(r.todos, state.todos)
      && (forall t :: multiset(r.todos)[t] == if t.id != id then multiset(state.todos)[t] else 0)
      && (r.todos == state.todos <==> !HasId(state.todos, id))
      && r.filter == state.filter
  {
    var p := (t: Todo) => t.id != id;
    FilterIsSubsequence(state.todos, p);
    forall t ensures multiset(Filter(state.todos, p))[t] == if t.id != id then multiset(state.todos)[t] else 0 {
      FilterCounts(state.todos, p, t);
    }
    FilterIsIdentityIff(state.todos, p);
  }

  /** EDIT_TODO keeps length, order, identifiers, creation times and every
      `completed` flag; it sets the text and stamps `updatedAt` on exactly the
      entries with the identifier. */
  lemma EditTodoSetsText(state: TodoState, id: string, text: string, now: Time)
    ensures var r := Reducer(state, EditTodo(id, text), now);
      && |r.todos| == |state.todos|
      && r.filter == state.filter
      && forall i :: 0 <= i < |state.todos| ==>
           var (before, after) := (state.todos[i], r.todos[i]);
           && after.id == before.id && after.completed == before.completed && after.createdAt == before.createdAt
           && (before.id == id ==> after.text == text && after.updatedAt == now)
           && (before.id != id ==> after == before)
  {
  }

  /** SET_FILTER changes the filter and nothing else; no other action changes the filter. */
  lemma OnlySetFilterChangesFilter(state: TodoState, action: TodoAction, now: Time)
    ensures var r := Reducer(state, action, now);
      && (action.SetFilter? ==> r.todos == state.todos && r.filter == action.filter)
      && (!action.SetFilter? ==> r.filter == state.filter)
  {
  }

  /** CLEAR_COMPLETED keeps exactly the entries that are not completed, in
      their order, and a second application changes nothing. */
  lemma ClearCompletedKeepsActive(state: TodoState, now1: Time, now2: Time)
    ensures var r := Reducer(state, ClearCompleted, now1);
      && (forall t :: t in r.todos ==> !t.completed)
      && IsSubsequence(r.todos, state.todos)
      && (forall t :: multiset(r.todos)[t] == if !t.completed then multiset(state.todos)[t] else 0)
      && Reducer(r, ClearCompleted, now2) == r
  {
    var p := (t: Todo) => !t.completed;
    FilterIsSubsequence(state.todos, p);
    forall t ensures multiset(Filter(state.todos, p))[t] == if !t.completed then multiset(state.todos)[t] else 0 {
      FilterCounts(state.todos, p, t);
    }
    FilterIdempotent(state.todos, p);
  }

  // ---------------------------------------------------------------------------
  // The filtered view

  /** Under `all` the view is the list itself; under `active` and `completed`
      it is an order-preserving selection holding exactly the entries whose
      `completed` flag matches, each as often as in the list. */
  lemma FilteredTodosSelects(todos: seq<Todo>, filter: FilterType)
    ensures var v := FilteredTodos(todos, filter);
      && (filter == All ==> v == todos)
      && IsSubsequence(v, todos)
      && (filter == Active ==> forall t :: multiset(v)[t] == if !t.completed then multiset(todos)[t] else 0)
      && (filter == Completed ==> forall t :: multiset(v)[t] == if t.completed then multiset(todos)[t] else 0)
  {
    match filter
    case All =>
      SubsequenceReflexive(todos);
    case Active =>
      var p := (t: Todo) => !t.completed;
      FilterIsSubsequence(todos, p);
      forall t ensures multiset(Filter(todos, p))[t] == if !t.completed then multiset(todos)[t] else 0 {
        FilterCounts(todos, p, t);
      }
    case Completed =>
      var p := (t: Todo) => t.completed;
      FilterIsSubsequence(todos, p);
      forall t ensures multiset(Filter(todos, p))[t] == if t.completed then multiset(todos)[t] else 0 {
        FilterCounts(todos, p, t);
      }
  }

  lemma {:induction false} SubsequenceReflexive(s: seq<Todo>)
    ensures IsSubsequence(s, s)
  {
    if s != [] {
      SubsequenceReflexive(s[1..]);
    }
  }

  /** The active view and the completed view together hold every entry. */
  lemma ActivePlusCompletedIsTotal(todos: seq<Todo>)
    ensures |FilteredTodos(todos, Active)| + |FilteredTodos(todos, Completed)| == |todos|
  {
    FilterPartition(todos, (t: Todo) => !t.completed, (t: Todo) => t.completed);
  }

  // ---------------------------------------------------------------------------
  // Timestamps

  /** With a clock reading no earlier than any entry's creation, every action
      keeps `updatedAt >= createdAt` on every entry. */
  lemma ReducerKeepsStampsOrdered(state: TodoState, action: TodoAction, now: Time)
    requires StampsOrdered(state.todos)
    requires forall i :: 0 <= i < |state.todos| ==> state.todos[i].createdAt <= now
    ensures StampsOrdered(Reducer(state, action, now).todos)
  {
    match action
    case DeleteTodo(id) =>
      FilterKeepsStampsOrdered(state.todos, (t: Todo) => t.id != id);
    case ClearCompleted =>
      FilterKeepsStampsOrdered(state.todos, (t: Todo) => !t.completed);
    case _ =>
  }

  lemma FilterKeepsStampsOrdered(todos: seq<Todo>, p: Todo -> bool)
    requires StampsOrdered(todos)
    ensures StampsOrdered(Filter(todos, p))
  {
  }

  /** The initial state shows the built-in entries unfiltered; they have
      distinct identifiers and ordered timestamps. */
  lemma InitialStateWellFormed()
    ensures FilteredTodos(InitialState.todos, InitialState.filter) == MockTodos
    ensures UniqueIds(MockTodos) && StampsOrdered(MockTodos)
  {
  }
}
