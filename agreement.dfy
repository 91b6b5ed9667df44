/** How the reducer and the mock back end relate. They filter by the same
    predicates, so deleting and clearing agree. Toggling and editing agree
    with `updateTodo` only while identifiers are unique: the reducer rewrites
    every entry with the identifier, `updateTodo` only the first. */
module Agreement {
  import opened TodoContext
  import Ids
  import TodoApi

  /** `deleteTodo` stores the list DELETE_TODO leaves, whatever the filter or clock. */
  lemma DeleteAgrees(todos: seq<Todo>, filter: FilterType, id: string, now: Time)
    ensures TodoApi.WithoutId(todos, id) == Reducer(TodoState(todos, filter), DeleteTodo(id), now).todos
  {
  }

  /** `clearCompleted` stores the list CLEAR_COMPLETED leaves. */
  lemma ClearCompletedAgrees(todos: seq<Todo>, filter: FilterType, now: Time)
    ensures TodoApi.ActiveTodos(todos) == Reducer(TodoState(todos, filter), ClearCompleted, now).todos
  {
  }

  /** `createTodo` stores the list ADD_TODO leaves, given the same clock reading. */
  lemma CreateAgrees(todos: seq<Todo>, filter: FilterType, text: string, now: Time)
    ensures TodoApi.WithNewTodo(todos, text, now) == Reducer(TodoState(todos, filter), AddTodo(text), now).todos
  {
  }

  /** With unique identifiers, the toggle a list item sends through
      `updateTodo` (`{completed: !todo.completed}`) stores the list
      TOGGLE_TODO leaves; when the identifier is absent `updateTodo` fails
      while TOGGLE_TODO changes nothing. */
  lemma ToggleAgreesWhenIdsUnique(todos: seq<Todo>, filter: FilterType, id: string, now: Time)
    requires UniqueIds(todos)
    ensures var i := TodoApi.IndexOfId(todos, id);
            var reduced := Reducer(TodoState(todos, filter), ToggleTodo(id), now).todos;
      if i == -1 then reduced == todos
      else reduced == todos[i := TodoApi.Merge(todos[i], TodoApi.Patch(TodoApi.None, TodoApi.Some(!todos[i].completed)), now)]
  {
  }

  /** With unique identifiers, saving an edit through `updateTodo`
      (`{text}`) stores the list EDIT_TODO leaves. */
  lemma EditAgreesWhenIdsUnique(todos: seq<Todo>, filter: FilterType, id: string, text: string, now: Time)
    requires UniqueIds(todos)
    ensures var i := TodoApi.IndexOfId(todos, id);
            var reduced := Reducer(TodoState(todos, filter), EditTodo(id, text), now).todos;
      if i == -1 then reduced == todos
      else reduced == todos[i := TodoApi.Merge(todos[i], TodoApi.Patch(TodoApi.Some(text), TodoApi.None), now)]
  {
  }

  /** Two entries created in the same millisecond share an identifier; then
      TOGGLE_TODO flips both while `updateTodo` flips only the first. */
  lemma DuplicateIdsDiverge(now: Time)
    ensures var twins := [NewTodo("a", now), NewTodo("b", now)];
            var reduced := Reducer(TodoState(twins, All), ToggleTodo(Ids.DecimalString(now)), now).todos;
            var i := TodoApi.IndexOfId(twins, Ids.DecimalString(now));
      && i == 0
      && reduced[0].completed && reduced[1].completed
      && var patched := twins[i := TodoApi.Merge(twins[i], TodoApi.Patch(TodoApi.None, TodoApi.Some(true)), now)];
         patched[0].completed && !patched[1].completed
  {
  }
}
