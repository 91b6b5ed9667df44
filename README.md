# To-do list store and mock back end, in Dafny

This project models the two parts of the to-do application that hold its logic.

- **The store's reducer and filtered view** (`src/contexts/TodoContext.tsx`). A `Todo` record has an id, a text, a `completed` flag and two timestamps. A `FilterType` is `all`, `active` or `completed`. The reducer is a total function from the state and one of six actions (add, toggle, delete, edit, set-filter, clear-completed) to the next state. `getFilteredTodos` derives the visible list. The model is pure: module `TodoContext` has datatypes, the functions `Reducer` and `FilteredTodos`, and one lemma per action.
- **The mock persistence API** (`src/services/todoApi.ts`). One localStorage entry holds the whole list. Every call loads it. Every call except `getTodos` then computes a new list and writes that back; `getTodos` only returns the loaded list. Module `TodoApi` has a class `MockApi` with two fields:
  - `stored` is the storage entry: absent, unreadable, or a saved list.
  - `seed` is the module's `initialTodos` array.

  Each API call is a method that modifies these fields. The lists the calls compute are pure functions, with lemmas about them.

Module `ArrayOps` gives sequence versions of the JavaScript `map`, `filter` and `findIndex` that both components build their lists with. Module `Ids` models `Date.now().toString()`, the way both components name a new entry. Module `Agreement` relates the two components.

The clock is an explicit parameter `now`, in milliseconds since the epoch. A failed `localStorage.setItem` is an explicit parameter `writeOk`. When the write fails, the stored entry is left as it was. The call's result is not affected.

The seed is shared, not copied. When nothing readable is stored, `getStoredTodos` returns the `initialTodos` array itself. `updateTodo` and `replaceTodo` then assign into that array in place (`todos[todoIndex] = updatedTodo`), so they also change the seed. The model keeps this aliasing: `GetStoredTodos` returns the `seed` array when nothing is stored. The contracts of `UpdateTodo` and `ReplaceTodo` state when `seed` changes. `SeedWriteThrough` shows one effect: with nothing stored and the write failing, an update still shows up in the next load.

Three points about the code shape the model:
- The store in the code is the synchronous reducer over an in-memory list. It starts from built-in entries with the filter `all`. It has no `loading` flag and never calls the API.
- `updateTodo` changes only the FIRST entry with the id (`findIndex`). The reducer's toggle and edit change EVERY entry with the id (`map`).
- Ids are not guaranteed unique. Two entries created in the same millisecond share one (`Ids.IdsCollideIffSameMillisecond`, `Agreement.DuplicateIdsDiverge`).

## Model

| member | source | states |
|---|---|---|
| `Ids.DecimalString` | src/contexts/TodoContext.tsx:71 | a new entry's id is a non-empty string of decimal digits with no leading zero |
| `Ids.IdsCollideIffSameMillisecond` | src/services/todoApi.ts:82 | two clock readings give the same id exactly when they are the same millisecond, so ids are unique only if no two entries are created in the same millisecond |
| `ArrayOps.FindIndex` | src/services/todoApi.ts:98 | the result is -1 exactly when no element matches; otherwise the element there matches and none before it does |
| `TodoContext.AddTodoPrepends` | src/contexts/TodoContext.tsx:69-81 | ADD_TODO gives a list one longer. Its head has the payload text, `completed = false`, the clock-derived id and `createdAt = updatedAt = now`. The old list follows unchanged and the filter is untouched |
| `TodoContext.ToggleTodoFlipsMatches` | src/contexts/TodoContext.tsx:83-91 | TOGGLE_TODO keeps length, order, ids, texts and creation times. On exactly the entries with the id it negates `completed` and sets `updatedAt` to the clock. Every other entry stays identical |
| `TodoContext.ToggleTwiceRestores` | src/contexts/TodoContext.tsx:83-91 | toggling one id twice restores every entry except the matching entries' `updatedAt`, which is now the second clock reading |
| `TodoContext.DeleteTodoRemoves` | src/contexts/TodoContext.tsx:93-97 | DELETE_TODO leaves no entry with the id. It keeps every other entry, each as often as before, in its relative order. The list is unchanged exactly when no entry has the id |
| `TodoContext.EditTodoSetsText` | src/contexts/TodoContext.tsx:99-107 | EDIT_TODO keeps length, order, ids, creation times and every `completed` flag. It sets the text and `updatedAt` on exactly the entries with the id |
| `TodoContext.OnlySetFilterChangesFilter` | src/contexts/TodoContext.tsx:109-113 | SET_FILTER changes the filter and leaves the list; every other action leaves the filter |
| `TodoContext.ClearCompletedKeepsActive` | src/contexts/TodoContext.tsx:115-119 | CLEAR_COMPLETED keeps exactly the entries that are not completed, each as often as before and in order. Applying it again changes nothing |
| `TodoContext.FilteredTodosSelects` | src/contexts/TodoContext.tsx:126-135 | under `all` the view is the list itself. Under `active` or `completed` it is an order-preserving subsequence holding exactly the entries with the matching flag, each as often as in the list |
| `TodoContext.ActivePlusCompletedIsTotal` | src/contexts/TodoContext.tsx:126-135 | the `active` view's length plus the `completed` view's length is the list's length |
| `TodoContext.ReducerKeepsStampsOrdered` | src/contexts/TodoContext.tsx:67-124 | if every entry has `updatedAt >= createdAt` and the clock is no earlier than any creation time, every action keeps `updatedAt >= createdAt` |
| `TodoContext.InitialStateWellFormed` | src/contexts/TodoContext.tsx:36-65 | the initial state `{todos: mockTodos, filter: 'all'}` (src/contexts/TodoContext.tsx:138-141) shows the built-in entries unfiltered; their ids are distinct and their timestamps ordered |
| `TodoApi.LoadFallsBackToSeed` | src/services/todoApi.ts:39-55 | on a fresh module with nothing stored, or with a payload that does not parse, loading returns the seed as written and does not fail |
| `TodoApi.StoredListLoadsBack` | src/services/todoApi.ts:57-59 | after a successful write of a list, the next load returns that list |
| `TodoApi.IndexOfIdFindsFirst` | src/services/todoApi.ts:98-102 | the lookup reports not found exactly when no entry has the id; otherwise it finds the first entry that has it |
| `TodoApi.UpdateRewritesFirstMatchOnly` | src/services/todoApi.ts:104-110 | a successful update rewrites only the first entry with the id. That entry keeps its id and `createdAt`, takes each supplied field, keeps each field not supplied, and gets `updatedAt = now`. The length and every other entry stay the same |
| `TodoApi.ReplaceKeepsIdentity` | src/services/todoApi.ts:126-133 | a successful replace keeps the id and the original `createdAt`, takes text and flag from the argument, sets `updatedAt = now` and leaves every other entry |
| `TodoApi.DeleteRemovesAllMatches` | src/services/todoApi.ts:140-146 | the list written by a delete has no entry with the id and keeps every other entry in order. It equals the loaded list exactly when the id is absent, and deleting again changes nothing |
| `TodoApi.ClearKeepsExactlyActive` | src/services/todoApi.ts:149-155 | the list written by a clear keeps exactly the entries that are not completed, in order; clearing again changes nothing |
| `TodoApi.DeleteTwiceStoresOnce` | src/services/todoApi.ts:140-146 | two successive successful `deleteTodo` calls for one id leave the same loaded list as the first, which is the starting list without that id |
| `TodoApi.InitialTodosWellFormed` | src/services/todoApi.ts:7-36 | the seed entries have distinct ids and `updatedAt >= createdAt` |
| `TodoApi.WritesKeepStampsOrdered` | src/services/todoApi.ts:80-155 | create, update, replace, delete and clear all keep `updatedAt >= createdAt` when the clock is no earlier than any creation time |
| `TodoApi.SeedWriteThrough` | src/services/todoApi.ts:110 | with nothing stored and the write failing, an update to entry "1" still shows up in the next load, which then differs from the seed as written |
| `TodoApi.MockApi.constructor` | src/services/todoApi.ts:7-36 | the seed array holds the four built-in entries; the storage entry is whatever the browser had |
| `TodoApi.MockApi.GetStoredTodos` | src/services/todoApi.ts:39-55 | the result holds the loaded list. It is a new array when a list is saved, and the seed array itself otherwise |
| `TodoApi.MockApi.StoreTodos` | src/services/todoApi.ts:57-63 | a successful write stores the list; a failed write leaves the storage entry as it was |
| `TodoApi.MockApi.GetTodos` | src/services/todoApi.ts:70-75 | returns the loaded list and writes nothing |
| `TodoApi.MockApi.CreateTodo` | src/services/todoApi.ts:78-92 | the returned entry has the given text and is not completed. The stored list becomes that entry followed by the previously loaded list |
| `TodoApi.MockApi.UpdateTodo` | src/services/todoApi.ts:95-114 | if no entry has the id: fails with "Todo not found", writes nothing and leaves the seed. Otherwise: returns the merged first match, stores the loaded list with only that entry replaced, and changes the seed exactly when the list came from it |
| `TodoApi.MockApi.ReplaceTodo` | src/services/todoApi.ts:117-137 | fails the same way as an update when the id is absent; otherwise writes the replacement into the first match and returns it |
| `TodoApi.MockApi.DeleteTodo` | src/services/todoApi.ts:140-146 | stores the loaded list without the id; never fails |
| `TodoApi.MockApi.ClearCompleted` | src/services/todoApi.ts:149-155 | stores the loaded list without its completed entries |
| `Agreement.DeleteAgrees` | src/services/todoApi.ts:143 | the list `deleteTodo` writes is the list DELETE_TODO (src/contexts/TodoContext.tsx:96) leaves |
| `Agreement.ClearCompletedAgrees` | src/services/todoApi.ts:152 | the list `clearCompleted` writes is the list CLEAR_COMPLETED (src/contexts/TodoContext.tsx:118) leaves |
| `Agreement.CreateAgrees` | src/services/todoApi.ts:81-88 | with the same clock reading, the list `createTodo` writes (`WithNewTodo`) is the list ADD_TODO leaves |
| `Agreement.ToggleAgreesWhenIdsUnique` | src/contexts/TodoContext.tsx:83-91 | with unique ids, the toggle sent through `updateTodo` writes the list TOGGLE_TODO leaves. When the id is absent, TOGGLE_TODO changes nothing; the failure of `updateTodo` in that case is stated by `TodoApi.MockApi.UpdateTodo` |
| `Agreement.EditAgreesWhenIdsUnique` | src/contexts/TodoContext.tsx:99-107 | with unique ids, an edit sent through `updateTodo` writes the list EDIT_TODO leaves |
| `Agreement.DuplicateIdsDiverge` | src/services/todoApi.ts:98 | two entries created in the same millisecond share an id. TOGGLE_TODO then flips both, while `updateTodo` flips only the first |

## Left out

- The simulated network delay (`delay`, `await`) is left out, and every API call is synchronous. Races between interleaved calls are concurrency and not modelled.
- `console.log` and `console.error` are left out.
- localStorage is abstracted. Its string payload, `JSON.stringify`/`JSON.parse` and the rebuilding of dates are not modelled. A stored list is taken to load back as itself.
- Payloads that are not a list of entries are handled as follows:
  - one that parses to something other than an array is modelled as unreadable, since `.map` throws and the seed is used;
  - an array with a `null` element makes the read of `createdAt` throw, so the seed is used; it is modelled as unreadable;
  - an array whose elements are non-null values but not entries (for example `[1]` or `[{}]`) is read without error in the source, and is not modelled.
- The clock is read once per dispatch or call. The source reads `Date.now()` for the id, and `new Date()` separately for each timestamp and for each matched entry. These readings can differ by a millisecond tick.
- Timestamps are integers. The seed dates are converted as UTC; the source parses them in the browser's local time zone.
- `TodoApi.Patch`: an update can supply only `text` and `completed`. An `updatedAt` in the update is overwritten by the source anyway. A field given explicitly as `undefined`, which the spread would copy, is not modelled.
- `TodoApi.MockApi.GetTodos` returns the list's value, not the array reference, so a caller cannot write into the seed through it. No caller in the source does so.
- The reducer's `default` branch is not modelled: the action type is a closed union, so the branch cannot be reached.
- React plumbing is left out: the context object, `useReducer`, and `useTodo` throwing outside a provider. Only the initial state is modelled.
- The components are presentation and are left out. So are their guards: input is trimmed and must be non-empty before an add, and trimmed, non-empty and changed before an edit. The reducer and the API accept any text, as their code does.
- The display of counts and dates (`TodoStats`, `formatDate`) is left out.
- The async store that the components expect is not in the code, so it is not modelled. That store would provide `addTodo` (src/components/TodoInput.tsx:68), `updateTodo` and `deleteTodo` (src/components/TodoItem.tsx:134) and the `loading` flag (src/components/TodoInput.tsx:91).
- Id uniqueness is not proved, because the code does not guarantee it. The lemmas that need it take it as a precondition.
