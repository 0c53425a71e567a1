# Todo list: client state and server store rules

A model of the two places where the todo application has logic of its own:

- the task list screen of the React Native client (`HomeScreen.tsx`): the ordered list
  of tasks it holds, the dialog state, and how each handler (`fetchTodos`, `addTodo`,
  `toggleTodo`, `deleteTodo`) changes that state once its API call has resolved or
  rejected; the category view it renders; the colour each priority is drawn in;
- the Express controller of the backend (`todoController.js`): how `createTodo`
  fills in defaults, and how `updateTodo` and `deleteTodo` look the id up, answer 404
  when it is missing, and otherwise change exactly one row.

Modules:

- `TodoModel` (todo_model.dfy): the `Todo` record with the fields the client's interface
  and the Sequelize model declare (minus timestamps, and with `priority` any string), the column defaults
  (`completed` false, category `general`, priority `medium`), the client's lists of
  priorities and categories, and the create and update request bodies, where an
  absent key is `None`.
- `ListOps` (list_ops.dfy): `Array.prototype.filter` and `Array.prototype.map` on
  sequences, with the facts the handlers rely on: filtering keeps exactly the matching
  elements with their multiplicity, keeps their order (it distributes over
  concatenation) and is idempotent.
- `JsText` (js_text.dfy): `String.prototype.trim` as ECMA-262 defines it (the
  WhiteSpace and LineTerminator code points), and "blank" as "trims to the empty
  string", which happens exactly when every code point is trimmable.
- `HomeScreen` (home_screen.dfy): the pure side of the screen (the list each handler
  builds, the category view, the priority colour, the enabled state of the Add button)
  and the class `Screen` holding the component's state fields. Each handler is a
  method whose API outcome is a parameter (`Success(data)` or `Failure`). Each handler
  returns the toast it shows, as a tag. `AddTodo` and `ToggleTodo` also return the
  request body they send; `FetchTodos` and `DeleteTodo` send no body and return only
  the toast.
- `TodoController` (todo_controller.dfy): the `||` defaulting, the row a create
  inserts, the row an update produces, and the class `TodoStore` whose field `rows`
  maps primary keys to rows. Each handler is a method that returns the status code and
  JSON body; an exception thrown by the ORM at a given `await` is a parameter carrying
  its message.
- `Sync` (sync.dfy): the claim that the client's list mirrors the table (each stored
  row exactly once, as stored). A successful fetch establishes it, and a create,
  toggle or delete that succeeds on both sides keeps it. A toggle flips `completed`
  and nothing else. The dialog's selections survive the server's defaults. Three
  round-trip methods drive a `Screen` and a `TodoStore` together using only the
  contracts of their methods.

`screens/HomeScreen.tsx` has no search, no split into active and completed lists, no
swipe navigation between categories and no edit dialog. Those features are in the
other screen, `todo-app-frontend/app/(tabs)/index.tsx`, which is not part of this
model (see "## Left out"). `HomeScreen.tsx` sends the title to the server untrimmed:
only the blank check uses `trim()`.

## Model

| member | source | states |
|---|---|---|
| ListOps.Filter | todo-app-frontend/screens/HomeScreen.tsx:103 | the result is no longer than the input and every element of it satisfies the predicate |
| ListOps.Map | todo-app-frontend/screens/HomeScreen.tsx:92 | same length as the input, element i is f applied to input element i |
| ListOps.FilterConcat | todo-app-frontend/screens/HomeScreen.tsx:103 | filtering a concatenation is the concatenation of the filtered parts, so kept elements keep their relative order |
| ListOps.FilterMembership | todo-app-frontend/screens/HomeScreen.tsx:121 | x is in the result iff x is in the input and satisfies the predicate |
| ListOps.FilterMultiplicity | todo-app-frontend/screens/HomeScreen.tsx:103 | a matching element keeps its multiplicity; a non-matching one has multiplicity 0 |
| ListOps.FilterKeepsAll | todo-app-frontend/screens/HomeScreen.tsx:103 | when every element matches, the filter returns its input |
| ListOps.FilterIdempotent | todo-app-frontend/screens/HomeScreen.tsx:121 | filtering twice with one predicate equals filtering once |
| JsText.TrimStart | todo-app-frontend/screens/HomeScreen.tsx:70 | the result is a suffix of the input; everything dropped is trimmable, and the result is empty or starts with a non-trimmable code point |
| JsText.TrimEnd | todo-app-frontend/screens/HomeScreen.tsx:70 | the result is a prefix of the input; everything dropped is trimmable, and the result is empty or ends with a non-trimmable code point |
| JsText.Trim | todo-app-frontend/screens/HomeScreen.tsx:70 | the result is a contiguous slice of the input; everything dropped before and after it is trimmable, and the result is empty or starts and ends with a non-trimmable code point |
| JsText.IsBlank | todo-app-frontend/screens/HomeScreen.tsx:70 | `!newTodo.trim()` holds iff trimming the leading whitespace alone already empties the string |
| JsText.BlankIffAllTrimmable | todo-app-frontend/screens/HomeScreen.tsx:70 | a title is blank (trims to "") iff every code point of it is WhiteSpace or LineTerminator |
| HomeScreen.PriorityColor | todo-app-frontend/screens/HomeScreen.tsx:110-117 | error colour iff "high", success colour iff "low", the tint for "medium" and for any other string |
| HomeScreen.PriorityColorsDistinct | todo-app-frontend/screens/HomeScreen.tsx:110-117 | the three priorities get three different colours |
| HomeScreen.UnknownPriorityLooksMedium | todo-app-frontend/screens/HomeScreen.tsx:115 | a priority outside low/medium/high is drawn in the same colour as "medium" |
| HomeScreen.AddButtonEnabled | todo-app-frontend/screens/HomeScreen.tsx:310 | the Add button is enabled iff the text holds a code point that trim keeps |
| HomeScreen.ToggleBody | todo-app-frontend/screens/HomeScreen.tsx:89-91 | the toggle's update body sets `completed` to the negation of the tapped record's flag and leaves title, category and priority absent |
| HomeScreen.ReplaceById | todo-app-frontend/screens/HomeScreen.tsx:92 | length kept; every entry with the id becomes the new record, every other entry stays at its position unchanged |
| HomeScreen.ReplaceAbsentId | todo-app-frontend/screens/HomeScreen.tsx:92 | replacing an id not in the list leaves the list as it was |
| HomeScreen.ReplaceKeepsUniqueIds | todo-app-frontend/screens/HomeScreen.tsx:92 | a replacement with the same id keeps the ids unique and the id set unchanged |
| HomeScreen.RemoveById | todo-app-frontend/screens/HomeScreen.tsx:103 | no entry of the result has the removed id, and the result is no longer than the input |
| HomeScreen.RemoveExactly | todo-app-frontend/screens/HomeScreen.tsx:103 | an entry is kept iff its id differs; kept entries keep their multiplicity, entries with the id have none |
| HomeScreen.RemoveKeepsOrder | todo-app-frontend/screens/HomeScreen.tsx:103 | removal on a concatenation is removal on each part, so the rest keep their relative order |
| HomeScreen.RemoveAbsentId | todo-app-frontend/screens/HomeScreen.tsx:103 | removing an id not in the list leaves the list unchanged |
| HomeScreen.RemoveKeepsUniqueIds | todo-app-frontend/screens/HomeScreen.tsx:103 | removal keeps ids unique and removes exactly that id from the id set |
| HomeScreen.CategoryView | todo-app-frontend/screens/HomeScreen.tsx:119-121 | `all` shows the whole list; any other selection shows only entries of that category |
| HomeScreen.CategoryViewExactly | todo-app-frontend/screens/HomeScreen.tsx:119-121 | for a specific category, an entry is shown iff it is in the list with that category, as often as it occurs there |
| HomeScreen.CategoryViewKeepsOrder | todo-app-frontend/screens/HomeScreen.tsx:119-121 | the view of a concatenation is the concatenation of the views: list order is kept |
| HomeScreen.CategoryViewIdempotent | todo-app-frontend/screens/HomeScreen.tsx:119-121 | applying the same category view twice equals applying it once |
| HomeScreen.Screen.constructor | todo-app-frontend/screens/HomeScreen.tsx:29-36 | empty list, empty text, loading, not refreshing, `all` selected, dialog closed, dialog on `general` / `medium` |
| HomeScreen.Screen.FetchTodos | todo-app-frontend/screens/HomeScreen.tsx:57-67 | success replaces the list with the response, failure keeps it and shows the fetch error toast; both spinners end off; nothing else changes |
| HomeScreen.Screen.OnRefresh | todo-app-frontend/screens/HomeScreen.tsx:220-224 | pull to refresh ends like a fetch: list per outcome, both spinners off |
| HomeScreen.Screen.AddTodo | todo-app-frontend/screens/HomeScreen.tsx:69-84 | no request iff the text is blank, and then nothing changes; the request carries the untrimmed text and the selected category and priority; success puts the record at index 0 with the old list as the rest, clears the text and closes the dialog; failure changes nothing but the toast |
| HomeScreen.Screen.ToggleTodo | todo-app-frontend/screens/HomeScreen.tsx:86-97 | the request for the tapped id carries only `completed = !todo.completed`; success replaces the matching entries by the returned record, failure keeps the list; the toast follows the tapped record's flag |
| HomeScreen.Screen.DeleteTodo | todo-app-frontend/screens/HomeScreen.tsx:99-108 | success removes the entries with that id, failure keeps the list; success and error toasts |
| HomeScreen.Screen.OpenModal | todo-app-frontend/screens/HomeScreen.tsx:229 | the floating button opens the dialog and changes nothing else |
| HomeScreen.Screen.CloseModal | todo-app-frontend/screens/HomeScreen.tsx:301 | Cancel closes the dialog; its text is kept |
| HomeScreen.Screen.EditNewTodo | todo-app-frontend/screens/HomeScreen.tsx:255-256 | typing sets the dialog text and nothing else |
| HomeScreen.Screen.SelectCategory | todo-app-frontend/screens/HomeScreen.tsx:192-210 | a list chip selects `all` or one of the categories |
| HomeScreen.Screen.SelectNewTodoCategory | todo-app-frontend/screens/HomeScreen.tsx:264-274 | a dialog chip selects one of the categories for the new task |
| HomeScreen.Screen.SelectNewTodoPriority | todo-app-frontend/screens/HomeScreen.tsx:281-294 | a dialog chip selects one of the priorities for the new task |
| TodoController.OrDefault | todo-app-backend/controllers/todoController.js:22-23 | a missing value or "" yields the fallback; any other string is kept |
| TodoController.NewRecord | todo-app-backend/controllers/todoController.js:20-24 | the new row has the given id and title, `completed` false, the defaulted category and priority, neither of them ever empty |
| TodoController.ApplyUpdate | todo-app-backend/controllers/todoController.js:37 | the id is kept; each field given in the body replaces the old value and each absent field keeps it |
| TodoController.ApplyUpdateIdempotent | todo-app-backend/controllers/todoController.js:37 | sending the same update twice gives the same row as sending it once |
| TodoController.EmptyUpdateKeepsRow | todo-app-backend/controllers/todoController.js:37 | an update with an empty body leaves the row unchanged |
| TodoController.Listing | todo-app-backend/controllers/todoController.js:5-11 | one entry per listed key, the stored row for that key, in the database's order |
| TodoController.TodoStore.constructor | todo-app-backend/models/Todo.js:4-26 | the table starts empty, with every row stored under its own key |
| TodoController.TodoStore.GetTodos | todo-app-backend/controllers/todoController.js:3-15 | 200 with every stored row once, in the given order, or 500 with the thrown message |
| TodoController.TodoStore.CreateTodo | todo-app-backend/controllers/todoController.js:17-29 | 201 with the defaulted row under the fresh key, all other rows unchanged; 500 with the message and the table unchanged when the insert throws |
| TodoController.TodoStore.UpdateTodo | todo-app-backend/controllers/todoController.js:31-42 | 404 "Todo not found" and no change for an absent id; 200 with the updated row, changing that key only; 500 and no change on a throw |
| TodoController.TodoStore.DeleteTodo | todo-app-backend/controllers/todoController.js:44-54 | 404 and no change for an absent id; 204 with no body after removing exactly that key; 500 and no change on a throw |
| Sync.FetchedListMirrors | todo-app-frontend/screens/HomeScreen.tsx:59-60 | the list a successful getTodos delivers holds every stored row exactly once, as stored |
| Sync.CreateKeepsMirror | todo-app-frontend/screens/HomeScreen.tsx:73-77 | inserting the created row under a fresh key and prepending it to a mirroring list keeps the mirror |
| Sync.ReplaceKeepsMirror | todo-app-frontend/screens/HomeScreen.tsx:89-92 | replacing a stored row in the table and in the list keeps the mirror |
| Sync.UpdateKeepsMirror | todo-app-backend/controllers/todoController.js:35-38 | a successful update followed by the client's replacement keeps the mirror |
| Sync.DeleteKeepsMirror | todo-app-frontend/screens/HomeScreen.tsx:102-103 | removing a key from the table and its entries from the list keeps the mirror |
| Sync.ToggleFlipsOnlyCompleted | todo-app-frontend/screens/HomeScreen.tsx:89-92 | the server applies the toggle body to the stored row by flipping `completed` alone; the entry stays at its index and all other entries are unchanged |
| Sync.ToggleKeepsCategoryView | todo-app-frontend/screens/HomeScreen.tsx:119-121 | a task whose flag was flipped in place is shown under a category iff it was shown there before |
| Sync.DialogSelectionsSurviveDefaults | todo-app-backend/controllers/todoController.js:20-24 | a request made from the dialog's chips is stored with exactly the chosen category and priority, `completed` false |
| Sync.DialogStartsOnServerDefaults | todo-app-frontend/screens/HomeScreen.tsx:35-36 | the dialog's initial category and priority are the ones the server would fill in anyway |
| Sync.AddRoundTrip | todo-app-frontend/screens/HomeScreen.tsx:69-84 | a blank text changes nothing: list, table, text and dialog stay as they were; otherwise the row `(freshId, text, false, category, priority)` is put first in the list, the table gains exactly that key with that row, the text is cleared and the dialog closed; in both cases the list still mirrors the table |
| Sync.ToggleRoundTrip | todo-app-frontend/screens/HomeScreen.tsx:86-97 | a toggle that succeeds end to end flips only that entry's flag, in place, and the list still mirrors the table |
| Sync.DeleteRoundTrip | todo-app-frontend/screens/HomeScreen.tsx:99-108 | after a delete the id is in neither the table nor the list, and the list still mirrors the table |

## Left out

- Rendering, styles, animations, haptics and the toast component: the toasts are tags
  (`Toast`) and the theme colours are roles (`ColorRole`), not hex values.
- HomeScreen.Screen.AddTodo: the haptic feedback call awaited before each request can
  also reject into the same `catch`; its failure is part of the `Failure` outcome
  rather than a separate case. In that case no request leaves the client, and the
  returned request is the one the handler would have sent. The same holds for
  ToggleTodo and DeleteTodo.
- The loading gate of the render (the spinner shown while `loading` is true) is
  rendering and is not modelled beyond the `loading` field.
- Overlapping requests and handlers that close over a stale `todos` array: each
  handler is one atomic step on the current state.
- The HTTP client, the URL and JSON encoding, and the parsing of `:id` from the path:
  ids are integers on both sides, and the model says nothing about how axios and
  Express carry bodies apart from `Sync.Received`.
- TodoController.ApplyUpdate: the ORM's treatment of keys that are `undefined` in
  `todo.update(...)` is not visible in the code; the model takes "an absent field
  keeps its value" and claims nothing beyond it.
- TodoController.TodoStore.GetTodos: the SQL ordering by priority and creation time
  belongs to the database; the order is a parameter and is not claimed to be sorted.
- TodoController.TodoStore.CreateTodo: auto-increment id generation is not visible;
  the new key is a parameter required to be unused. The not-null title column is
  stated as an assumption on the failure parameter: a missing title means the insert
  throws. Enum validation of `priority` by the database is not modelled; any string
  passes unless the failure parameter says the insert threw.
- `createdAt` / `updatedAt` timestamps and database setup (connection, sync) are not
  modelled.
- Request body fields are strings or booleans when present; JavaScript values of
  other types (numbers, `null`, `false` for a string field) are not modelled, so
  "falsy" for `category` and `priority` means missing or "".
- `JsText.IsTrimmable` lists the Space_Separator code points of Unicode 15; later
  Unicode versions could add to them.
- The theme and navigation wiring and the colour tables are not part of this model.
- `todo-app-frontend/app/(tabs)/index.tsx` is not part of this model: it is a separate
  screen with search filtering, active and completed lists, swipe navigation between
  categories and an edit dialog.
- `priority` is any string in the model. The client's type and the database enum both
  restrict it to low, medium and high. The model keeps it open so that the default
  branch of `getPriorityColor` (`HomeScreen.UnknownPriorityLooksMedium`) has inputs.
  It also means a create with an out-of-enum priority succeeds unless the failure
  parameter says otherwise.
- Sync.Received: it stands in for the HTTP client, and it is not a model of axios.
  It resolves only on a 2xx reply that carries a row. Axios resolves on every 2xx
  reply, for example a 200 with no body, since `config/api.ts` sets no
  `validateStatus`. The round trips only pass it replies from create and update,
  where every 2xx reply carries the row.
