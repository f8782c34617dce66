# To-do list app: state machines of `App` and `Todo`

This project models the two React Native components of a single-screen to-do
app and proves properties of their state handling. Rendering is left out.

- `AppComponent` (app.dfy) models the top-level `App` component. Its state is
  the draft typed in the "New To Do" box (`newTodo`), a flag that says loading
  has finished (`loadedToDos`), and the table `toDos`, which maps each item's
  id to its record `{id, isCompleted, text, createAt}`. The class `App` holds
  these fields and has one method per handler. The uuid generator and
  `Date.now()` are parameters of `AddToDo`, with the requirement that the id
  is not already a key. The pure functions `AfterAdd` and `AfterDelete` give
  the handlers' effect on a state value, and `Run` applies a sequence of
  handler events. Lemmas over `Run` show that every reachable state keeps
  the table invariant: each key maps to a record with that id, and no record
  has empty text.
- `TodoComponent` (todo.dfy) models one item, `Todo`. Its state is
  `{isEditing, toDoValue}`, and its props `{id, text, isCompleted}` are inputs.
  The callbacks it receives (`completeToDo`, `uncompleteToDo`, `updateToDo`,
  `deleteToDo`) become returned `Action` values. This shows which callback
  fires, and with which arguments. `Handle` is the full gesture-level machine.
  A gesture on a control that the current rendering does not show is a no-op.
  `Todo.Respond` routes a gesture to the handler methods. Lemmas over
  gesture sequences prove the edit cycle and show that an item only reports
  its own id.

`Todo` is modelled as its declared props describe it (ToDo.js:19-25), with all
four callbacks supplied. `App` passes only `deleteToDo` to each item
(App.js:45). The consequences for the composed app are listed under
"## Left out".

## Model

| member | source | states |
|---|---|---|
| `AppComponent.AfterAdd` | App.js:64-91 | An empty draft leaves the state unchanged. A non-empty draft clears the draft and adds exactly the key `id`, holding a record with that id, `isCompleted == false`, the draft as text and `now` as `createAt`. Every other entry and the loaded flag are unchanged. |
| `AppComponent.AfterDelete` | App.js:93-105 | `id` is no longer a key, every remaining entry is unchanged, and the draft and loaded flag are kept. |
| `AppComponent.AddGrowsByOne` | App.js:68-85 | With a non-empty draft and a fresh id, the table grows by exactly one entry. |
| `AppComponent.DeleteShrinksByOne` | App.js:95-96 | Deleting a present id shrinks the table by exactly one entry. |
| `AppComponent.DeleteIdempotent` | App.js:95-96 | Deleting an absent id is a no-op, and deleting twice equals deleting once. |
| `AppComponent.LoadedIdempotent` | App.js:58-62 | The loaded handler sets the flag, and a second call changes nothing. |
| `AppComponent.StepKeepsInv` | App.js:52-105 | Every handler keeps the invariant: keys equal record ids and texts are non-empty. |
| `AppComponent.RunKeepsInv` | App.js:52-105 | Any sequence of handler calls keeps that invariant. |
| `AppComponent.ReachableInv` | App.js:10-14 | Every state reachable from the initial state (empty table) satisfies the invariant. |
| `AppComponent.RunKeysFromSubmits` | App.js:64-91 | Entries enter the table only through submissions. After any sequence of handler calls, every key was already a key or is the id of one of the submissions. |
| `AppComponent.App.constructor` | App.js:10-14 | The state starts with an empty draft, not loaded, and an empty table. The invariant holds. |
| `AppComponent.App.ControlNewTodo` | App.js:52-56 | Sets only `newTodo` to the given text. |
| `AppComponent.App.LoadedToDos` | App.js:58-62 | Sets only `loadedToDos` to true. |
| `AppComponent.App.AddToDo` | App.js:64-91 | The new state is `AfterAdd` of the old state. With an empty draft nothing changes. Otherwise the table is the old table plus one record under the fresh id, its size grows by one, and the draft is cleared. The invariant is kept. |
| `AppComponent.App.DeleteToDo` | App.js:93-105 | The new table is the old one without `id`. The other fields are unchanged and the invariant is kept. |
| `TodoComponent.ToggleAction` | ToDo.js:85-92 | Exactly one callback, with the item's id. It is `uncompleteToDo` exactly when the item is completed, and `completeToDo` exactly when it is not. |
| `TodoComponent.Handle` | ToDo.js:35-115 | A gesture on a control that is not rendered does nothing. The circle always fires the toggle callback (`ToggleAction`) and leaves the state alone. While not editing, the delete icon fires `Delete(id)` and leaves the state alone, and the edit icon opens the editor and keeps the draft. While editing, typing sets the draft and keeps the editor open. The check icon or blur fires `Update(id, draft)` and closes the editor. Conversely, delete fires only from the delete icon while not editing. An update fires only when an open editor is closed. Only typing changes the draft, and every callback carries the item's id. |
| `TodoComponent.RunFiresOwnId` | ToDo.js:74-109 | In any gesture sequence, every callback fired carries the item's own id. |
| `TodoComponent.NoDeleteWhileEditing` | ToDo.js:60-79 | From an open editor, any gestures other than the check icon and blur fire neither a delete nor an update, and the editor stays open. This includes presses where the edit and delete icons would be, which are not rendered then. |
| `TodoComponent.TypingThenFinish` | ToDo.js:100-115 | From an open editor, any keystrokes followed by the check icon or blur fire exactly one `updateToDo(id, lastTyped)` and close the editor, keeping the typed text as the draft. |
| `TodoComponent.EditCycle` | ToDo.js:9-115 | From a newly constructed item, opening the editor, typing and finishing fire exactly one update with the last typed text. With no keystrokes, the update carries the original text. The editor ends closed. |
| `TodoComponent.Todo.constructor` | ToDo.js:9-16 | A new item is not editing, and its draft equals `props.text`. |
| `TodoComponent.Todo.ToggleComplete` | ToDo.js:85-92 | Returns `Uncomplete(id)` for a completed item and `Complete(id)` otherwise. The state is untouched. |
| `TodoComponent.Todo.StartEditing` | ToDo.js:94-98 | Opens the editor and keeps the draft. |
| `TodoComponent.Todo.FinishEditing` | ToDo.js:100-109 | Fires `Update(id, draft)` with the draft as it was, then closes the editor and keeps the draft. |
| `TodoComponent.Todo.ControlInput` | ToDo.js:111-115 | Sets the draft to the typed text and leaves the editing flag alone. |
| `TodoComponent.Todo.Respond` | ToDo.js:35-79 | A gesture routed through the rendered controls changes the state and fires the callback exactly as `Handle` says. |

## Left out

- Rendering, styles, `Platform.select` and the `Dimensions`-based widths: presentation only, and the widths are floating-point layout.
- `uuidv1()` and `Date.now()` are foreign calls. They are parameters of `App.AddToDo`, which requires the id not to be a key already.
- React's `setState` batching and updater scheduling, `componentDidMount` and the `<AppLoading/>` placeholder: framework lifecycle. Each handler is one atomic transition. `Run` does not gate the events on `loadedToDos`, so the invariants are proved for every sequence of events, including those the loading screen prevents.
- `AppComponent.AfterDelete` leaves out the stray top-level keys that the delete handler spreads into the state (`...toDos`, App.js:98-101). Only the effect on the table is modelled. Its promise that the draft and the loaded flag are kept assumes that no remaining id equals `newTodo`, `loadedToDos` or `toDos`. Generated uuid-v1 ids never do. If one did, the spread would overwrite that field with a record.
- `console.log` and `PropTypes`: runtime diagnostics only.
- Props changing after construction (a re-render with new props): `Todo.props` is fixed for the item's lifetime in the model. The source would keep its old `toDoValue` in that case.
- A press on the check icon that also blurs the editor can call the finish handler twice. The model treats each gesture as a separate event.
- `Todo` is modelled with all four callbacks supplied, as its declared props require (ToDo.js:19-25). In the composed app, `App` supplies only `deleteToDo` (App.js:45). So the circle's call to `completeToDo`/`uncompleteToDo` (ToDo.js:88, 90) and `_finishEditing`'s call to `updateToDo` (ToDo.js:104) throw a TypeError there. `_finishEditing` then never reaches `setState({isEditing: false})` (ToDo.js:106), and the editor stays open. The model's `FinishEditing`, `Handle`, `TypingThenFinish` and `EditCycle` describe the item with callbacks supplied, so they close the editor. Only the delete path works in the composed app.
- Persistence, loading stored items, sorting by `createAt`, and complete/uncomplete/update handlers in `App`: none of these exist in App.js.
