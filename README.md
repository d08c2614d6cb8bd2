# A verified model of a small to-do app

The app is a Next.js to-do list. The route `/api/todos` has four handlers, and each
one forwards a request to a todo table through an ORM. The page keeps its state in
React hooks and changes that state in a few action handlers.

This project models both halves in Dafny:

- `todo_types.dfy` (`TodoTypes`): the stored row `Todo`, the row as the page receives
  it (`TodoJson`), and the request bodies. The module also has the JavaScript
  truthiness test on date values.
- `todo_query.dfy` (`TodoQuery`): what the store does with the handlers' arguments.
  - A `where` filter on `completed`.
  - An `orderBy` list of sort keys, compared lexicographically.
  - The `data` patch of an update.
- `todo_store.dfy` (`TodoStore.TodoTable`): the table, a class that holds a
  `map<int, Todo>` and a fresh-id counter. Its methods are `FindMany`, `Create`,
  `Update` and `Delete`.
- `todo_route.dfy` (`TodoRoute`): the GET, POST, PUT and DELETE handlers. Each one
  returns the reply it would send, or `Thrown` for the store exception it does not
  catch.
- `js_text.dfy` (`JsText`): `String.prototype.trim`, using ECMAScript's set of
  whitespace and line-terminator code points.
- `home_page.dfy` (`HomePage.Home`): the page state as a class with one field per
  `useState`. `State()` gives the same state as one record. Each handler is a method
  that returns the request it would send, in place of calling `fetch`. The
  `isNearDeadline` test is a predicate.
- `scenarios.dfy` (`Scenarios`): page requests served by the route handlers. It
  covers the toggle, saving an edit, and an end-to-end create/list/toggle/list run.

Assumptions about the store, whose code is not part of this model:

- `create` assigns the next value of an auto-increment counter, which is never
  reused. It sets `completed` to its schema default `false` and takes `createdAt`
  from the clock (the `now` parameter).
- `update` writes only the fields listed in its `data`.
- `update` and `delete` fail on an id that is not in the table. The handlers do not
  catch that exception, so the model returns `Thrown(RecordNotFound(id))`.
- `findMany` returns every matching row exactly once, in `orderBy` order.
- Under `deadline: "asc"`, rows without a deadline come after all rows with one
  (nulls last). The real placement depends on the database engine, which is not part
  of this model.

Dates on the wire are `DateText` values, either `Blank` (the empty string) or
`Stamp(ms)`. `Stamp(ms)` is a non-empty date string, represented by the timestamp that
`new Date` gives for it. This keeps the one distinction the code makes: `""` and
`null` are falsy, and any other date string is parsed.

The page has no optimistic toggle: `toggleTodo` awaits the PUT and never changes
`todos` locally (app/page.tsx:62-70).

## Model

| member | source | states |
|---|---|---|
| TodoTypes.DateOf | app/api/todos/route.ts:54 | A present date value becomes a timestamp exactly when it is truthy (not `null`, not `""`). That timestamp is the one the string denotes. |
| TodoTypes.ToJson | app/api/todos/route.ts:34 | The page receives the id, title and completed flag as stored. The deadline is `null` exactly when there is none, and otherwise a non-empty date string for the same instant. |
| TodoTypes.DateRoundTrip | app/api/todos/route.ts:54 | Parsing a serialised deadline back gives the stored timestamp. |
| TodoQuery.CompareByFlip | app/api/todos/route.ts:18-27 | Swapping the two rows swaps Before and After under every sort key. |
| TodoQuery.CompareByChain | app/api/todos/route.ts:18-27 | Under one key, "not after" is transitive. The result is a tie only when both steps are ties. |
| TodoQuery.LeReflexive | app/api/todos/route.ts:18-27 | The `orderBy` comparison puts every row no later than itself. |
| TodoQuery.LeTotal | app/api/todos/route.ts:18-27 | For any two rows, at least one may come first under any key list (totality). |
| TodoQuery.LeTransitive | app/api/todos/route.ts:18-27 | The `orderBy` comparison is transitive for every key list, so it is a total preorder. |
| TodoQuery.Insert | app/api/todos/route.ts:29-32 | Inserting a row into a sorted list keeps it sorted. The result is the old list plus exactly that row, as multisets. |
| TodoQuery.ApplyPatch | app/api/todos/route.ts:73-81 | An update writes exactly the fields listed in its data. id and createdAt never change. |
| TodoQuery.EmptyPatchIsIdentity | app/api/todos/route.ts:76-80 | When no field is listed, the row is left as it was. |
| TodoStore.TodoTable.Selected | app/api/todos/route.ts:29-32 | A row is selected exactly when it is stored under its own id and passes the filter. |
| TodoStore.TodoTable.FindMany | app/api/todos/route.ts:29-32 | The result is sorted under the key list. As a multiset, it equals the set of matching rows, so each matching row appears exactly once. |
| TodoStore.TodoTable.Create | app/api/todos/route.ts:51-56 | Adds one row with a fresh id, the given title and deadline, `completed = false` and `createdAt = now`. Nothing else changes, and the counter moves past the new id. |
| TodoStore.TodoTable.Update | app/api/todos/route.ts:73-82 | A known id gets the patched row and every other row is unchanged. An unknown id fails and the table is unchanged. |
| TodoStore.TodoTable.Delete | app/api/todos/route.ts:94-96 | A known id is removed and every other row is unchanged. An unknown id fails and the table is unchanged. |
| TodoRoute.WhereFor | app/api/todos/route.ts:13-16 | `active` admits exactly the incomplete rows and `completed` exactly the complete ones. Any other or missing filter admits every row. |
| TodoRoute.OrderByFor | app/api/todos/route.ts:18-27 | `sort=deadline` orders rows by deadline ascending, with no deadline last and ties newest first. Any other or missing value orders by createdAt descending. |
| TodoRoute.Get | app/api/todos/route.ts:7-35 | Status 200. The list is sorted by the requested order and is a permutation of the rows that pass the filter. A row is listed exactly when it is stored and matches the filter. |
| TodoRoute.HasTitle | app/api/todos/route.ts:44 | The title check passes exactly when the title is present and not the empty string. |
| TodoRoute.DeadlineOf | app/api/todos/route.ts:54 | The created row has a deadline exactly when the body's deadline is present and truthy. The deadline is the given timestamp. |
| TodoRoute.Post | app/api/todos/route.ts:41-59 | A missing or empty title gives 400 "Title is required" and leaves the table and counter unchanged. Otherwise, including a whitespace-only title, the reply is 201 and carries the one new row, and the counter moves past its id. |
| TodoRoute.PatchOf | app/api/todos/route.ts:76-80 | A field is in the update data exactly when it is present in the body. A present `null` or `""` deadline becomes a cleared deadline, and any other deadline becomes its timestamp. |
| TodoRoute.PutWritesPresentFields | app/api/todos/route.ts:76-80 | Title and completed are written only when present. An absent deadline is kept, a `null` or `""` deadline clears it, and any other deadline sets it. |
| TodoRoute.Put | app/api/todos/route.ts:65-85 | A known id gets the patch and a 200 reply with the updated row, and no other row changes. An unknown id throws and the table is unchanged. |
| TodoRoute.Delete | app/api/todos/route.ts:91-99 | A known id is removed with reply `{success: true}`, and no other row changes. An unknown id throws and the table is unchanged. |
| TodoRoute.RemovedIdIsNeverListed | app/api/todos/route.ts:94-96 | Once an id is not in the table, no listing under any filter returns a row with that id. |
| JsText.TrimStart | app/page.tsx:49 | The result is a suffix of the input. Everything removed is whitespace, and the result does not start with whitespace. |
| JsText.TrimEnd | app/page.tsx:49 | The result is a prefix of the input. Everything removed is whitespace, and the result does not end with whitespace. |
| JsText.TrimIsEmptyIffAllWhitespace | app/page.tsx:83 | `s.trim()` is empty exactly when every character of `s` is whitespace. |
| HomePage.IsNearDeadline | app/page.tsx:169-171 | A row is near exactly when it has a non-empty deadline less than one day (86400000 ms) after `now`. |
| HomePage.NearDeadlineOfStoredRow | app/page.tsx:169-171 | A row is near its deadline exactly when it has one and `deadline - now < 86400000`. |
| HomePage.PastDeadlineIsNear | app/page.tsx:169-171 | A deadline at or before `now` counts as near. |
| HomePage.NearDeadlineStaysNear | app/page.tsx:169-171 | A row that is near its deadline stays near as `now` grows. |
| HomePage.DraftOrNull | app/page.tsx:54 | A blank deadline draft is sent as `null`, and a date draft is sent as that string. |
| HomePage.EditDraftOrNull | app/page.tsx:91 | A missing or blank edit deadline is sent as `null`, and a date is sent as that string. |
| HomePage.Home.constructor | app/page.tsx:13-23 | Starts with no todos, empty drafts, no row in edit mode, filter `all` and sort `newest`. |
| HomePage.Home.ListRequest | app/page.tsx:31 | The list fetch sends the current filter and sort. |
| HomePage.Home.ReceiveTodos | app/page.tsx:29-38 | A loaded response replaces `todos`, a failure sets `todos` to empty, and nothing else changes. |
| HomePage.Home.SelectFilter | app/page.tsx:114 | A filter button sets `filter` and nothing else. |
| HomePage.Home.SelectSort | app/page.tsx:126 | The sort selector sets `sort` and nothing else. |
| HomePage.Home.TypeInput | app/page.tsx:142 | The title input sets the `input` draft and nothing else. |
| HomePage.Home.TypeDeadline | app/page.tsx:154 | The deadline input sets the `deadline` draft and nothing else. |
| HomePage.Home.TypeEditingTitle | app/page.tsx:191 | The edit title input sets `editingTitle` and nothing else. |
| HomePage.Home.TypeEditingDeadline | app/page.tsx:199 | The edit deadline input sets `editingDeadline` to the input's string and nothing else. |
| HomePage.Home.AddTodo | app/page.tsx:48-60 | A whitespace-only input sends nothing and changes nothing. Otherwise it POSTs the untrimmed input with the draft deadline (`null` when blank). Both drafts are cleared when the fetch resolves; when it rejects, the state is unchanged. |
| HomePage.Home.ToggleTodo | app/page.tsx:62-70 | Sends a PUT with only the id and the negated `completed`, and leaves the page state untouched. |
| HomePage.Home.DeleteTodo | app/page.tsx:72-80 | Sends a DELETE of the id and leaves the page state untouched. |
| HomePage.Home.StartEdit | app/page.tsx:230-234 | The row becomes the single row in edit mode. Its title and deadline replace any earlier draft. |
| HomePage.Home.HandleEditSave | app/page.tsx:82-99 | A whitespace-only draft title sends nothing and changes nothing. Otherwise it PUTs the row's id, the untrimmed title and the draft deadline (`null` when missing or blank). Edit mode is left when the fetch resolves; when it rejects, the state is unchanged. |
| Scenarios.ToggleThroughPut | app/page.tsx:62-67 | The toggle body through PUT sets `completed` to the negation of the page's copy. Title, deadline, id and createdAt stay as stored. |
| Scenarios.SaveUneditedDraftKeepsRow | app/page.tsx:88-92 | Saving an edit draft that was seeded from a row and not changed writes back exactly that row. |
| Scenarios.SaveClearedDeadline | app/page.tsx:91 | Saving with the edit deadline input cleared removes the deadline and sets the title. |
| Scenarios.AddBodyPassesPost | app/page.tsx:49-54 | Every body that `addTodo` sends passes POST's title check. The deadline is stored exactly when the draft was not blank. |
| Scenarios.ToggleOnServer | app/page.tsx:62-67 | Toggling a shown row and serving the PUT changes only that row's `completed`, and the reply is 200. |
| Scenarios.SaveUneditedDraft | app/page.tsx:82-97 | Start-edit then save, with the draft untouched, leaves the table unchanged. Edit mode ends when the title is not blank. A whitespace-only title, which POST accepts, makes the save a no-op, so the row stays in edit mode with its draft. |
| Scenarios.BuyMilk | app/page.tsx:48-60 | A created "Buy milk" row (not completed, no deadline, fresh id) is listed under `all` and not under `completed`. After a toggle it is listed under `completed`. |

## Left out

- HTTP, `fetch`, `Response`, JSON encoding and URL parsing: requests and replies are datatypes. The query string is taken as already split into `filter` and `sort`.
- The network behind `fetch`: `AddTodo` and `HandleEditSave` take whether the awaited fetch resolved as a `resolved` parameter, and `ReceiveTodos` takes the fetch outcome as a `FetchResult`.
- The database and the ORM: the table is a map with the assumptions listed above. Connection failures are not modelled.
- Date parsing, time zones, invalid date strings (`new Date` giving an invalid date), `toLocaleString` and `Date.now()`: timestamps are integers, and the clock is the `now` parameter.
- A POST or PUT title that is JSON `null` or not a string: the bodies' title is a string or absent, as the handlers' declared types say.
- JS strings are UTF-16 code units, while Dafny strings are Unicode scalar values. This does not affect trimming, because every whitespace code point is in the Basic Multilingual Plane.
- `refresh()`: whether `setFilter((f) => f)` triggers the list fetch again depends on React's scheduling, so no handler claims to re-fetch.
- Asynchronous interleaving: each handler is one atomic step. Stale list responses and overlapping PUTs are not modelled.
- The JSX rendering, CSS classes and app/components/TodoItem.tsx, which contains no logic and is not used by the page.
