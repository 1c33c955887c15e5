# TodoApp persistence and orchestration, in Dafny

A model of the data slice of the TodoApp mobile task tracker and proofs about it.
It covers four parts:

- **Row mapper.** `TodoMapper.toRow`/`fromRow` convert between the `Todo` entity and a
  row of the `todos` table.
- **Repository.** `TodoSQLiteDataSource` is modelled as a class whose `table` field is
  a map from primary key to row. Its `add`, `update`, `delete`, `toggle`, `get` and
  `all` methods rewrite or read that map the way their SQL statements do.
- **Use cases.** `AddTodo`, `UpdateTodo`, `ToggleTodo`, `DeleteTodo` and `ListTodos`
  are classes that hold the repository.
- **Task store.** `TodoProvider` is stripped of React: a class with `items` and
  `loading` fields that refreshes the list after every change.

`all` is modelled twice:

- as the text it builds: the `Query` value and `Render`;
- as what the store does with that text: `SqliteEngine`.

The `SqliteEngine` module gives the store's meaning for the pieces `all` relies on:
- `LIKE` with its `%` and `_` wildcards, ASCII case folding and no escape character;
- `COALESCE`, and `TRIM` without a second argument (spaces only);
- `IS NOT NULL`;
- positional binding of `?` placeholders;
- `ORDER BY` under the BINARY collation, with ties in any order.

The SELECT itself is a loop that scans the table and inserts each accepted row in
sort order.

Modules, one per file:
- `Wrappers`: `Option` and `Result`.
- `TodoEntity`: `Todo`, where a JavaScript optional field is `Undefined`, `Null` or
  `Present(v)`.
- `TodoMapper`.
- `Filter`: `FilterType` and its defaulting.
- `JsString`: `trim`, `toLowerCase`, `join`, counting a character.
- `QueryBuilder`.
- `SqliteEngine`.
- `QuerySemantics`: what a built query selects.
- `SqliteDataSource`.
- `UseCases`.
- `TodoContext`.

Behaviour of the code that a caller might not expect, which the model keeps:
- **The round trip is not lossless.** `fromRow(toRow(t)) == t` holds only for tasks
  with both coordinates and without `undefined` text fields. `Number(null)` turns an
  absent coordinate into 0 (src/data/mappers/TodoMapper.ts:24-25), and `?? null`
  turns an absent text into `null` (src/data/mappers/TodoMapper.ts:20-21). See
  `RoundTripExactIff` and `CoordinatelessTaskReadsAsZero`.
- **The search text is not taken literally.** The query is wrapped as `%query%`
  without escaping (src/data/datasources/sqlite/TodoSQLiteDataSource.ts:87), so its
  `%` and `_` act as LIKE wildcards (`PercentQueryKeepsEverything`,
  `UnderscoreQueryKeepsNonEmpty`). For queries without them, the search is an
  ASCII-case-insensitive substring test: other letters, such as "é" against "É",
  must match exactly (`SearchMeansContains`).
- **Deleting through the use case is not idempotent.** The repository's `delete`
  accepts a missing id, but `DeleteTodo` looks the task up first
  (src/domain/usecases/DeleteTodo.ts:8) and fails with "not found" on a missing id.
- **The refresh after a change ignores the active filters.** The store refreshes with
  no filter (src/presentation/context/TodoContext.tsx:43), so the list then shows the
  whole table newest first, not the list screen's filtered view
  (`TodoProvider.Add`, `Toggle`, `Remove`, `Update`, and `DefaultListingIsWholeTable`).
- **Toggling gives a task coordinates.** `toggle` writes back a task read through
  `fromRow` (src/data/datasources/sqlite/TodoSQLiteDataSource.ts:62-65), so a task
  stored without coordinates is stored at (0, 0) afterwards (`ToggleWriteBack`).

## Model

| member | source | states |
|---|---|---|
| TodoMapper.ToRow | src/data/mappers/TodoMapper.ts:3-15 | the stored `completed` is always 0 or 1 |
| TodoMapper.FromRow | src/data/mappers/TodoMapper.ts:16-28 | every task read from a row has both coordinates and no `undefined` text field |
| TodoMapper.ToRowEncoding | src/data/mappers/TodoMapper.ts:3-15 | all nine columns are filled; NULL appears exactly for the absent optional fields; present values, completion and timestamps are stored as they are |
| TodoMapper.RoundTrip | src/data/mappers/TodoMapper.ts:3-28 | id, title, completion and timestamps survive toRow then fromRow; a present text (even "") or coordinate survives; an absent text comes back `null`, an absent coordinate 0 |
| TodoMapper.RoundTripExactIff | src/data/mappers/TodoMapper.ts:3-28 | the round trip returns the task unchanged if and only if the task has both coordinates and no `undefined` text |
| TodoMapper.CoordinatelessTaskReadsAsZero | src/data/mappers/TodoMapper.ts:24-25 | a task saved without coordinates reads back at (0, 0), so not as saved |
| TodoMapper.CompletedDecoding | src/data/mappers/TodoMapper.ts:22 | a row reads as completed exactly when its stored value is 1; any other value reads as open |
| TodoMapper.RowRoundTripIff | src/data/mappers/TodoMapper.ts:3-28 | reading a row and writing it back reproduces it exactly when `completed` is 0 or 1 and both coordinates are non-NULL |
| Filter.MissingFiltersResolveToDefaults | src/data/datasources/sqlite/TodoSQLiteDataSource.ts:72-79 | no filter, an empty filter and a filter spelling out the defaults all resolve to "", all, created_at, desc, false, false |
| Filter.Resolve | src/data/datasources/sqlite/TodoSQLiteDataSource.ts:72-79 | no filter gives the defaults; otherwise a supplied field is used as given and each missing field takes its own default |
| JsString.Trim | src/data/datasources/sqlite/TodoSQLiteDataSource.ts:85 | `query.trim()` is never longer than the query and neither starts nor ends with whitespace |
| JsString.ToLowerCase | src/data/datasources/sqlite/TodoSQLiteDataSource.ts:118 | `sortOrder.toLowerCase()` has the token's length, lower-cases each ASCII letter, and keeps no ASCII capital |
| JsString.TrimWithEnds | src/data/datasources/sqlite/TodoSQLiteDataSource.ts:85 | trimming leaves no whitespace at either end, and leaves nothing exactly when the text is all whitespace |
| JsString.LowerIsAscIff | src/data/datasources/sqlite/TodoSQLiteDataSource.ts:118 | `sortOrder.toLowerCase() === "asc"` holds for exactly the eight letter-case spellings of "asc" |
| QueryBuilder.Build | src/data/datasources/sqlite/TodoSQLiteDataSource.ts:81-119 | the built query has as many parameters as its WHERE fragments have placeholders |
| QueryBuilder.WhereOf | src/data/datasources/sqlite/TodoSQLiteDataSource.ts:85-107 | the fragments pushed for a filter; only the search fragment carries placeholders, two of them |
| QueryBuilder.WhereOrder | src/data/datasources/sqlite/TodoSQLiteDataSource.ts:85-107 | the fragments come in push order (search, status, image, location), each at most once |
| QueryBuilder.ParamsOf | src/data/datasources/sqlite/TodoSQLiteDataSource.ts:87-88 | there is one parameter per placeholder of the fragments, each the search pattern |
| QueryBuilder.OrderByOf | src/data/datasources/sqlite/TodoSQLiteDataSource.ts:117 | the ORDER BY column is the requested one when it is "title", and the default created_at for any other token |
| QueryBuilder.DirectionOf | src/data/datasources/sqlite/TodoSQLiteDataSource.ts:118 | the direction is ASC exactly for the eight letter-case spellings of "asc", DESC for any other token |
| QueryBuilder.Sql | src/data/datasources/sqlite/TodoSQLiteDataSource.ts:110-119 | the SQL text starts with `SELECT * FROM todos` and ends with the ORDER BY part |
| QueryBuilder.Render | src/data/datasources/sqlite/TodoSQLiteDataSource.ts:110-119 | the SQL text of a query has exactly one `?` per placeholder of its fragments |
| QueryBuilder.BuildQuery | src/data/datasources/sqlite/TodoSQLiteDataSource.ts:72-119 | the pushes and `+=` steps of `all` produce the query `Build` gives for the resolved filter, and exactly its SQL text |
| QueryBuilder.BuildWhere | src/data/datasources/sqlite/TodoSQLiteDataSource.ts:81-107 | the pushes give one fragment per active restriction, in fixed order, and the two search parameters |
| QueryBuilder.ComposeSql | src/data/datasources/sqlite/TodoSQLiteDataSource.ts:110-119 | the column is title exactly for sortBy "title", the direction ASC exactly when sortOrder lower-cases to "asc", and the text is SELECT, the WHERE part joined by AND if any, then ORDER BY |
| QueryBuilder.PlaceholdersMatchParams | src/data/datasources/sqlite/TodoSQLiteDataSource.ts:81-122 | the SQL text has exactly as many `?` as there are bound parameters |
| QueryBuilder.ParamsCarryTrimmedQuery | src/data/datasources/sqlite/TodoSQLiteDataSource.ts:85-89 | there are two parameters, each `%` + trimmed query + `%`, when the trimmed query is non-empty, and none otherwise |
| QueryBuilder.SqlDependsOnlyOnShape | src/data/datasources/sqlite/TodoSQLiteDataSource.ts:81-119 | filters activating the same restrictions and order give the same SQL text, so no search text or token spelling is spliced into the SQL |
| QueryBuilder.ClausePresence | src/data/datasources/sqlite/TodoSQLiteDataSource.ts:85-107 | each fragment is in the WHERE part if and only if its option is active; an inactive option adds nothing |
| QueryBuilder.OrderResolution | src/data/datasources/sqlite/TodoSQLiteDataSource.ts:117-118 | sorting is by title iff sortBy is "title", and ascending iff sortOrder is "asc" in some letter case; anything else gives created_at / DESC |
| QueryBuilder.DefaultQuery | src/data/datasources/sqlite/TodoSQLiteDataSource.ts:72-119 | with the defaults there is no WHERE part and no parameter, and the text is `SELECT * FROM todos ORDER BY created_at DESC` |
| SqliteEngine.WhereHoldsAppend | src/data/datasources/sqlite/TodoSQLiteDataSource.ts:113 | fragments joined with AND hold exactly when both groups hold, with placeholders bound left to right |
| SqliteEngine.InsertOrdered | src/data/datasources/sqlite/TodoSQLiteDataSource.ts:119 | inserting a row into a list in ORDER BY order keeps it in that order |
| SqliteEngine.InsertDistinct | src/infra/db/migration.ts:7 | inserting a row whose key is new keeps the keys of the list distinct |
| SqliteEngine.Select | src/data/datasources/sqlite/TodoSQLiteDataSource.ts:122 | the store returns exactly the stored rows the WHERE part accepts, each once, in ORDER BY order |
| QuerySemantics.WhereMeansMatches | src/data/datasources/sqlite/TodoSQLiteDataSource.ts:81-113 | a row passes the built WHERE part iff it passes the search, status, image and location restrictions of the filter |
| QuerySemantics.ImageRestriction | src/data/datasources/sqlite/TodoSQLiteDataSource.ts:101 | "has image" keeps a row iff its image URI is non-NULL and has a character other than a space |
| QuerySemantics.DefaultsSelectEverything | src/data/datasources/sqlite/TodoSQLiteDataSource.ts:72-79 | with the defaults every row is selected |
| QuerySemantics.LikeAllPercent | src/data/datasources/sqlite/TodoSQLiteDataSource.ts:87 | a pattern made of `%` alone matches every text |
| QuerySemantics.SearchPatternIsContains | src/data/datasources/sqlite/TodoSQLiteDataSource.ts:86-88 | for a query without `%` or `_`, the pattern matches exactly the texts containing the trimmed query, ignoring ASCII case |
| QuerySemantics.SearchMeansContains | src/data/datasources/sqlite/TodoSQLiteDataSource.ts:85-89 | for a query without wildcards, the search keeps a row iff the query is blank or title or description contains it, ignoring ASCII case |
| QuerySemantics.PercentQueryKeepsEverything | src/data/datasources/sqlite/TodoSQLiteDataSource.ts:86-88 | a query made only of `%` keeps every row: user wildcards are not escaped |
| QuerySemantics.UnderscoreQueryKeepsNonEmpty | src/data/datasources/sqlite/TodoSQLiteDataSource.ts:86-88 | the query `_` keeps every row with a non-empty title or description; a row titled "a" is kept although it contains no `_` |
| SqliteDataSource.Overwrite | src/data/datasources/sqlite/TodoSQLiteDataSource.ts:38-40 | the UPDATE writes the new row verbatim exactly when it agrees with the stored row on id and created_at, which are not in the SET list |
| SqliteDataSource.Toggled | src/data/datasources/sqlite/TodoSQLiteDataSource.ts:63 | the spread flips the completion, sets the modification time to `now` and changes nothing else |
| SqliteDataSource.FromRows | src/data/datasources/sqlite/TodoSQLiteDataSource.ts:123 | one task per row, in row order, each with the row's key, title and creation time |
| SqliteDataSource.TodoSQLiteDataSource.Add | src/data/datasources/sqlite/TodoSQLiteDataSource.ts:10-32 | a new id gains the row `toRow(todo)` and the call returns `todo`; an existing id fails on the primary key and the table is unchanged |
| SqliteDataSource.TodoSQLiteDataSource.Get | src/data/datasources/sqlite/TodoSQLiteDataSource.ts:130-136 | the stored row read through fromRow, or "not found" |
| SqliteDataSource.TodoSQLiteDataSource.Update | src/data/datasources/sqlite/TodoSQLiteDataSource.ts:33-55 | only the row with `todo.id` changes, keeping its id and created_at, and the result is that row re-read; a missing id changes nothing and fails with "not found" |
| SqliteDataSource.TodoSQLiteDataSource.Delete | src/data/datasources/sqlite/TodoSQLiteDataSource.ts:57-59 | the row with that id is gone, all other rows are unchanged, and a missing id is no error |
| SqliteDataSource.TodoSQLiteDataSource.Toggle | src/data/datasources/sqlite/TodoSQLiteDataSource.ts:61-68 | a missing id fails before any write; otherwise the result is the stored task with completion flipped and stamped `now`, and that task is written back over its own row only |
| SqliteDataSource.TodoSQLiteDataSource.All | src/data/datasources/sqlite/TodoSQLiteDataSource.ts:70-128 | the result is the listing of the table under the resolved filter; a store failure is passed on |
| SqliteDataSource.ListingContents | src/data/datasources/sqlite/TodoSQLiteDataSource.ts:81-123 | a listing holds every stored task the filter accepts and nothing else, each once, read through fromRow, in the requested order |
| SqliteDataSource.DefaultListingIsWholeTable | src/data/datasources/sqlite/TodoSQLiteDataSource.ts:72-79 | with no filter the listing is the whole table, newest first |
| SqliteDataSource.StatusListing | src/data/datasources/sqlite/TodoSQLiteDataSource.ts:92-97 | status "completed" lists only completed tasks (stored 1) and "pending" only open ones (stored 0) |
| SqliteDataSource.ToggleWriteBack | src/data/datasources/sqlite/TodoSQLiteDataSource.ts:61-68 | the written row has completion flipped, `updated_at` stamped, everything else kept, and both coordinates set, a missing one becoming 0 |
| SqliteDataSource.ToggleTwiceRestoresCompletion | src/data/datasources/sqlite/TodoSQLiteDataSource.ts:61-68 | two toggles restore the completion as read, and the stored flag when it was 0 or 1 |
| SqliteDataSource.UpdateResult | src/data/datasources/sqlite/TodoSQLiteDataSource.ts:33-55 | update keeps the stored creation time whatever `createdAt` is passed (the form passes 0), and otherwise returns the task passed in when it is one fromRow could produce |
| UseCases.Stamp | src/domain/usecases/AddTodo.ts:19 | every input field is passed through and `updatedAt` equals `createdAt` |
| UseCases.Restamp | src/domain/usecases/UpdateTodo.ts:7 | only `updatedAt` changes, to the clock value |
| UseCases.ImageCleanup | src/domain/usecases/DeleteTodo.ts:10 | at most one file request, issued exactly when the stored image URI is non-empty, and for that URI |
| UseCases.AddTodo.Exec | src/domain/usecases/AddTodo.ts:6-21 | the stamped task is added and returned; a duplicate id fails and leaves the table unchanged |
| UseCases.UpdateTodo.Exec | src/domain/usecases/UpdateTodo.ts:6-8 | the task stamped `now` is written over its row and the re-read row returned; a missing id fails and changes nothing |
| UseCases.ToggleTodo.Exec | src/domain/usecases/ToggleTodo.ts:6-8 | exactly the repository's toggle, with no extra stamping |
| UseCases.DeleteTodo.Exec | src/domain/usecases/DeleteTodo.ts:7-13 | a missing id fails with "not found" and no effect; otherwise the image file request (if any) comes before the row deletion, and only that row is gone |
| UseCases.ListTodos.Exec | src/domain/usecases/ListTodos.ts:7-9 | exactly the repository's listing, without changing the table, with store failures passed on |
| TodoContext.NewTask | src/presentation/context/TodoContext.tsx:30-42 | the added task has the fresh id, is open, and is created and updated at `now`, with the caller's title, description, image and coordinates |
| TodoContext.NewTaskIgnoresCallerBookkeeping | src/presentation/context/TodoContext.tsx:30-42 | the caller's id, completion and timestamps do not affect the added task |
| TodoContext.TodoProvider.constructor | src/presentation/context/TodoContext.tsx:20-21 | the store starts with no items and loading |
| TodoContext.TodoProvider.Mount | src/presentation/context/TodoContext.tsx:61-64 | the first render lists the table with no filter |
| TodoContext.TodoProvider.Refresh | src/presentation/context/TodoContext.tsx:23-28 | items become the listing under the filter and loading is cleared; a failed listing leaves items as they were and loading set |
| TodoContext.TodoProvider.Add | src/presentation/context/TodoContext.tsx:30-44 | the new task is stored under the fresh id, then items are the unfiltered listing; a failed add changes neither table nor items |
| TodoContext.TodoProvider.Toggle | src/presentation/context/TodoContext.tsx:46-49 | the task is toggled, then items are the unfiltered listing; a missing id changes nothing |
| TodoContext.TodoProvider.Remove | src/presentation/context/TodoContext.tsx:51-54 | the row is deleted after a file-deletion request for a non-empty image, then items are the unfiltered listing; a missing id changes nothing |
| TodoContext.TodoProvider.Update | src/presentation/context/TodoContext.tsx:56-59 | the stamped task is written, then items are the unfiltered listing; a missing id changes nothing |

## Left out

- The React screens, components, navigation and theme are not modelled. FilterModal's
  `defaultFilters` equal the repository defaults. The list screen passes its active
  filter only to its own `refresh` calls (src/presentation/screens/TodoListScreen.tsx:22-25).
- Permissions (PermissionsContext.tsx), the image picker and FileStorage are not part
  of this model. A file deletion is recorded only as a ghost `FileDeleteRequested`
  effect. Its outcome is not modelled, because the source does not await it.
- `Date.now()` and `Crypto.randomUUID()` are parameters (`now`, `freshId`).
- Asynchrony is not modelled: every operation is a sequential method. The
  read-then-write race in `toggle` and the interleaving of refreshes are left out.
- Store failures:
  - the only store failure modelled is the one `all` catches and rethrows, given as
    the `fault` parameter;
  - I/O failures of INSERT, UPDATE, DELETE and SELECT by id, other than the
    primary-key violation, are left out;
  - the `console.error` logging is left out.
- Numbers are modelled only in part:
  - latitude and longitude are `real` values;
  - timestamps are unbounded integers;
  - JavaScript `Number` coercion is modelled only for `Number(null) = 0`;
  - floating-point rounding and the store's type affinity are left out.
- `toLowerCase` is modelled on ASCII letters only. That is all the comparison with
  "asc" can observe.
- SQLite is modelled only through the pieces the built queries use. The pragma and
  the migration are not executed. The table is assumed migrated, with `id` as
  primary key and title, completed and timestamps never NULL.
- SqliteEngine.Select: ties in ORDER BY come in an order the model leaves open, as
  SQLite does without a unique sort key. The contract does not fix their order.
- ListTodos with an explicit `undefined` filter field behaves like an absent field.
  Both are `None` in `FilterType`.
