/** The application's use cases (src/domain/usecases/): each holds the
    repository and adds a small step before delegating to it. */
module UseCases {
  import opened Wrappers
  import opened TodoEntity
  import opened TodoMapper
  import opened Filter
  import opened SqliteDataSource

  /** The input of `AddTodo`: a task without `updatedAt`. */
  datatype Draft = Draft(
    id: TodoId,
    title: string,
    description: JsOptional<string>,
    imageUri: JsOptional<string>,
    completed: bool,
    latitude: JsOptional<real>,
    longitude: JsOptional<real>,
    createdAt: int)

  function DraftOf(t: Todo): Draft {
    Draft(t.id, t.title, t.description, t.imageUri, t.completed, t.latitude, t.longitude, t.createdAt)
  }

  /** `{ ...input, updatedAt: input.createdAt }`: every input field carried over,
      and a new task counts as last changed when it was created. */
  function Stamp(d: Draft): (t: Todo)
    ensures DraftOf(t) == d
    ensures t.updatedAt == t.createdAt
  {
    Todo(d.id, d.title, d.description, d.imageUri, d.completed, d.latitude, d.longitude, d.createdAt, d.createdAt)
  }

  /** `{ ...todo, updatedAt: now }`: only the modification time changes. */
  function Restamp(t: Todo, now: int): (r: Todo)
    ensures r.updatedAt == now
    ensures DraftOf(r) == DraftOf(t)
  {
    t.(updatedAt := now)
  }

  /** A file deletion handed to the file storage, or a row deletion. */
  datatype Effect = FileDeleteRequested(uri: string) | RowDeleted(id: TodoId)

  /** The file request `DeleteTodo` issues for a stored row: one for a non-empty
      image URI, none for a missing or empty one. */
  function ImageCleanup(row: Row): (effects: seq<Effect>)
    ensures |effects| <= 1
    ensures effects != [] <==> Truthy(FromRow(row).imageUri)
    ensures forall e :: e in effects ==> e == FileDeleteRequested(row.image_uri.value)
  {
    if row.image_uri.Some? && row.image_uri.value != "" then [FileDeleteRequested(row.image_uri.value)] else []
  }

  class AddTodo {
    const repo: TodoSQLiteDataSource

    constructor(repo: TodoSQLiteDataSource)
      ensures this.repo == repo
    {
      this.repo := repo;
    }

    /** Stamps `updatedAt := createdAt` and adds the task. */
    method Exec(input: Draft) returns (result: Result<Todo, Error>)
      requires repo.Valid()
      modifies repo
      ensures repo.Valid()
      ensures input.id in old(repo.table) ==>
        result == Err(PrimaryKeyViolation) && repo.table == old(repo.table)
      ensures input.id !in old(repo.table) ==>
        result == Ok(Stamp(input)) && repo.table == old(repo.table)[input.id := ToRow(Stamp(input))]
    {
      result := repo.Add(Stamp(input));
    }
  }

  class UpdateTodo {
    const repo: TodoSQLiteDataSource

    constructor(repo: TodoSQLiteDataSource)
      ensures this.repo == repo
    {
      this.repo := repo;
    }

    /** Stamps `updatedAt := now` and updates the stored task. */
    method Exec(todo: Todo, now: int) returns (result: Result<Todo, Error>)
      requires repo.Valid()
      modifies repo
      ensures repo.Valid()
      ensures todo.id in old(repo.table) ==>
        && repo.table == old(repo.table)[todo.id := Overwrite(old(repo.table)[todo.id], ToRow(Restamp(todo, now)))]
        && result == Ok(FromRow(repo.table[todo.id]))
      ensures todo.id !in old(repo.table) ==> repo.table == old(repo.table) && result == Err(NotFound)
    {
      result := repo.Update(Restamp(todo, now));
    }
  }

  class ToggleTodo {
    const repo: TodoSQLiteDataSource

    constructor(repo: TodoSQLiteDataSource)
      ensures this.repo == repo
    {
      this.repo := repo;
    }

    /** Delegates to the repository's toggle. */
    method Exec(id: TodoId, now: int) returns (result: Result<Todo, Error>)
      requires repo.Valid()
      modifies repo
      ensures repo.Valid()
      ensures id !in old(repo.table) ==> result == Err(NotFound) && repo.table == old(repo.table)
      ensures id in old(repo.table) ==>
        && result == Ok(Toggled(FromRow(old(repo.table)[id]), now))
        && repo.table == old(repo.table)[id := Overwrite(old(repo.table)[id], ToRow(result.value))]
    {
      result := repo.Toggle(id, now);
    }
  }

  class DeleteTodo {
    const repo: TodoSQLiteDataSource

    constructor(repo: TodoSQLiteDataSource)
      ensures this.repo == repo
    {
      this.repo := repo;
    }

    /** Looks the task up, asks the file storage to delete its image when it has
      one, then deletes the row. A missing id fails at the lookup, before any
      effect. `effects` records the requests in the order they are issued; the
      file request is not awaited, so its outcome cannot stop the row deletion. */
    method Exec(id: TodoId) returns (result: Result<(), Error>, ghost effects: seq<Effect>)
      requires repo.Valid()
      modifies repo
      ensures repo.Valid()
      ensures id !in old(repo.table) ==>
        result == Err(NotFound) && effects == [] && repo.table == old(repo.table)
      ensures id in old(repo.table) ==>
        && result == Ok(())
        && repo.table == old(repo.table) - {id}
        && effects == ImageCleanup(old(repo.table)[id]) + [RowDeleted(id)]
    {
      effects := [];
      var todo := repo.Get(id);
      if todo.Err? {
        return Err(NotFound), effects;
      }
      if Truthy(todo.value.imageUri) {
        effects := effects + [FileDeleteRequested(todo.value.imageUri.value)];
      }
      repo.Delete(id);
      effects := effects + [RowDeleted(id)];
      result := Ok(());
    }
  }

  class ListTodos {
    const repo: TodoSQLiteDataSource

    constructor(repo: TodoSQLiteDataSource)
      ensures this.repo == repo
    {
      this.repo := repo;
    }

    /** Delegates to the repository's listing; the table is only read. */
    method Exec(filters: Option<FilterType>, fault: bool) returns (result: Result<seq<Todo>, Error>)
      requires repo.Valid()
      ensures fault ==> result == Err(StoreFailure)
      ensures !fault ==> result.Ok? && ListedUnder(repo.table, Resolve(filters), result.value)
    {
      result := repo.All(filters, fault);
    }
  }
}
