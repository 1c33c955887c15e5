/** The task store behind the screens (src/presentation/context/TodoContext.tsx),
    without React: the list on display and a loading flag, refreshed from the
    repository after every change. */
module TodoContext {
  import opened Wrappers
  import opened TodoEntity
  import opened TodoMapper
  import opened Filter
  import opened SqliteDataSource
  import opened UseCases

  /** The task `add` hands to `AddTodo`: the caller's title, description, image
      and coordinates, with a fresh id, not completed, created now; `AddTodo`
      then stamps `updatedAt` to the same instant. */
  function NewTask(todo: Todo, freshId: TodoId, now: int): (t: Todo)
    ensures t.id == freshId && !t.completed && t.createdAt == now && t.updatedAt == now
    ensures t.title == todo.title && t.description == todo.description && t.imageUri == todo.imageUri
    ensures t.latitude == todo.latitude && t.longitude == todo.longitude
  {
    Stamp(Draft(freshId, todo.title, todo.description, todo.imageUri, false, todo.latitude, todo.longitude, now))
  }

  /** `add` ignores the caller's id, completion and timestamps. */
  lemma NewTaskIgnoresCallerBookkeeping(todo: Todo, other: Todo, freshId: TodoId, now: int)
    requires other.title == todo.title && other.description == todo.description
    requires other.imageUri == todo.imageUri
    requires other.latitude == todo.latitude && other.longitude == todo.longitude
    ensures NewTask(todo, freshId, now) == NewTask(other, freshId, now)
  {
  }

  class TodoProvider {
    const repo: TodoSQLiteDataSource
    const addTodo: AddTodo
    const updateTodo: UpdateTodo
    const toggleTodo: ToggleTodo
    const deleteTodo: DeleteTodo
    const listTodos: ListTodos

    /** The tasks on display. */
    var items: seq<Todo>
    /** Set while a listing is in progress. */
    var loading: bool

    ghost predicate Valid()
      reads this, repo
    {
      && repo.Valid()
      && addTodo.repo == repo && updateTodo.repo == repo && toggleTodo.repo == repo
      && deleteTodo.repo == repo && listTodos.repo == repo
    }

    /** Builds the use cases over `repo` and starts with an empty list marked as
      loading. */
    constructor(repo: TodoSQLiteDataSource)
      requires repo.Valid()
      ensures Valid() && this.repo == repo
      ensures items == [] && loading
    {
      this.repo := repo;
      addTodo := new AddTodo(repo);
      updateTodo := new UpdateTodo(repo);
      toggleTodo := new ToggleTodo(repo);
      deleteTodo := new DeleteTodo(repo);
      listTodos := new ListTodos(repo);
      items := [];
      loading := true;
    }

    /** The refresh of the first render: list with no filter. */
    method Mount(fault: bool) returns (outcome: Result<(), Error>)
      requires Valid()
      modifies this
      ensures Valid() && repo.table == old(repo.table)
      ensures fault ==> outcome == Err(StoreFailure) && items == old(items) && loading
      ensures !fault ==> outcome == Ok(()) && !loading && ListedUnder(repo.table, DEFAULTS, items)
    {
      MissingFiltersResolveToDefaults();
      outcome := Refresh(None, fault);
    }

    /** `refresh(filters)`: mark loading, list, show the list, clear the flag.
      When the listing fails the list stays as it was and the flag stays set. */
    method Refresh(filters: Option<FilterType>, fault: bool) returns (outcome: Result<(), Error>)
      requires Valid()
      modifies this
      ensures Valid() && repo.table == old(repo.table)
      ensures fault ==> outcome == Err(StoreFailure) && items == old(items) && loading
      ensures !fault ==> outcome == Ok(()) && !loading && ListedUnder(repo.table, Resolve(filters), items)
    {
      loading := true;
      var list := listTodos.Exec(filters, fault);
      if list.Err? {
        return Err(list.error);
      }
      items := list.value;
      loading := false;
      return Ok(());
    }

    /** `add`: adds `NewTask(todo, freshId, now)`, then refreshes with no filter.
      A failed insert leaves table, list and flag untouched. */
    method Add(todo: Todo, freshId: TodoId, now: int, fault: bool) returns (outcome: Result<(), Error>)
      requires Valid()
      modifies this, repo
      ensures Valid()
      ensures freshId in old(repo.table) ==>
        && outcome == Err(PrimaryKeyViolation)
        && repo.table == old(repo.table) && items == old(items) && loading == old(loading)
      ensures freshId !in old(repo.table) ==>
        && repo.table == old(repo.table)[freshId := ToRow(NewTask(todo, freshId, now))]
        && Refreshed(fault, outcome, old(items))
    {
      var added := addTodo.Exec(DraftOf(NewTask(todo, freshId, now)));
      if added.Err? {
        return Err(added.error);
      }
      MissingFiltersResolveToDefaults();
      outcome := Refresh(None, fault);
    }

    /** `toggle`: toggles through the use case, then refreshes with no filter. */
    method Toggle(id: TodoId, now: int, fault: bool) returns (outcome: Result<(), Error>)
      requires Valid()
      modifies this, repo
      ensures Valid()
      ensures id !in old(repo.table) ==>
        && outcome == Err(NotFound)
        && repo.table == old(repo.table) && items == old(items) && loading == old(loading)
      ensures id in old(repo.table) ==>
        && repo.table == old(repo.table)[id :=
             Overwrite(old(repo.table)[id], ToRow(Toggled(FromRow(old(repo.table)[id]), now)))]
        && Refreshed(fault, outcome, old(items))
    {
      var toggled := toggleTodo.Exec(id, now);
      if toggled.Err? {
        return Err(toggled.error);
      }
      MissingFiltersResolveToDefaults();
      outcome := Refresh(None, fault);
    }

    /** `remove`: deletes through the use case, then refreshes with no filter.
      `effects` are the use case's requests. */
    method Remove(id: TodoId, fault: bool) returns (outcome: Result<(), Error>, ghost effects: seq<Effect>)
      requires Valid()
      modifies this, repo
      ensures Valid()
      ensures id !in old(repo.table) ==>
        && outcome == Err(NotFound) && effects == []
        && repo.table == old(repo.table) && items == old(items) && loading == old(loading)
      ensures id in old(repo.table) ==>
        && repo.table == old(repo.table) - {id}
        && effects == ImageCleanup(old(repo.table)[id]) + [RowDeleted(id)]
        && Refreshed(fault, outcome, old(items))
    {
      var deleted;
      deleted, effects := deleteTodo.Exec(id);
      if deleted.Err? {
        return Err(deleted.error), effects;
      }
      MissingFiltersResolveToDefaults();
      outcome := Refresh(None, fault);
    }

    /** `update`: updates through the use case, then refreshes with no filter. */
    method Update(todo: Todo, now: int, fault: bool) returns (outcome: Result<(), Error>)
      requires Valid()
      modifies this, repo
      ensures Valid()
      ensures todo.id !in old(repo.table) ==>
        && outcome == Err(NotFound)
        && repo.table == old(repo.table) && items == old(items) && loading == old(loading)
      ensures todo.id in old(repo.table) ==>
        && repo.table == old(repo.table)[todo.id :=
             Overwrite(old(repo.table)[todo.id], ToRow(Restamp(todo, now)))]
        && Refreshed(fault, outcome, old(items))
    {
      var updated := updateTodo.Exec(todo, now);
      if updated.Err? {
        return Err(updated.error);
      }
      MissingFiltersResolveToDefaults();
      outcome := Refresh(None, fault);
    }

    /** The state after the refresh that follows a successful change: the list
      of the whole table under the default filter (not the filter the list
      screen shows), or, when that listing fails, the old list still loading. */
    ghost predicate Refreshed(fault: bool, outcome: Result<(), Error>, before: seq<Todo>)
      reads this, repo
    {
      && (fault ==> outcome == Err(StoreFailure) && items == before && loading)
      && (!fault ==> outcome == Ok(()) && !loading && ListedUnder(repo.table, DEFAULTS, items))
    }
  }
}
