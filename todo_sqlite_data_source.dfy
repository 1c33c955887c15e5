/** The SQLite-backed repository (src/data/datasources/sqlite/TodoSQLiteDataSource.ts):
    the `todos` table is a map from primary key to row, and each repository
    method reads or rewrites it the way its SQL statement does. */
module SqliteDataSource {
  import opened Wrappers
  import opened TodoEntity
  import opened TodoMapper
  import opened Filter
  import opened QueryBuilder
  import opened SqliteEngine
  import opened QuerySemantics

  /** How a repository call can fail: `get` finds no row ("Todo not found"), the
      INSERT hits the primary key, or the store throws while listing. */
  datatype Error = NotFound | PrimaryKeyViolation | StoreFailure

  /** The row `UPDATE todos SET title = ?, …, updated_at = ? WHERE id = ?` leaves
      behind: `id` and `created_at` are not in the SET list and keep their stored
      values. The update writes `row` verbatim exactly when it agrees on those two. */
  function Overwrite(stored: Row, row: Row): (r: Row)
    ensures r == row <==> row.id == stored.id && row.created_at == stored.created_at
  {
    row.(id := stored.id, created_at := stored.created_at)
  }

  /** `{ ...current, completed: !current.completed, updatedAt: now }`: the
      completion flips, the modification time becomes `now`, nothing else changes. */
  function Toggled(t: Todo, now: int): (r: Todo)
    ensures r.completed != t.completed && r.updatedAt == now
    ensures r.(completed := t.completed, updatedAt := t.updatedAt) == t
  {
    t.(completed := !t.completed, updatedAt := now)
  }

  /** `rows.map(TodoMapper.fromRow)`: one task per row, in row order, each with
      the row's key, title and creation time, so keys and sort order carry over. */
  function FromRows(rows: seq<Row>): (ts: seq<Todo>)
    ensures |ts| == |rows|
    ensures forall i :: 0 <= i < |ts| ==>
      ts[i].id == rows[i].id && ts[i].title == rows[i].title && ts[i].createdAt == rows[i].created_at
  {
    seq(|rows|, i requires 0 <= i < |rows| => FromRow(rows[i]))
  }

  /** `items` is what `all` returns for the resolved filter `f` on `table`: the
      mapped result of the SELECT it builds. */
  ghost predicate ListedUnder(table: map<TodoId, Row>, f: Resolved, items: seq<Todo>) {
    exists rows :: IsResult(table, Build(f), rows) && items == FromRows(rows)
  }

  lemma Listed(table: map<TodoId, Row>, f: Resolved, rows: seq<Row>)
    requires IsResult(table, Build(f), rows)
    ensures ListedUnder(table, f, FromRows(rows))
  {
  }

  class TodoSQLiteDataSource {
    /** The `todos` table, keyed by `id`. */
    var table: map<TodoId, Row>

    ghost predicate Valid()
      reads this
    {
      Keyed(table)
    }

    /** Opens the repository over an already migrated database holding `rows`. */
    constructor(rows: map<TodoId, Row>)
      requires Keyed(rows)
      ensures Valid() && table == rows
    {
      table := rows;
    }

    /** `add`: INSERT of `toRow(todo)`; the primary key rejects a second row with
      the same id and the table stays as it was. */
    method Add(todo: Todo) returns (result: Result<Todo, Error>)
      requires Valid()
      modifies this
      ensures Valid()
      ensures todo.id in old(table) ==> result == Err(PrimaryKeyViolation) && table == old(table)
      ensures todo.id !in old(table) ==>
        result == Ok(todo) && table == old(table)[todo.id := ToRow(todo)]
    {
      var row := ToRow(todo);
      if row.id in table {
        return Err(PrimaryKeyViolation);
      }
      table := table[row.id := row];
      return Ok(todo);
    }

    /** `get`: the stored row under `id`, mapped back to a task. */
    method Get(id: TodoId) returns (result: Result<Todo, Error>)
      ensures id in table ==> result == Ok(FromRow(table[id]))
      ensures id !in table ==> result == Err(NotFound)
    {
      if id !in table {
        return Err(NotFound);
      }
      return Ok(FromRow(table[id]));
    }

    /** `update`: the UPDATE rewrites the mutable columns of the row with
      `todo.id` (and does nothing when there is none), then `get` re-reads it. */
    method Update(todo: Todo) returns (result: Result<Todo, Error>)
      requires Valid()
      modifies this
      ensures Valid()
      ensures todo.id in old(table) ==>
        && table == old(table)[todo.id := Overwrite(old(table)[todo.id], ToRow(todo))]
        && result == Ok(FromRow(table[todo.id]))
      ensures todo.id !in old(table) ==> table == old(table) && result == Err(NotFound)
    {
      var row := ToRow(todo);
      if row.id in table {
        table := table[row.id := Overwrite(table[row.id], row)];
      }
      result := Get(todo.id);
    }

    /** `delete`: DELETE … WHERE id = ?, which succeeds whether or not the row exists. */
    method Delete(id: TodoId)
      requires Valid()
      modifies this
      ensures Valid()
      ensures table == old(table) - {id}
    {
      table := table - {id};
    }

    /** `toggle`: read the task, flip `completed`, stamp `updatedAt`, write it
      back through `update`, and return the flipped task. */
    method Toggle(id: TodoId, now: int) returns (result: Result<Todo, Error>)
      requires Valid()
      modifies this
      ensures Valid()
      ensures id !in old(table) ==> result == Err(NotFound) && table == old(table)
      ensures id in old(table) ==>
        && result == Ok(Toggled(FromRow(old(table)[id]), now))
        && table == old(table)[id := Overwrite(old(table)[id], ToRow(result.value))]
    {
      var current := Get(id);
      if current.Err? {
        return current;
      }
      var toggled := Toggled(current.value, now);
      var _ := Update(toggled);
      return Ok(toggled);
    }

    /** `all`: build the query from the filter, run it, and map the rows; when
      the store throws (`fault`), the error is passed on to the caller. */
    method All(filters: Option<FilterType>, fault: bool) returns (result: Result<seq<Todo>, Error>)
      requires Valid()
      ensures fault ==> result == Err(StoreFailure)
      ensures !fault ==> result.Ok? && ListedUnder(table, Resolve(filters), result.value)
    {
      var sql, q := BuildQuery(filters);
      if fault {
        return Err(StoreFailure);
      }
      var rows := Select(table, sql, q);
      Listed(table, Resolve(filters), rows);
      return Ok(FromRows(rows));
    }
  }

  // ---------------------------------------------------------------------------
  // What a listing contains.

  /** A listing holds exactly the stored tasks the filter accepts, each once,
      read back through `fromRow`, in the order the filter asks for. */
  lemma ListingContents(table: map<TodoId, Row>, f: Resolved, items: seq<Todo>)
    requires Keyed(table) && ListedUnder(table, f, items)
    ensures forall id :: id in table && Matches(f, table[id]) ==> FromRow(table[id]) in items
    ensures forall t :: t in items ==>
      t.id in table && Matches(f, table[t.id]) && t == FromRow(table[t.id])
    ensures forall i, j :: 0 <= i < j < |items| ==> items[i].id != items[j].id
    ensures forall i, j :: 0 <= i < j < |items| ==>
      items[i].id in table && items[j].id in table
      && RowLe(table[items[i].id], table[items[j].id], Build(f).orderBy, Build(f).direction)
  {
    var rows :| IsResult(table, Build(f), rows) && items == FromRows(rows);
    forall id | id in table && Matches(f, table[id]) ensures FromRow(table[id]) in items {
      WhereMeansMatches(f, table[id]);
      assert table[id] in rows;
      var k :| 0 <= k < |rows| && rows[k] == table[id];
      assert items[k] == FromRow(table[id]);
    }
    forall t | t in items
      ensures t.id in table && Matches(f, table[t.id]) && t == FromRow(table[t.id])
    {
      var k :| 0 <= k < |items| && items[k] == t;
      assert rows[k] in rows;
      WhereMeansMatches(f, rows[k]);
    }
  }

  /** With no filter, the listing is the whole table, newest first. */
  lemma DefaultListingIsWholeTable(table: map<TodoId, Row>, items: seq<Todo>)
    requires Keyed(table) && ListedUnder(table, Resolve(None), items)
    ensures forall id :: id in table ==> FromRow(table[id]) in items
    ensures forall t :: t in items ==> t.id in table && t == FromRow(table[t.id])
    ensures forall i, j :: 0 <= i < j < |items| ==> items[i].createdAt >= items[j].createdAt
  {
    MissingFiltersResolveToDefaults();
    DefaultQuery();
    ListingContents(table, DEFAULTS, items);
    forall id | id in table ensures FromRow(table[id]) in items {
      DefaultsSelectEverything(table[id]);
    }
  }

  /** Status "completed" lists only completed tasks and "pending" only open ones;
      a stored `completed` other than 0 or 1 is listed under neither. */
  lemma StatusListing(table: map<TodoId, Row>, f: Resolved, items: seq<Todo>)
    requires Keyed(table) && ListedUnder(table, f, items)
    ensures f.status == "completed" ==>
      forall t :: t in items ==> t.completed && t.id in table && table[t.id].completed == 1
    ensures f.status == "pending" ==>
      forall t :: t in items ==> !t.completed && t.id in table && table[t.id].completed == 0
  {
    ListingContents(table, f, items);
  }

  // ---------------------------------------------------------------------------
  // Writes.

  /** The row `toggle` writes back: completed flipped, `updated_at` stamped,
      id, title, description, image and creation time kept, and both coordinates
      set, a missing one becoming 0 because it was read through `Number(null)`. */
  lemma ToggleWriteBack(stored: Row, now: int)
    ensures var w := Overwrite(stored, ToRow(Toggled(FromRow(stored), now)));
      && w.completed == (if stored.completed == 1 then 0 else 1)
      && w.updated_at == now
      && w.id == stored.id && w.created_at == stored.created_at
      && w.title == stored.title && w.description == stored.description
      && w.image_uri == stored.image_uri
      && w.latitude.Some? && w.longitude.Some?
      && (stored.latitude.Some? ==> w.latitude == stored.latitude)
      && (stored.longitude.Some? ==> w.longitude == stored.longitude)
      && (stored.latitude.None? ==> w.latitude == Some(0.0))
      && (stored.longitude.None? ==> w.longitude == Some(0.0))
  {
  }

  /** Toggling twice restores the task's completion as read, and the stored
      flag itself whenever it was 0 or 1. */
  lemma ToggleTwiceRestoresCompletion(stored: Row, now1: int, now2: int)
    ensures var w1 := Overwrite(stored, ToRow(Toggled(FromRow(stored), now1)));
      var w2 := Overwrite(w1, ToRow(Toggled(FromRow(w1), now2)));
      && FromRow(w2).completed == FromRow(stored).completed
      && (stored.completed == 0 || stored.completed == 1 ==> w2.completed == stored.completed)
  {
    ToggleWriteBack(stored, now1);
    var w1 := Overwrite(stored, ToRow(Toggled(FromRow(stored), now1)));
    ToggleWriteBack(w1, now2);
  }

  /** `update` keeps the stored creation time, so the task it returns is the task
      passed in except for `createdAt`, which comes from the store; a tidy
      (canonical) task survives otherwise unchanged. */
  lemma UpdateResult(stored: Row, t: Todo)
    requires t.id == stored.id
    ensures FromRow(Overwrite(stored, ToRow(t))).createdAt == stored.created_at
    ensures Canonical(t) ==> FromRow(Overwrite(stored, ToRow(t))) == t.(createdAt := stored.created_at)
  {
    if Canonical(t) {
      RoundTripExactIff(t);
      RoundTripExactIff(t.(createdAt := stored.created_at));
    }
  }
}
