/** Conversion between the Todo entity and a row of the `todos` table
    (src/data/mappers/TodoMapper.ts). */
module TodoMapper {
  import opened Wrappers
  import opened TodoEntity

  /** A row of the `todos` table (src/infra/db/migration.ts:6-16). Fields carry the
      column names; `None` in a nullable column is SQL NULL. `completed` is an
      INTEGER column and so may hold any integer, not only 0 and 1. */
  datatype Row = Row(
    id: string,
    title: string,
    description: Option<string>,
    image_uri: Option<string>,
    completed: int,
    latitude: Option<real>,
    longitude: Option<real>,
    created_at: int,
    updated_at: int)

  /** `x ?? null` on an entity field: `undefined` and `null` both become NULL. */
  function NullIfAbsent<T>(x: JsOptional<T>): Option<T> {
    if x.Present? then Some(x.value) else None
  }

  /** `row.x ?? null` on a text column: NULL becomes `null`, never `undefined`. */
  function NullableText(x: Option<string>): JsOptional<string> {
    match x
    case Some(v) => Present(v)
    case None => Null
  }

  /** `Number(row.x)` on a REAL column: `Number(null)` is 0. */
  function Number(x: Option<real>): real {
    match x
    case Some(v) => v
    case None => 0.0
  }

  /** `TodoMapper.toRow`: every column is written, NULL standing in for an absent
      optional field, and `completed` encoded as 1 or 0. */
  function ToRow(t: Todo): (r: Row)
    ensures r.completed == 0 || r.completed == 1
  {
    Row(
      t.id,
      t.title,
      NullIfAbsent(t.description),
      NullIfAbsent(t.imageUri),
      if t.completed then 1 else 0,
      NullIfAbsent(t.latitude),
      NullIfAbsent(t.longitude),
      t.createdAt,
      t.updatedAt)
  }

  /** `TodoMapper.fromRow`. Whatever the row, the entity it yields has both
      coordinates present and no `undefined` text field. */
  function FromRow(r: Row): (t: Todo)
    ensures Canonical(t)
  {
    Todo(
      r.id,
      r.title,
      NullableText(r.description),
      NullableText(r.image_uri),
      r.completed == 1,
      Present(Number(r.latitude)),
      Present(Number(r.longitude)),
      r.created_at,
      r.updated_at)
  }

  /** The entities `FromRow` can produce: text fields are `null` or a string,
      coordinates are numbers. */
  predicate Canonical(t: Todo) {
    && !t.description.Undefined?
    && !t.imageUri.Undefined?
    && t.latitude.Present?
    && t.longitude.Present?
  }

  /** `toRow` substitutes NULL for every absent optional field and for no other,
      and stores each present value as it is. */
  lemma ToRowEncoding(t: Todo)
    ensures var r := ToRow(t);
      && r.id == t.id && r.title == t.title
      && (r.description == None <==> !t.description.Present?)
      && (r.image_uri == None <==> !t.imageUri.Present?)
      && (r.latitude == None <==> !t.latitude.Present?)
      && (r.longitude == None <==> !t.longitude.Present?)
      && (t.description.Present? ==> r.description == Some(t.description.value))
      && (t.imageUri.Present? ==> r.image_uri == Some(t.imageUri.value))
      && (t.latitude.Present? ==> r.latitude == Some(t.latitude.value))
      && (t.longitude.Present? ==> r.longitude == Some(t.longitude.value))
      && (r.completed == 1 <==> t.completed)
      && r.created_at == t.createdAt && r.updated_at == t.updatedAt
  {
  }

  /** What survives `fromRow(toRow(t))`: identity, title, completion and both
      timestamps unchanged; a present text field (even "") unchanged, an absent one
      as `null`; a present coordinate unchanged, an absent one as 0. */
  lemma RoundTrip(t: Todo)
    ensures var u := FromRow(ToRow(t));
      && u.id == t.id && u.title == t.title && u.completed == t.completed
      && u.createdAt == t.createdAt && u.updatedAt == t.updatedAt
      && u.description == (if t.description.Present? then t.description else Null)
      && u.imageUri == (if t.imageUri.Present? then t.imageUri else Null)
      && u.latitude == (if t.latitude.Present? then t.latitude else Present(0.0))
      && u.longitude == (if t.longitude.Present? then t.longitude else Present(0.0))
  {
  }

  /** The round trip is lossless exactly for the entities `fromRow` can produce:
      a task without coordinates, or with an `undefined` text field, comes back
      different. */
  lemma RoundTripExactIff(t: Todo)
    ensures FromRow(ToRow(t)) == t <==> Canonical(t)
  {
    RoundTrip(t);
  }

  /** A task saved without coordinates reads back as located at (0, 0). */
  lemma CoordinatelessTaskReadsAsZero(t: Todo)
    requires !t.latitude.Present? && !t.longitude.Present?
    ensures FromRow(ToRow(t)).latitude == Present(0.0)
    ensures FromRow(ToRow(t)).longitude == Present(0.0)
    ensures FromRow(ToRow(t)) != t
  {
  }

  /** `fromRow` reads `completed` as true only for the stored value 1. */
  lemma CompletedDecoding(r: Row)
    ensures FromRow(r).completed <==> r.completed == 1
    ensures r.completed != 1 ==> !FromRow(r).completed
  {
  }

  /** Reading a row and writing it back reproduces the row exactly when its
      `completed` is 0 or 1 and both coordinates are non-NULL. */
  lemma RowRoundTripIff(r: Row)
    ensures ToRow(FromRow(r)) == r <==>
      (r.completed == 0 || r.completed == 1) && r.latitude.Some? && r.longitude.Some?
  {
    var w := ToRow(FromRow(r));
    assert w.description == r.description;
    assert w.image_uri == r.image_uri;
  }
}
