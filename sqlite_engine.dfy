/** What the embedded store does with the query `all` hands it: the `todos`
    table as a map keyed by primary key, the meaning of each WHERE fragment
    (LIKE, COALESCE, TRIM, IS NOT NULL), positional binding of `?` placeholders,
    and ORDER BY under the default BINARY collation. */
module SqliteEngine {
  import opened Wrappers
  import opened JsString
  import opened TodoMapper
  import opened QueryBuilder

  /** The table is keyed by its primary key `id` (src/infra/db/migration.ts:7). */
  ghost predicate Keyed(table: map<string, Row>) {
    forall id :: id in table ==> table[id].id == id
  }

  /** `x` is the stored row under its own id. */
  predicate InTable(table: map<string, Row>, x: Row) {
    x.id in table && table[x.id] == x
  }

  // ---------------------------------------------------------------------------
  // Scalar functions and operators.

  /** Character comparison inside LIKE: by default SQLite folds the case of ASCII
      letters only. */
  predicate LikeCharEq(p: char, c: char) {
    LowerAscii(p) == LowerAscii(c)
  }

  /** `s LIKE pattern` with SQLite's defaults: `%` matches any run of characters,
      `_` any one character, and there is no escape character. */
  predicate Like(pattern: string, s: string)
    decreases |pattern| + |s|
  {
    if pattern == [] then s == []
    else if pattern[0] == '%' then Like(pattern[1..], s) || (s != [] && Like(pattern, s[1..]))
    else s != [] && (pattern[0] == '_' || LikeCharEq(pattern[0], s[0])) && Like(pattern[1..], s[1..])
  }

  /** `COALESCE(x, '')`. */
  function Coalesce(x: Option<string>): string {
    if x.Some? then x.value else ""
  }

  /** `TRIM(x)`: with no second argument SQLite removes spaces only. */
  function SqlTrim(s: string): string {
    TrimWith(s, c => c == ' ')
  }

  // ---------------------------------------------------------------------------
  // The WHERE part.

  /** One fragment, given the parameters bound to its own placeholders. */
  predicate ClauseHolds(c: Clause, bound: seq<string>, row: Row)
    requires |bound| == Placeholders(c)
  {
    match c
    case Search => Like(bound[0], row.title) || Like(bound[1], Coalesce(row.description))
    case CompletedOnly => row.completed == 1
    case PendingOnly => row.completed == 0
    case WithImage => row.image_uri.Some? && SqlTrim(row.image_uri.value) != ""
    case WithLocation => row.latitude.Some? && row.longitude.Some?
  }

  /** The fragments joined by AND, the `?` placeholders binding the parameters
      from left to right. */
  predicate WhereHolds(where: seq<Clause>, params: seq<string>, row: Row)
    requires |params| == PlaceholdersIn(where)
  {
    if where == [] then true
    else
      var n := Placeholders(where[0]);
      ClauseHolds(where[0], params[..n], row) && WhereHolds(where[1..], params[n..], row)
  }

  /** AND over a concatenation of fragment lists is the AND of the two parts. */
  lemma {:induction false} WhereHoldsAppend(a: seq<Clause>, pa: seq<string>, b: seq<Clause>, pb: seq<string>, row: Row)
    requires |pa| == PlaceholdersIn(a) && |pb| == PlaceholdersIn(b)
    ensures |pa + pb| == PlaceholdersIn(a + b)
    ensures WhereHolds(a + b, pa + pb, row) <==> WhereHolds(a, pa, row) && WhereHolds(b, pb, row)
  {
    PlaceholdersConcat(a, b);
    if a == [] {
      assert a + b == b && pa + pb == pb;
    } else {
      var n := Placeholders(a[0]);
      assert (a + b)[0] == a[0] && (a + b)[1..] == a[1..] + b;
      assert (pa + pb)[..n] == pa[..n];
      assert (pa + pb)[n..] == pa[n..] + pb;
      WhereHoldsAppend(a[1..], pa[n..], b, pb, row);
    }
  }

  // ---------------------------------------------------------------------------
  // ORDER BY.

  /** BINARY collation on text: lexicographic by code point, which is also the
      byte order of the UTF-8 encoding. */
  predicate TextLe(a: string, b: string) {
    a == [] || (b != [] && (a[0] < b[0] || (a[0] == b[0] && TextLe(a[1..], b[1..]))))
  }

  lemma {:induction false} TextLeTotal(a: string, b: string)
    ensures TextLe(a, b) || TextLe(b, a)
  {
    if a != [] && b != [] && a[0] == b[0] {
      TextLeTotal(a[1..], b[1..]);
    }
  }

  lemma {:induction false} TextLeTransitive(a: string, b: string, c: string)
    requires TextLe(a, b) && TextLe(b, c)
    ensures TextLe(a, c)
  {
    if a != [] && a[0] == b[0] && b[0] == c[0] {
      TextLeTransitive(a[1..], b[1..], c[1..]);
    }
  }

  /** `a` may precede `b` in `ORDER BY orderBy direction`. */
  predicate RowLe(a: Row, b: Row, orderBy: Column, direction: Direction) {
    match (orderBy, direction)
    case (Title, Asc) => TextLe(a.title, b.title)
    case (Title, Desc) => TextLe(b.title, a.title)
    case (CreatedAt, Asc) => a.created_at <= b.created_at
    case (CreatedAt, Desc) => b.created_at <= a.created_at
  }

  lemma RowLeTotal(a: Row, b: Row, orderBy: Column, direction: Direction)
    ensures RowLe(a, b, orderBy, direction) || RowLe(b, a, orderBy, direction)
  {
    TextLeTotal(a.title, b.title);
  }

  lemma RowLeTransitive(a: Row, b: Row, c: Row, orderBy: Column, direction: Direction)
    requires RowLe(a, b, orderBy, direction) && RowLe(b, c, orderBy, direction)
    ensures RowLe(a, c, orderBy, direction)
  {
    if orderBy == Title {
      if direction == Asc {
        TextLeTransitive(a.title, b.title, c.title);
      } else {
        TextLeTransitive(c.title, b.title, a.title);
      }
    }
  }

  ghost predicate Ordered(rows: seq<Row>, orderBy: Column, direction: Direction) {
    forall i, j :: 0 <= i < j < |rows| ==> RowLe(rows[i], rows[j], orderBy, direction)
  }

  ghost predicate DistinctIds(rows: seq<Row>) {
    forall i, j :: 0 <= i < j < |rows| ==> rows[i].id != rows[j].id
  }

  /** Puts `x` after every row that must precede it. */
  function Insert(rows: seq<Row>, x: Row, orderBy: Column, direction: Direction): (r: seq<Row>)
    ensures multiset(r) == multiset(rows) + multiset{x}
  {
    if rows == [] then [x]
    else if RowLe(x, rows[0], orderBy, direction) then [x] + rows
    else
      assert rows == [rows[0]] + rows[1..];
      [rows[0]] + Insert(rows[1..], x, orderBy, direction)
  }

  lemma {:induction false} InsertOrdered(rows: seq<Row>, x: Row, orderBy: Column, direction: Direction)
    requires Ordered(rows, orderBy, direction)
    ensures Ordered(Insert(rows, x, orderBy, direction), orderBy, direction)
  {
    if rows == [] {
    } else if RowLe(x, rows[0], orderBy, direction) {
      var r := Insert(rows, x, orderBy, direction);
      forall i, j | 0 <= i < j < |r| ensures RowLe(r[i], r[j], orderBy, direction) {
        if i == 0 && j > 1 {
          RowLeTransitive(x, rows[0], rows[j - 1], orderBy, direction);
        }
      }
    } else {
      RowLeTotal(x, rows[0], orderBy, direction);
      InsertOrdered(rows[1..], x, orderBy, direction);
      InsertBelow(rows[1..], x, rows[0], orderBy, direction);
      ConsOrdered(rows[0], Insert(rows[1..], x, orderBy, direction), orderBy, direction);
    }
  }

  /** A row that may precede `x` and every row of `rows` may precede every row
      of `Insert(rows, x)`. */
  lemma InsertBelow(rows: seq<Row>, x: Row, y: Row, orderBy: Column, direction: Direction)
    requires forall i :: 0 <= i < |rows| ==> RowLe(y, rows[i], orderBy, direction)
    requires RowLe(y, x, orderBy, direction)
    ensures forall z :: z in Insert(rows, x, orderBy, direction) ==> RowLe(y, z, orderBy, direction)
  {
    var r := Insert(rows, x, orderBy, direction);
    forall z | z in r ensures RowLe(y, z, orderBy, direction) {
      assert z in multiset(r);
      if z != x {
        assert z in multiset(rows);
        var k :| 0 <= k < |rows| && rows[k] == z;
      }
    }
  }

  lemma ConsOrdered(y: Row, rest: seq<Row>, orderBy: Column, direction: Direction)
    requires Ordered(rest, orderBy, direction)
    requires forall z :: z in rest ==> RowLe(y, z, orderBy, direction)
    ensures Ordered([y] + rest, orderBy, direction)
  {
    var r := [y] + rest;
    forall i, j | 0 <= i < j < |r| ensures RowLe(r[i], r[j], orderBy, direction) {
      assert r[j] == rest[j - 1];
      if i > 0 {
        assert r[i] == rest[i - 1];
      } else {
        assert rest[j - 1] in rest;
      }
    }
  }

  lemma {:induction false} InsertDistinct(rows: seq<Row>, x: Row, orderBy: Column, direction: Direction)
    requires DistinctIds(rows)
    requires forall y :: y in rows ==> y.id != x.id
    ensures DistinctIds(Insert(rows, x, orderBy, direction))
  {
    var r := Insert(rows, x, orderBy, direction);
    if rows != [] && !RowLe(x, rows[0], orderBy, direction) {
      var rest := Insert(rows[1..], x, orderBy, direction);
      InsertDistinct(rows[1..], x, orderBy, direction);
      forall j | 0 <= j < |rest| ensures rows[0].id != rest[j].id {
        assert rest[j] in multiset(rest);
        if rest[j] != x {
          assert rest[j] in multiset(rows[1..]);
          var k :| 0 <= k < |rows[1..]| && rows[1..][k] == rest[j];
          assert rows[k + 1] == rest[j];
        } else {
          assert rows[0] in rows;
        }
      }
      assert r == [rows[0]] + rest;
    }
  }

  // ---------------------------------------------------------------------------
  // SELECT.

  /** What `SELECT * FROM todos WHERE … ORDER BY …` returns: exactly the stored
      rows for which the WHERE part holds, each once, in ORDER BY order. Rows
      that tie on the sort key may come in any order. */
  ghost predicate IsResult(table: map<string, Row>, q: Query, rows: seq<Row>)
    requires |q.params| == PlaceholdersIn(q.where)
  {
    && (forall x :: x in rows <==> InTable(table, x) && WhereHolds(q.where, q.params, x))
    && DistinctIds(rows)
    && Ordered(rows, q.orderBy, q.direction)
  }

  /** `db.getAllSync(sql, params)`, where `sql` is the text of `q`: the table is
      scanned, every row the WHERE part accepts is placed in sort order. */
  method Select(table: map<string, Row>, sql: string, q: Query) returns (rows: seq<Row>)
    requires Keyed(table)
    requires |q.params| == PlaceholdersIn(q.where)
    requires sql == Render(q)
    ensures IsResult(table, q, rows)
  {
    rows := [];
    var pending := table.Keys;
    while pending != {}
      invariant pending <= table.Keys
      invariant forall x :: x in rows <==>
        InTable(table, x) && x.id !in pending && WhereHolds(q.where, q.params, x)
      invariant DistinctIds(rows)
      invariant Ordered(rows, q.orderBy, q.direction)
      decreases pending
    {
      var id :| id in pending;
      var row := table[id];
      if WhereHolds(q.where, q.params, row) {
        InsertOrdered(rows, row, q.orderBy, q.direction);
        InsertDistinct(rows, row, q.orderBy, q.direction);
        var before := rows;
        rows := Insert(rows, row, q.orderBy, q.direction);
        forall x ensures x in rows <==> x in before || x == row {
          assert x in rows <==> x in multiset(rows);
        }
      }
      pending := pending - {id};
    }
  }
}
