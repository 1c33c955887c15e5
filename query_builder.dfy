/** The SQL text and bound parameters `TodoSQLiteDataSource.all` builds from a
    filter (src/data/datasources/sqlite/TodoSQLiteDataSource.ts:81-119). */
module QueryBuilder {
  import opened Wrappers
  import opened Filter
  import opened JsString

  /** The fixed WHERE fragments the builder can push; nothing else ever enters `where`. */
  datatype Clause = Search | CompletedOnly | PendingOnly | WithImage | WithLocation

  /** ORDER BY column and direction. */
  datatype Column = Title | CreatedAt
  datatype Direction = Asc | Desc

  /** What the builder hands to the store: the WHERE fragments in push order, the
      bound parameters in push order, and the ordering. The SQL text is `Render(q)`. */
  datatype Query = Query(where: seq<Clause>, params: seq<string>, orderBy: Column, direction: Direction)

  const SELECT_ALL := "SELECT * FROM todos"

  function ClauseText(c: Clause): string {
    match c
    case Search => "(title LIKE ? OR COALESCE(description,'') LIKE ?)"
    case CompletedOnly => "completed = 1"
    case PendingOnly => "completed = 0"
    case WithImage => "(image_uri IS NOT NULL AND TRIM(image_uri) <> '')"
    case WithLocation => "(latitude IS NOT NULL AND longitude IS NOT NULL)"
  }

  function ColumnName(c: Column): string {
    match c
    case Title => "title"
    case CreatedAt => "created_at"
  }

  function DirectionKeyword(d: Direction): string {
    match d
    case Asc => "ASC"
    case Desc => "DESC"
  }

  /** The `?` placeholders in a fragment's text. */
  function Placeholders(c: Clause): nat {
    if c == Search then 2 else 0
  }

  function PlaceholdersIn(where: seq<Clause>): nat {
    if where == [] then 0 else Placeholders(where[0]) + PlaceholdersIn(where[1..])
  }

  function Texts(where: seq<Clause>): seq<string> {
    if where == [] then [] else [ClauseText(where[0])] + Texts(where[1..])
  }

  /** The search pattern: the trimmed query wrapped in `%`, with any `%` or `_` in
      the user's text left as it is. */
  function SearchPattern(query: string): string {
    "%" + Trim(query) + "%"
  }

  /** The query `all` builds for a resolved filter: one fragment per active
      restriction in a fixed order, two copies of the search pattern when the
      trimmed query is non-empty, and the order resolved from `sortBy`/`sortOrder`. */
  function Build(f: Resolved): (q: Query)
    ensures |q.params| == PlaceholdersIn(q.where)
  {
    PlaceholdersOfBuild(|Trim(f.query)| > 0, f.status == "completed", f.status == "pending", f.hasImage, f.hasLocation);
    Query(WhereOf(f), ParamsOf(f), OrderByOf(f), DirectionOf(f))
  }

  /** The WHERE fragments, in the order `all` pushes them; only the search
      fragment carries placeholders, two of them. */
  function WhereOf(f: Resolved): (w: seq<Clause>)
    ensures PlaceholdersIn(w) == (if |Trim(f.query)| > 0 then 2 else 0)
  {
    PlaceholdersOfBuild(|Trim(f.query)| > 0, f.status == "completed", f.status == "pending", f.hasImage, f.hasLocation);
    (if |Trim(f.query)| > 0 then [Search] else [])
    + (if f.status == "completed" then [CompletedOnly] else [])
    + (if f.status == "pending" then [PendingOnly] else [])
    + (if f.hasImage then [WithImage] else [])
    + (if f.hasLocation then [WithLocation] else [])
  }

  /** The bound parameters: one per placeholder of the WHERE fragments, each the
      search pattern. */
  function ParamsOf(f: Resolved): (ps: seq<string>)
    ensures |ps| == PlaceholdersIn(WhereOf(f))
    ensures forall i :: 0 <= i < |ps| ==> ps[i] == SearchPattern(f.query)
  {
    if |Trim(f.query)| > 0 then [SearchPattern(f.query), SearchPattern(f.query)] else []
  }

  /** `sortBy === "title" ? "title" : "created_at"`: the requested column when it
      is "title", the default column for any other token. */
  function OrderByOf(f: Resolved): (c: Column)
    ensures ColumnName(c) == (if f.sortBy == "title" then f.sortBy else DEFAULTS.sortBy)
  {
    if f.sortBy == "title" then Title else CreatedAt
  }

  /** `sortOrder.toLowerCase() === "asc" ? "ASC" : "DESC"`: ascending for the
      eight letter-case spellings of "asc", descending for any other token. */
  function DirectionOf(f: Resolved): (d: Direction)
    ensures d == Asc <==>
      |f.sortOrder| == 3 && (f.sortOrder[0] == 'a' || f.sortOrder[0] == 'A')
      && (f.sortOrder[1] == 's' || f.sortOrder[1] == 'S')
      && (f.sortOrder[2] == 'c' || f.sortOrder[2] == 'C')
  {
    LowerIsAscIff(f.sortOrder);
    if ToLowerCase(f.sortOrder) == "asc" then Asc else Desc
  }

  /** The position of a fragment in the push order of `all`. */
  function Rank(c: Clause): nat {
    match c
    case Search => 0
    case CompletedOnly => 1
    case PendingOnly => 2
    case WithImage => 3
    case WithLocation => 4
  }

  /** Fragments in strictly increasing push order, so none repeats. */
  ghost predicate Ranked(w: seq<Clause>) {
    forall i, j :: 0 <= i < j < |w| ==> Rank(w[i]) < Rank(w[j])
  }

  /** The fragments come in the order `all` pushes them (search, status, image,
      location), each at most once. */
  lemma WhereOrder(f: Resolved)
    ensures Ranked(WhereOf(f))
  {
    RankedShape(|Trim(f.query)| > 0, f.status == "completed", f.status == "pending", f.hasImage, f.hasLocation);
  }

  lemma RankedShape(s: bool, c: bool, p: bool, i: bool, l: bool)
    ensures Ranked((if s then [Search] else []) + (if c then [CompletedOnly] else [])
                   + (if p then [PendingOnly] else []) + (if i then [WithImage] else [])
                   + (if l then [WithLocation] else []))
  {
    var w0: seq<Clause> := [];
    ExtendRanked(w0, s, Search);
    var w1 := w0 + (if s then [Search] else []);
    ExtendRanked(w1, c, CompletedOnly);
    var w2 := w1 + (if c then [CompletedOnly] else []);
    ExtendRanked(w2, p, PendingOnly);
    var w3 := w2 + (if p then [PendingOnly] else []);
    ExtendRanked(w3, i, WithImage);
    var w4 := w3 + (if i then [WithImage] else []);
    ExtendRanked(w4, l, WithLocation);
    assert w1 == (if s then [Search] else []);
  }

  lemma ExtendRanked(w: seq<Clause>, b: bool, x: Clause)
    requires Ranked(w)
    requires forall i :: 0 <= i < |w| ==> Rank(w[i]) < Rank(x)
    ensures var v := w + (if b then [x] else []);
      Ranked(v) && forall i :: 0 <= i < |v| ==> Rank(v[i]) <= Rank(x)
  {
  }

  lemma PlaceholdersConcat(a: seq<Clause>, b: seq<Clause>)
    ensures PlaceholdersIn(a + b) == PlaceholdersIn(a) + PlaceholdersIn(b)
  {
    if a != [] {
      assert (a + b)[1..] == a[1..] + b;
    } else {
      assert a + b == b;
    }
  }

  lemma PlaceholdersOfBuild(s: bool, c: bool, p: bool, i: bool, l: bool)
    ensures var w := (if s then [Search] else []) + (if c then [CompletedOnly] else [])
      + (if p then [PendingOnly] else []) + (if i then [WithImage] else [])
      + (if l then [WithLocation] else []);
      PlaceholdersIn(w) == if s then 2 else 0
  {
    var a, b, d, e, g := (if s then [Search] else []), (if c then [CompletedOnly] else []),
      (if p then [PendingOnly] else []), (if i then [WithImage] else []), (if l then [WithLocation] else []);
    PlaceholdersConcat(a + b + d + e, g);
    PlaceholdersConcat(a + b + d, e);
    PlaceholdersConcat(a + b, d);
    PlaceholdersConcat(a, b);
  }

  /** The SQL text of a query: it has exactly one `?` per placeholder of the
      WHERE fragments. */
  function Render(q: Query): (sql: string)
    ensures Occurrences(sql, '?') == PlaceholdersIn(q.where)
  {
    SqlPlaceholders(q.where, q.orderBy, q.direction);
    Sql(q.where, q.orderBy, q.direction)
  }

  /** `SELECT * FROM todos`, the WHERE part if any, then the ORDER BY part: the
      text starts with the SELECT and ends with the ORDER BY. */
  function Sql(where: seq<Clause>, orderBy: Column, direction: Direction): (sql: string)
    ensures |SELECT_ALL| <= |sql| && sql[..|SELECT_ALL|] == SELECT_ALL
    ensures |OrderByPart(orderBy, direction)| <= |sql|
    ensures sql[|sql| - |OrderByPart(orderBy, direction)|..] == OrderByPart(orderBy, direction)
  {
    SELECT_ALL + WherePart(where) + OrderByPart(orderBy, direction)
  }

  function WherePart(where: seq<Clause>): string {
    if |where| > 0 then " WHERE " + Join(Texts(where), " AND ") else ""
  }

  function OrderByPart(orderBy: Column, direction: Direction): string {
    " ORDER BY " + ColumnName(orderBy) + " " + DirectionKeyword(direction)
  }

  /** The body of `all` up to the call into the store: the filter is resolved,
      `where` and `params` are pushed to, then the SQL text is assembled. */
  method BuildQuery(filters: Option<FilterType>) returns (sql: string, q: Query)
    ensures q == Build(Resolve(filters))
    ensures sql == Render(q)
  {
    var f := Resolve(filters);
    var where, params := BuildWhere(f);
    var orderBy, direction;
    sql, orderBy, direction := ComposeSql(where, f.sortBy, f.sortOrder);
    q := Query(where, params, orderBy, direction);
  }

  /** `sql` is started from the base query and extended with `+=`: the WHERE part
      when there is a restriction, then the ORDER BY part. */
  method ComposeSql(where: seq<Clause>, sortBy: string, sortOrder: string)
    returns (sql: string, orderBy: Column, direction: Direction)
    ensures orderBy == (if sortBy == "title" then Title else CreatedAt)
    ensures direction == (if ToLowerCase(sortOrder) == "asc" then Asc else Desc)
    ensures sql == Sql(where, orderBy, direction)
  {
    sql := SELECT_ALL;
    if |where| > 0 {
      sql := sql + (" WHERE " + Join(Texts(where), " AND "));
    } else {
      assert sql == SELECT_ALL + WherePart(where);
    }
    orderBy := if sortBy == "title" then Title else CreatedAt;
    direction := if ToLowerCase(sortOrder) == "asc" then Asc else Desc;
    sql := sql + (" ORDER BY " + ColumnName(orderBy) + " " + DirectionKeyword(direction));
  }

  /** The pushes onto `where` and `params`, one restriction at a time. */
  method BuildWhere(f: Resolved) returns (where: seq<Clause>, params: seq<string>)
    ensures where == WhereOf(f) && params == ParamsOf(f)
  {
    where, params := [], [];
    var query := Trim(f.query);
    if |query| > 0 {
      where := where + [Search];
      var pattern := "%" + query + "%";
      params := params + [pattern, pattern];
    }
    ghost var w := if |query| > 0 then [Search] else [];
    assert where == w;
    if f.status == "completed" {
      where := where + [CompletedOnly];
    }
    w := w + if f.status == "completed" then [CompletedOnly] else [];
    assert where == w;
    if f.status == "pending" {
      where := where + [PendingOnly];
    }
    w := w + if f.status == "pending" then [PendingOnly] else [];
    assert where == w;
    if f.hasImage {
      where := where + [WithImage];
    }
    w := w + if f.hasImage then [WithImage] else [];
    assert where == w;
    if f.hasLocation {
      where := where + [WithLocation];
    }
    w := w + if f.hasLocation then [WithLocation] else [];
    assert where == w;
    assert w == WhereOf(f);
  }

  // ---------------------------------------------------------------------------
  // What the builder promises about the text it produces.

  /** Splitting a literal into short pieces lets the verifier see each character. */
  lemma SearchTextPieces()
    ensures ClauseText(Search)
      == "(title LIKE " + "?" + (" OR COALESCE" + "(description,'')" + " LIKE ") + "?" + ")"
  {
  }

  lemma SearchPiecesHaveNoPlaceholder()
    ensures '?' !in " OR COALESCE" + "(description,'')" + " LIKE "
    ensures '?' !in "(title LIKE " && '?' !in ")"
  {
  }

  lemma {:induction false} TwoPlaceholders(a: string, b: string, c: string)
    requires '?' !in a && '?' !in b && '?' !in c
    ensures Occurrences(a + "?" + b + "?" + c, '?') == 2
  {
    OccurrencesAbsent(a, '?');
    OccurrencesAbsent(b, '?');
    OccurrencesAbsent(c, '?');
    OccurrencesConcat(a + "?" + b + "?", c, '?');
    OccurrencesConcat(a + "?" + b, "?", '?');
    OccurrencesConcat(a + "?", b, '?');
    OccurrencesConcat(a, "?", '?');
  }

  lemma SearchTextPlaceholders()
    ensures Occurrences(ClauseText(Search), '?') == 2
  {
    SearchTextPieces();
    SearchPiecesHaveNoPlaceholder();
    TwoPlaceholders("(title LIKE ", " OR COALESCE" + "(description,'')" + " LIKE ", ")");
  }

  lemma ImageTextHasNoPlaceholder()
    ensures '?' !in ClauseText(WithImage)
  {
    LiteralHasNoPlaceholder("(image_uri IS NOT NULL AND TRIM(image_uri) <> '')",
                            "(image_uri IS NOT", " NULL AND TRIM(", "image_uri) <> '')");
  }

  lemma LocationTextHasNoPlaceholder()
    ensures '?' !in ClauseText(WithLocation)
  {
    LiteralHasNoPlaceholder("(latitude IS NOT NULL AND longitude IS NOT NULL)",
                            "(latitude IS NOT", " NULL AND longitude", " IS NOT NULL)");
  }

  /** A literal too long to inspect at once is checked piece by piece. */
  lemma LiteralHasNoPlaceholder(literal: string, a: string, b: string, c: string)
    requires literal == a + b + c
    requires '?' !in a && '?' !in b && '?' !in c
    ensures '?' !in literal
  {
  }

  lemma FixedTextsHaveNoPlaceholder()
    ensures '?' !in SELECT_ALL && '?' !in " WHERE " && '?' !in " AND "
    ensures '?' !in " ORDER BY " && '?' !in " "
    ensures '?' !in ColumnName(Title) && '?' !in ColumnName(CreatedAt)
    ensures '?' !in DirectionKeyword(Asc) && '?' !in DirectionKeyword(Desc)
    ensures '?' !in ClauseText(CompletedOnly) && '?' !in ClauseText(PendingOnly)
  {
    assert SELECT_ALL == "SELECT * " + "FROM todos";
  }

  /** Each fragment's text holds exactly `Placeholders(c)` question marks. */
  lemma ClausePlaceholders(c: Clause)
    ensures Occurrences(ClauseText(c), '?') == Placeholders(c)
  {
    match c
    case Search => SearchTextPlaceholders();
    case CompletedOnly => FixedTextsHaveNoPlaceholder(); OccurrencesAbsent(ClauseText(c), '?');
    case PendingOnly => FixedTextsHaveNoPlaceholder(); OccurrencesAbsent(ClauseText(c), '?');
    case WithImage => ImageTextHasNoPlaceholder(); OccurrencesAbsent(ClauseText(c), '?');
    case WithLocation => LocationTextHasNoPlaceholder(); OccurrencesAbsent(ClauseText(c), '?');
  }

  lemma {:induction false} TextsPlaceholders(where: seq<Clause>)
    ensures OccurrencesIn(Texts(where), '?') == PlaceholdersIn(where)
  {
    if where != [] {
      ClausePlaceholders(where[0]);
      TextsPlaceholders(where[1..]);
      assert Texts(where)[1..] == Texts(where[1..]);
    }
  }

  lemma {:induction false} ShapePlaceholders(base: string, wherePart: string, keyword: string,
                                             column: string, space: string, dir: string)
    requires '?' !in base && '?' !in keyword && '?' !in column && '?' !in space && '?' !in dir
    ensures Occurrences(base + wherePart + (keyword + column + space + dir), '?')
      == Occurrences(wherePart, '?')
  {
    OccurrencesAbsent(base, '?');
    OccurrencesAbsent(keyword, '?');
    OccurrencesAbsent(column, '?');
    OccurrencesAbsent(space, '?');
    OccurrencesAbsent(dir, '?');
    OccurrencesConcat(keyword + column + space, dir, '?');
    OccurrencesConcat(keyword + column, space, '?');
    OccurrencesConcat(keyword, column, '?');
    OccurrencesConcat(base + wherePart, keyword + column + space + dir, '?');
    OccurrencesConcat(base, wherePart, '?');
  }

  lemma {:induction false} WherePartPlaceholders(where: seq<Clause>)
    ensures Occurrences(WherePart(where), '?') == PlaceholdersIn(where)
  {
    TextsPlaceholders(where);
    FixedTextsHaveNoPlaceholder();
    if |where| > 0 {
      OccurrencesAbsent(" AND ", '?');
      OccurrencesAbsent(" WHERE ", '?');
      OccurrencesJoin(Texts(where), " AND ", '?');
      OccurrencesConcat(" WHERE ", Join(Texts(where), " AND "), '?');
    }
  }

  lemma SqlPlaceholders(where: seq<Clause>, orderBy: Column, direction: Direction)
    ensures Occurrences(Sql(where, orderBy, direction), '?') == PlaceholdersIn(where)
  {
    FixedTextsHaveNoPlaceholder();
    WherePartPlaceholders(where);
    ShapePlaceholders(SELECT_ALL, WherePart(where), " ORDER BY ", ColumnName(orderBy), " ",
                      DirectionKeyword(direction));
  }

  /** Every bound parameter has its own `?` in the SQL text and every `?` has a
      parameter: the number of placeholders equals the number of parameters. */
  lemma PlaceholdersMatchParams(f: Resolved)
    ensures Occurrences(Render(Build(f)), '?') == |Build(f).params|
  {
    SqlPlaceholders(Build(f).where, Build(f).orderBy, Build(f).direction);
  }

  /** The user's search text reaches the store only as parameters: there are two,
      both the trimmed query wrapped in `%`, when the trimmed query is non-empty,
      and none otherwise. */
  lemma ParamsCarryTrimmedQuery(f: Resolved)
    ensures Trim(f.query) != [] ==>
      Build(f).params == ["%" + Trim(f.query) + "%", "%" + Trim(f.query) + "%"]
    ensures Trim(f.query) == [] ==> Build(f).params == []
  {
  }

  /** Two filters that activate the same restrictions and resolve to the same
      order produce the same SQL text, whatever their search text or the exact
      spelling of their status and sort tokens: no user text is ever spliced into
      the SQL. */
  lemma SqlDependsOnlyOnShape(f: Resolved, g: Resolved)
    requires (Trim(f.query) == []) == (Trim(g.query) == [])
    requires (f.status == "completed") == (g.status == "completed")
    requires (f.status == "pending") == (g.status == "pending")
    requires f.hasImage == g.hasImage && f.hasLocation == g.hasLocation
    requires (f.sortBy == "title") == (g.sortBy == "title")
    requires (ToLowerCase(f.sortOrder) == "asc") == (ToLowerCase(g.sortOrder) == "asc")
    ensures Render(Build(f)) == Render(Build(g))
  {
  }

  lemma WhereMembership(x: Clause, s: bool, c: bool, p: bool, i: bool, l: bool)
    ensures x in (if s then [Search] else []) + (if c then [CompletedOnly] else [])
                 + (if p then [PendingOnly] else []) + (if i then [WithImage] else [])
                 + (if l then [WithLocation] else [])
      <==> (x == Search && s) || (x == CompletedOnly && c) || (x == PendingOnly && p)
           || (x == WithImage && i) || (x == WithLocation && l)
  {
  }

  /** A fragment is present exactly when its option is active; an inactive option
      adds nothing to the WHERE part. */
  lemma ClausePresence(f: Resolved)
    ensures Search in Build(f).where <==> Trim(f.query) != []
    ensures CompletedOnly in Build(f).where <==> f.status == "completed"
    ensures PendingOnly in Build(f).where <==> f.status == "pending"
    ensures WithImage in Build(f).where <==> f.hasImage
    ensures WithLocation in Build(f).where <==> f.hasLocation
  {
    var s, c, p := |Trim(f.query)| > 0, f.status == "completed", f.status == "pending";
    WhereMembership(Search, s, c, p, f.hasImage, f.hasLocation);
    WhereMembership(CompletedOnly, s, c, p, f.hasImage, f.hasLocation);
    WhereMembership(PendingOnly, s, c, p, f.hasImage, f.hasLocation);
    WhereMembership(WithImage, s, c, p, f.hasImage, f.hasLocation);
    WhereMembership(WithLocation, s, c, p, f.hasImage, f.hasLocation);
  }

  /** Sorting is by title exactly when `sortBy` is "title" (any other value sorts
      by creation time), and ascending exactly when `sortOrder` spells "asc" in
      any letter case (any other value sorts descending). */
  lemma OrderResolution(f: Resolved)
    ensures Build(f).orderBy == Title <==> f.sortBy == "title"
    ensures Build(f).direction == Asc <==>
      |f.sortOrder| == 3 && (f.sortOrder[0] == 'a' || f.sortOrder[0] == 'A')
      && (f.sortOrder[1] == 's' || f.sortOrder[1] == 'S')
      && (f.sortOrder[2] == 'c' || f.sortOrder[2] == 'C')
  {
    LowerIsAscIff(f.sortOrder);
  }

  /** With no filter the store is asked for every row, newest first. */
  lemma DefaultQuery()
    ensures Build(DEFAULTS).where == [] && Build(DEFAULTS).params == []
    ensures Render(Build(DEFAULTS)) == SELECT_ALL + " ORDER BY " + "created_at" + " " + "DESC"
  {
    var q := Build(DEFAULTS);
    assert Trim(DEFAULTS.query) == [];
    assert q.where == [] && q.params == [];
    LowerIsAscIff(DEFAULTS.sortOrder);
    assert |DEFAULTS.sortOrder| == 4;
    assert q.orderBy == CreatedAt && q.direction == Desc;
    NoWhereRender(q);
  }

  lemma NoWhereRender(q: Query)
    requires q.where == [] && q.orderBy == CreatedAt && q.direction == Desc
    ensures Render(q) == SELECT_ALL + " ORDER BY " + "created_at" + " " + "DESC"
  {
    assert WherePart(q.where) == "";
    assert OrderByPart(q.orderBy, q.direction) == " ORDER BY " + "created_at" + " " + "DESC";
    assert SELECT_ALL + "" == SELECT_ALL;
  }
}
