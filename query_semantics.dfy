/** What the query `all` builds selects, stated per filter field, and how the
    search restriction compares with a plain case-insensitive substring search. */
module QuerySemantics {
  import opened Wrappers
  import opened JsString
  import opened TodoMapper
  import opened Filter
  import opened QueryBuilder
  import opened SqliteEngine

  // ---------------------------------------------------------------------------
  // The restrictions, one per filter field.

  /** A non-blank query matches title or description with `LIKE %query%`. */
  predicate SearchOk(f: Resolved, row: Row) {
    Trim(f.query) == [] || ClauseHolds(Search, [SearchPattern(f.query), SearchPattern(f.query)], row)
  }

  /** "completed" keeps completed rows, "pending" open ones, any other status all. */
  predicate StatusOk(f: Resolved, row: Row) {
    && (f.status == "completed" ==> ClauseHolds(CompletedOnly, [], row))
    && (f.status == "pending" ==> ClauseHolds(PendingOnly, [], row))
  }

  predicate ImageOk(f: Resolved, row: Row) {
    f.hasImage ==> ClauseHolds(WithImage, [], row)
  }

  predicate LocationOk(f: Resolved, row: Row) {
    f.hasLocation ==> ClauseHolds(WithLocation, [], row)
  }

  /** Every active restriction holds. */
  predicate Matches(f: Resolved, row: Row) {
    SearchOk(f, row) && StatusOk(f, row) && ImageOk(f, row) && LocationOk(f, row)
  }

  /** The WHERE part of the built query, with its parameters bound, holds of a
      row exactly when every restriction of the filter does: the fragments are
      combined with AND and the two search parameters land in the search fragment. */
  lemma WhereMeansMatches(f: Resolved, row: Row)
    ensures WhereHolds(Build(f).where, Build(f).params, row) <==> Matches(f, row)
  {
    var s: seq<Clause> := if |Trim(f.query)| > 0 then [Search] else [];
    var c: seq<Clause> := if f.status == "completed" then [CompletedOnly] else [];
    var p: seq<Clause> := if f.status == "pending" then [PendingOnly] else [];
    var i: seq<Clause> := if f.hasImage then [WithImage] else [];
    var l: seq<Clause> := if f.hasLocation then [WithLocation] else [];
    var ps := ParamsOf(f);
    OptionalPart(|Trim(f.query)| > 0, Search, ps, row);
    OptionalPart(f.status == "completed", CompletedOnly, [], row);
    OptionalPart(f.status == "pending", PendingOnly, [], row);
    OptionalPart(f.hasImage, WithImage, [], row);
    OptionalPart(f.hasLocation, WithLocation, [], row);
    FiveParts(s, c, p, i, l, ps, row);
    assert Build(f).where == s + c + p + i + l;
  }

  /** A fragment that is present only when `b` holds contributes `b ==> fragment`. */
  lemma OptionalPart(b: bool, x: Clause, ps: seq<string>, row: Row)
    requires |ps| == (if b then Placeholders(x) else 0)
    ensures var w := if b then [x] else [];
      |ps| == PlaceholdersIn(w) && (WhereHolds(w, ps, row) <==> (b ==> ClauseHolds(x, ps, row)))
  {
    if b {
      assert [x][1..] == [] && ps[..Placeholders(x)] == ps;
    }
  }

  /** AND over five consecutive groups of fragments, the parameters all in the first. */
  lemma FiveParts(a: seq<Clause>, b: seq<Clause>, c: seq<Clause>, d: seq<Clause>, e: seq<Clause>,
                  ps: seq<string>, row: Row)
    requires |ps| == PlaceholdersIn(a)
    requires PlaceholdersIn(b) == 0 && PlaceholdersIn(c) == 0
    requires PlaceholdersIn(d) == 0 && PlaceholdersIn(e) == 0
    ensures |ps| == PlaceholdersIn(a + b + c + d + e)
    ensures WhereHolds(a + b + c + d + e, ps, row) <==>
      WhereHolds(a, ps, row) && WhereHolds(b, [], row) && WhereHolds(c, [], row)
      && WhereHolds(d, [], row) && WhereHolds(e, [], row)
  {
    var none: seq<string> := [];
    assert ps + none == ps;
    WhereHoldsAppend(a, ps, b, none, row);
    WhereHoldsAppend(a + b, ps, c, none, row);
    WhereHoldsAppend(a + b + c, ps, d, none, row);
    WhereHoldsAppend(a + b + c + d, ps, e, none, row);
  }

  /** The image restriction asks for a stored URI with some character other
      than a space; tabs and line breaks count as content, since SQL TRIM only
      removes spaces. */
  lemma ImageRestriction(f: Resolved, row: Row)
    requires f.hasImage
    ensures ImageOk(f, row) <==>
      row.image_uri.Some? && exists k :: 0 <= k < |row.image_uri.value| && row.image_uri.value[k] != ' '
  {
    if row.image_uri.Some? {
      TrimWithEnds(row.image_uri.value, c => c == ' ');
    }
  }

  /** The default filter (no query, status "all", no image or location
      restriction) selects every row. */
  lemma DefaultsSelectEverything(row: Row)
    ensures Matches(DEFAULTS, row)
    ensures WhereHolds(Build(DEFAULTS).where, Build(DEFAULTS).params, row)
  {
    TrimWithEnds(DEFAULTS.query, IsWhitespace);
    WhereMeansMatches(DEFAULTS, row);
  }

  // ---------------------------------------------------------------------------
  // LIKE against the intended substring search.

  predicate NoWildcards(t: string) {
    forall i :: 0 <= i < |t| ==> t[i] != '%' && t[i] != '_'
  }

  /** `t` is a prefix of `s` up to ASCII case. */
  predicate PrefixFold(t: string, s: string) {
    t == [] || (s != [] && LikeCharEq(t[0], s[0]) && PrefixFold(t[1..], s[1..]))
  }

  /** `t` occurs in `s` up to ASCII case: the intended meaning of the search. */
  predicate ContainsFold(s: string, t: string) {
    PrefixFold(t, s) || (s != [] && ContainsFold(s[1..], t))
  }

  /** `p` matches at some suffix of `s`. */
  predicate SomeSuffixLike(p: string, s: string) {
    Like(p, s) || (s != [] && SomeSuffixLike(p, s[1..]))
  }

  /** A pattern of `%` only matches every string, and the empty pattern only
      the empty string. */
  lemma {:induction false} LikeAllPercent(p: string, s: string)
    requires forall i :: 0 <= i < |p| ==> p[i] == '%'
    ensures Like(p, s) <==> p != [] || s == []
    decreases |p| + |s|
  {
    if p != [] {
      LikeAllPercent(p[1..], s);
      if s != [] {
        LikeAllPercent(p, s[1..]);
      }
    }
  }

  /** A leading `%` tries the rest of the pattern at every suffix. */
  lemma {:induction false} LikeLeadingPercent(p: string, s: string)
    ensures Like(['%'] + p, s) <==> SomeSuffixLike(p, s)
  {
    assert (['%'] + p)[1..] == p;
    if s != [] {
      LikeLeadingPercent(p, s[1..]);
    }
  }

  /** Without wildcards, `t%` matches exactly the strings starting with `t` up
      to ASCII case. */
  lemma {:induction false} LikeTrailingPercent(t: string, s: string)
    requires NoWildcards(t)
    ensures Like(t + "%", s) <==> PrefixFold(t, s)
  {
    if t == [] {
      assert t + "%" == "%";
      LikeAllPercent("%", s);
    } else {
      assert (t + "%")[0] == t[0] && (t + "%")[1..] == t[1..] + "%";
      if s != [] {
        LikeTrailingPercent(t[1..], s[1..]);
      }
    }
  }

  lemma {:induction false} SomeSuffixIsContains(t: string, s: string)
    requires NoWildcards(t)
    ensures SomeSuffixLike(t + "%", s) <==> ContainsFold(s, t)
  {
    LikeTrailingPercent(t, s);
    if s != [] {
      SomeSuffixIsContains(t, s[1..]);
    }
  }

  /** For a query without `%` or `_`, the search pattern matches exactly the
      strings that contain the trimmed query, ignoring ASCII case. */
  lemma SearchPatternIsContains(query: string, s: string)
    requires NoWildcards(Trim(query))
    ensures Like(SearchPattern(query), s) <==> ContainsFold(s, Trim(query))
  {
    var t := Trim(query);
    assert SearchPattern(query) == ['%'] + (t + "%");
    LikeLeadingPercent(t + "%", s);
    SomeSuffixIsContains(t, s);
  }

  /** For a query without wildcards the search keeps the rows whose title or
      description contains the trimmed query, ignoring ASCII case. */
  lemma SearchMeansContains(f: Resolved, row: Row)
    requires NoWildcards(Trim(f.query))
    ensures SearchOk(f, row) <==>
      var t := Trim(f.query);
      t == [] || ContainsFold(row.title, t) || ContainsFold(Coalesce(row.description), t)
  {
    SearchPatternIsContains(f.query, row.title);
    SearchPatternIsContains(f.query, Coalesce(row.description));
  }

  /** `%` typed by the user is not escaped: a query of only `%` characters
      keeps every row. */
  lemma PercentQueryKeepsEverything(f: Resolved, row: Row)
    requires Trim(f.query) != []
    requires forall i :: 0 <= i < |Trim(f.query)| ==> Trim(f.query)[i] == '%'
    ensures SearchOk(f, row)
  {
    var p := SearchPattern(f.query);
    assert forall i :: 0 <= i < |p| ==> p[i] == '%' by {
      forall i | 0 <= i < |p| ensures p[i] == '%' {
        if 0 < i < |p| - 1 {
          assert p[i] == Trim(f.query)[i - 1];
        }
      }
    }
    LikeAllPercent(p, row.title);
  }

  /** `_` typed by the user is not escaped either: the query `_` keeps every row
      with a non-empty title or description, while a substring search for `_`
      would keep only those containing an underscore. */
  lemma UnderscoreQueryKeepsNonEmpty(f: Resolved, row: Row)
    requires Trim(f.query) == "_"
    ensures SearchOk(f, row) <==> row.title != [] || Coalesce(row.description) != []
    ensures row.title == "a" && row.description == None ==>
      SearchOk(f, row) && !ContainsFold(row.title, "_") && !ContainsFold(Coalesce(row.description), "_")
  {
    assert SearchPattern(f.query) == ['%'] + "_%";
    UnderscoreAnywhere(row.title);
    UnderscoreAnywhere(Coalesce(row.description));
    if row.title == "a" {
      assert !PrefixFold("_", "a") by { assert LowerAscii('_') != LowerAscii('a'); }
      assert !ContainsFold("a", "_") by { assert "a"[1..] == []; }
    }
  }

  lemma UnderscoreAnywhere(s: string)
    ensures Like(['%'] + "_%", s) <==> s != []
  {
    LikeLeadingPercent("_%", s);
    if s != [] {
      assert "_%"[1..] == "%";
      LikeAllPercent("%", s[1..]);
      assert Like("_%", s);
    } else {
      assert !Like("_%", s) by { assert "_%"[1..] == "%"; }
    }
  }
}
