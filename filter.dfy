/** The list filter (src/types/filter.ts) and how the repository fills in what
    the caller leaves out (src/data/datasources/sqlite/TodoSQLiteDataSource.ts:72-79). */
module Filter {
  import opened Wrappers

  /** A FilterType as passed at run time: every field may be missing. `status`,
      `sortBy` and `sortOrder` are kept as strings, because the repository only
      compares them with literals and treats every other value as a default. */
  datatype FilterType = FilterType(
    query: Option<string>,
    status: Option<string>,
    sortBy: Option<string>,
    sortOrder: Option<string>,
    hasImage: Option<bool>,
    hasLocation: Option<bool>)

  /** The filter after destructuring with defaults: nothing is missing any more. */
  datatype Resolved = Resolved(
    query: string,
    status: string,
    sortBy: string,
    sortOrder: string,
    hasImage: bool,
    hasLocation: bool)

  /** The defaults of the destructuring (also the list screen's `defaultFilters`). */
  const DEFAULTS := Resolved("", "all", "created_at", "desc", false, false)

  function OrElse<T>(x: Option<T>, default: T): T {
    if x.Some? then x.value else default
  }

  /** `const { query = "", status = "all", ... } = filters || {}`: no filter gives
      the defaults; otherwise each supplied field is taken as given and each
      missing one takes its own default. */
  function Resolve(filters: Option<FilterType>): (r: Resolved)
    ensures filters.None? ==> r == DEFAULTS
    ensures filters.Some? ==> var f := filters.value;
      && (f.query.Some? ==> r.query == f.query.value)
      && (f.query.None? ==> r.query == "")
      && (f.status.Some? ==> r.status == f.status.value)
      && (f.status.None? ==> r.status == "all")
      && (f.sortBy.Some? ==> r.sortBy == f.sortBy.value)
      && (f.sortBy.None? ==> r.sortBy == "created_at")
      && (f.sortOrder.Some? ==> r.sortOrder == f.sortOrder.value)
      && (f.sortOrder.None? ==> r.sortOrder == "desc")
      && (f.hasImage.Some? ==> r.hasImage == f.hasImage.value)
      && (f.hasImage.None? ==> !r.hasImage)
      && (f.hasLocation.Some? ==> r.hasLocation == f.hasLocation.value)
      && (f.hasLocation.None? ==> !r.hasLocation)
  {
    match filters
    case None => DEFAULTS
    case Some(f) =>
      Resolved(
        OrElse(f.query, DEFAULTS.query),
        OrElse(f.status, DEFAULTS.status),
        OrElse(f.sortBy, DEFAULTS.sortBy),
        OrElse(f.sortOrder, DEFAULTS.sortOrder),
        OrElse(f.hasImage, DEFAULTS.hasImage),
        OrElse(f.hasLocation, DEFAULTS.hasLocation))
  }

  /** No filter at all, a filter with every field missing, and a filter spelling
      out the defaults all resolve alike: "", all, created_at, desc, no image and
      no location restriction. */
  lemma MissingFiltersResolveToDefaults()
    ensures Resolve(None) == DEFAULTS
    ensures Resolve(Some(FilterType(None, None, None, None, None, None))) == DEFAULTS
    ensures Resolve(Some(FilterType(Some(""), Some("all"), Some("created_at"), Some("desc"),
                                    Some(false), Some(false)))) == DEFAULTS
    ensures DEFAULTS.query == "" && DEFAULTS.status == "all" && DEFAULTS.sortBy == "created_at"
    ensures DEFAULTS.sortOrder == "desc" && !DEFAULTS.hasImage && !DEFAULTS.hasLocation
  {
  }
}
