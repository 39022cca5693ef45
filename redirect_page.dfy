/**
 * The page at `/:slug` (`Redirect.tsx`): it looks the slug up, shows an
 * error or sends the browser to the stored URL, and counts the visit.
 */
module RedirectPage {
  import opened Wrappers
  import opened Store

  const NoSlugMessage := "Invalid URL - no slug provided"
  const LookupErrorMessage := "URL not found in database"
  const NoDataMessage := "Shortened URL does not exist"
  const ExceptionMessage := "An error occurred while processing the redirect"

  /** What the page ends up doing: showing an error, or redirecting to a URL. */
  datatype Resolution = ShowError(message: string) | RedirectTo(target: string)

  /** The route parameter is present and non-empty (`!slug` is false). */
  predicate HasSlug(slug: Option<string>) {
    slug.Some? && slug.value != []
  }

  /** The page's reaction to the lookup's `{ data, error }`, or to the exception it threw. */
  function ReactTo(lookup: Lookup): (r: Resolution)
    ensures r.RedirectTo? <==> lookup.Found?
    ensures lookup.Found? ==> r.target == lookup.row.originalUrl
  {
    match lookup
    case Threw => ShowError(ExceptionMessage)
    case LookupError => ShowError(LookupErrorMessage)
    case NoRow => ShowError(NoDataMessage)
    case Found(row) => RedirectTo(row.originalUrl)
  }

  /** The outcome of `redirectToUrl` against a table holding `rows`. */
  function Resolve(slug: Option<string>, rows: map<string, Row>, fault: Fault): (r: Resolution)
    ensures r.RedirectTo? <==> HasSlug(slug) && fault == NoFault && slug.value in rows
    ensures r.RedirectTo? ==> r.target == rows[slug.value].originalUrl
    ensures !HasSlug(slug) ==> r == ShowError(NoSlugMessage)
    ensures HasSlug(slug) && fault == Throws ==> r == ShowError(ExceptionMessage)
    ensures HasSlug(slug) && fault != Throws && r.ShowError? ==> r == ShowError(LookupErrorMessage)
  {
    if !HasSlug(slug) then ShowError(NoSlugMessage)
    else ReactTo(SelectSingle(rows, slug.value, fault))
  }

  /** Without a slug the page shows the same error whatever the table holds: it makes no lookup. */
  lemma NoSlugNeedsNoLookup(slug: Option<string>, rows1: map<string, Row>, rows2: map<string, Row>, f1: Fault, f2: Fault)
    requires !HasSlug(slug)
    ensures Resolve(slug, rows1, f1) == Resolve(slug, rows2, f2) == ShowError(NoSlugMessage)
  {
  }

  /** The component state of the redirect page; `location` stands for `window.location.href` once the timer fires. */
  class RedirectView {
    var error: Option<string>
    var loading: bool
    var originalUrl: Option<string>
    var location: Option<string>

    constructor ()
      ensures error == None && loading && originalUrl == None && location == None
    {
      error := None;
      loading := true;
      originalUrl := None;
      location := None;
    }

    /**
     * `redirectToUrl`: an error ends the loading state and touches nothing
     * else; a found row sets the shown URL, writes the count read plus one
     * (a write that fails changes nothing and does not stop the redirect) and
     * sends the browser to the stored URL, with the loading state left on.
     */
    method RedirectToUrl(slug: Option<string>, table: UrlTable, fault: Fault, updateFails: bool)
      modifies this, table
      ensures Resolve(slug, old(table.rows), fault).ShowError? ==>
        && error == Some(Resolve(slug, old(table.rows), fault).message) && !loading
        && originalUrl == old(originalUrl) && location == old(location)
        && table.rows == old(table.rows)
      ensures Resolve(slug, old(table.rows), fault).RedirectTo? ==>
        && error == old(error) && loading == old(loading)
        && originalUrl == Some(Resolve(slug, old(table.rows), fault).target)
        && location == originalUrl
        && table.rows == if updateFails then old(table.rows) else CountVisit(old(table.rows), slug.value)
    {
      if slug.None? || slug.value == [] {
        error := Some(NoSlugMessage);
        loading := false;
        return;
      }
      var lookup := table.Select(slug.value, fault);
      match lookup {
        case Threw =>
          error := Some(ExceptionMessage);
          loading := false;
        case LookupError =>
          error := Some(LookupErrorMessage);
          loading := false;
        case NoRow =>
          // `.single()` reports a missing row as an error, so no data without
          // an error never reaches this branch (ReactTo still covers it).
          assert false;
        case Found(row) =>
          originalUrl := Some(row.originalUrl);
          table.UpdateClickCount(slug.value, ClickCount(row) + 1, updateFails);
          location := Some(row.originalUrl);
      }
    }
  }
}
