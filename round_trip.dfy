/**
 * Properties that connect the components: a link that was just shortened
 * resolves to the stored URL through both redirect paths, and the two
 * redirect paths agree with each other.
 */
module RoundTrip {
  import opened Wrappers
  import opened Store
  import opened ShortenPage
  import opened RedirectPage
  import opened EdgeRedirect

  /**
   * After a successful shorten, a request for `/<slug>` is answered with a
   * 302 to the normalised URL, the redirect page goes to the same URL, and
   * the new row's count reads as 0.
   */
  lemma ShortenThenVisit(url: string, customSlug: Option<string>, env: ShortenEnv, rows: map<string, Row>,
                         req: Request, pathnameOf: string -> Option<string>)
    requires IsSlugDraws(env.draws)
    requires ShortenResult(url, customSlug, env, rows).Shortened?
    requires req.httpMethod != "OPTIONS"
    requires pathnameOf(req.url) == Some("/" + ShortenResult(url, customSlug, env, rows).link.slug)
    ensures var link := ShortenResult(url, customSlug, env, rows).link;
      var rows1 := RowsAfterShorten(Shortened(link), rows, env);
      && Respond(req, pathnameOf, rows1, NoFault).status == 302
      && Header(Respond(req, pathnameOf, rows1, NoFault).headers, "Location") == Some(NormalizeUrl(url))
      && Resolve(Some(link.slug), rows1, NoFault) == RedirectTo(NormalizeUrl(url))
      && ClickCount(rows1[link.slug]) == 0
  {
    var link := ShortenResult(url, customSlug, env, rows).link;
    ShortenedRow(url, customSlug, env, rows);
    VisitNewRow(link.slug, NormalizeUrl(url), RowsAfterShorten(Shortened(link), rows, env), req, pathnameOf);
  }

  /** A row that holds `target` and no count yet is found by both redirect paths. */
  lemma VisitNewRow(slug: string, target: string, rows: map<string, Row>, req: Request, pathnameOf: string -> Option<string>)
    requires slug != [] && slug in rows && rows[slug].originalUrl == target && rows[slug].clickCount.None?
    requires req.httpMethod != "OPTIONS"
    requires pathnameOf(req.url) == Some("/" + slug)
    ensures Respond(req, pathnameOf, rows, NoFault).status == 302
    ensures Header(Respond(req, pathnameOf, rows, NoFault).headers, "Location") == Some(target)
    ensures Resolve(Some(slug), rows, NoFault) == RedirectTo(target)
    ensures ClickCount(rows[slug]) == 0
  {
    assert SlugOfPath("/" + slug) == slug;
  }

  /**
   * For a request whose path is `/` followed by `slug`, the edge function
   * redirects exactly when the page does, and to the same URL.
   */
  lemma RedirectPathsAgree(slug: string, req: Request, pathnameOf: string -> Option<string>,
                           rows: map<string, Row>, fault: Fault)
    requires req.httpMethod != "OPTIONS"
    requires pathnameOf(req.url) == Some("/" + slug)
    ensures Respond(req, pathnameOf, rows, fault).status == 302 <==> Resolve(Some(slug), rows, fault).RedirectTo?
    ensures Resolve(Some(slug), rows, fault).RedirectTo? ==>
      Header(Respond(req, pathnameOf, rows, fault).headers, "Location") == Some(Resolve(Some(slug), rows, fault).target)
  {
    assert SlugOfPath("/" + slug) == slug;
  }
}
