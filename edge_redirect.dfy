/**
 * The redirect edge function (`supabase/functions/redirect/index.ts`): it
 * answers CORS preflight, takes the slug from the request path, and answers
 * 400, 404, 302 or 500; after a successful lookup it counts the visit.
 */
module EdgeRedirect {
  import opened Wrappers
  import opened Store

  datatype Request = Request(httpMethod: string, url: string)

  /** Status, body (`None` for `null`) and headers in the order the object literal lists them. */
  datatype Response = Response(status: nat, body: Option<string>, headers: seq<(string, string)>)

  const CorsHeaders: seq<(string, string)> := [
    ("Access-Control-Allow-Origin", "*"),
    ("Access-Control-Allow-Headers", "authorization, x-client-info, apikey, content-type")
  ]

  /** The value of the first header called `name`. */
  function Header(headers: seq<(string, string)>, name: string): (v: Option<string>)
    ensures v.Some? <==> exists i :: 0 <= i < |headers| && headers[i].0 == name
    ensures v.Some? ==> v.value == headers[HeaderIndex(headers, name)].1
    decreases |headers|
  {
    if headers == [] then None
    else if headers[0].0 == name then Some(headers[0].1)
    else Header(headers[1..], name)
  }

  /** The position of the first header called `name`. */
  function HeaderIndex(headers: seq<(string, string)>, name: string): (k: nat)
    requires exists i :: 0 <= i < |headers| && headers[i].0 == name
    ensures k < |headers| && headers[k].0 == name
    ensures forall i :: 0 <= i < k ==> headers[i].0 != name
    decreases |headers|
  {
    if headers[0].0 == name then 0
    else
      assert exists i :: 0 <= i < |headers[1..]| && headers[1..][i].0 == name by {
        var i :| 0 <= i < |headers| && headers[i].0 == name;
        assert headers[1..][i - 1].0 == name;
      }
      1 + HeaderIndex(headers[1..], name)
  }

  /** A header added after others with different names is the one found. */
  lemma {:induction false} HeaderAppended(headers: seq<(string, string)>, name: string, value: string)
    requires forall i :: 0 <= i < |headers| ==> headers[i].0 != name
    ensures Header(headers + [(name, value)], name) == Some(value)
    decreases |headers|
  {
    if headers != [] {
      assert (headers + [(name, value)])[1..] == headers[1..] + [(name, value)];
      HeaderAppended(headers[1..], name, value);
    }
  }

  /** `pathname.slice(1)`: the path without its first character. */
  function SlugOfPath(pathname: string): (slug: string)
    ensures pathname == [] ==> slug == []
    ensures pathname != [] ==> pathname == [pathname[0]] + slug
  {
    if pathname == [] then [] else pathname[1..]
  }

  /**
   * The slug of a request, `None` when `new URL(req.url)` throws. The URL
   * parser is the parameter `pathnameOf`, which gives the parsed pathname.
   */
  function RequestSlug(req: Request, pathnameOf: string -> Option<string>): Option<string> {
    match pathnameOf(req.url)
    case None => None
    case Some(pathname) => Some(SlugOfPath(pathname))
  }

  /** The response the handler returns for `req` against a table holding `rows`. */
  function Respond(req: Request, pathnameOf: string -> Option<string>, rows: map<string, Row>, fault: Fault): (r: Response)
    ensures r.status in {200, 302, 400, 404, 500}
    ensures r.status == 200 <==> req.httpMethod == "OPTIONS"
    ensures r.status == 200 ==> r.body == Some("ok") && r.headers == CorsHeaders
    ensures r.status == 400 <==> req.httpMethod != "OPTIONS" && RequestSlug(req, pathnameOf) == Some([])
    ensures r.status == 302 <==>
      && req.httpMethod != "OPTIONS" && RequestSlug(req, pathnameOf).Some?
      && var slug := RequestSlug(req, pathnameOf).value;
         slug != [] && fault == NoFault && slug in rows
    ensures r.status == 302 ==>
      Header(r.headers, "Location") == Some(rows[RequestSlug(req, pathnameOf).value].originalUrl)
    ensures r.status == 404 <==>
      && req.httpMethod != "OPTIONS" && RequestSlug(req, pathnameOf).Some?
      && var slug := RequestSlug(req, pathnameOf).value;
         slug != [] && (fault == QueryError || (fault == NoFault && slug !in rows))
    ensures r.status == 500 <==>
      && req.httpMethod != "OPTIONS"
      && (RequestSlug(req, pathnameOf).None? || (RequestSlug(req, pathnameOf).value != [] && fault == Throws))
  {
    if req.httpMethod == "OPTIONS" then Response(200, Some("ok"), CorsHeaders)
    else match RequestSlug(req, pathnameOf)
      case None => InternalError()
      case Some(slug) =>
        if slug == [] then Response(400, Some("Slug not provided"), [])
        else
          var lookup := SelectSingle(rows, slug, fault);
          if lookup == Threw then InternalError()
          else if !lookup.Found? then Response(404, Some("URL not found"), CorsHeaders + [("Content-Type", "text/html")])
          else
            HeaderAppended(CorsHeaders, "Location", lookup.row.originalUrl);
            Response(302, None, CorsHeaders + [("Location", lookup.row.originalUrl)])
  }

  /** The handler's `catch`: any exception becomes a 500. */
  function InternalError(): (r: Response)
    ensures r.status == 500 && Header(r.headers, "Location") == None
  {
    Response(500, Some("Internal server error"), CorsHeaders)
  }

  /** A preflight request gets the same answer whatever the table holds: it makes no lookup. */
  lemma PreflightNeedsNoLookup(req: Request, pathnameOf: string -> Option<string>,
                               rows1: map<string, Row>, rows2: map<string, Row>, f1: Fault, f2: Fault)
    requires req.httpMethod == "OPTIONS"
    ensures Respond(req, pathnameOf, rows1, f1) == Respond(req, pathnameOf, rows2, f2)
  {
  }

  /** A request without a slug gets the same 400 whatever the table holds: it makes no lookup. */
  lemma EmptySlugNeedsNoLookup(req: Request, pathnameOf: string -> Option<string>,
                               rows1: map<string, Row>, rows2: map<string, Row>, f1: Fault, f2: Fault)
    requires req.httpMethod != "OPTIONS" && RequestSlug(req, pathnameOf) == Some([])
    ensures Respond(req, pathnameOf, rows1, f1) == Respond(req, pathnameOf, rows2, f2)
  {
  }

  /**
   * The handler: the response, and the click-count write that follows a
   * successful lookup (the count read plus one; when the write fails the
   * table is unchanged and the 302 still goes out).
   */
  method Serve(req: Request, pathnameOf: string -> Option<string>, table: UrlTable, fault: Fault, updateFails: bool)
    returns (response: Response)
    modifies table
    ensures response == Respond(req, pathnameOf, old(table.rows), fault)
    ensures response.status == 302 && !updateFails ==>
      table.rows == CountVisit(old(table.rows), RequestSlug(req, pathnameOf).value)
    ensures response.status != 302 || updateFails ==> table.rows == old(table.rows)
  {
    if req.httpMethod == "OPTIONS" {
      return Response(200, Some("ok"), CorsHeaders);
    }
    var slug := RequestSlug(req, pathnameOf);
    if slug.None? {
      return InternalError();
    }
    if slug.value == [] {
      return Response(400, Some("Slug not provided"), []);
    }
    var lookup := table.Select(slug.value, fault);
    if lookup == Threw {
      response := InternalError();
    } else if !lookup.Found? {
      response := Response(404, Some("URL not found"), CorsHeaders + [("Content-Type", "text/html")]);
    } else {
      table.UpdateClickCount(slug.value, ClickCount(lookup.row) + 1, updateFails);
      response := Response(302, None, CorsHeaders + [("Location", lookup.row.originalUrl)]);
    }
  }
}
