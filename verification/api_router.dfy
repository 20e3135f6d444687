/** The single serverless entry point (api/index.js): after the CORS headers and the
    preflight answer, the request URL is reduced to a route and dispatched on route and
    method to one handler, or answered with 404. Handlers are named, not run. */
module ApiRouter {
  import opened Text

  datatype Handler =
    | Identify
    | GenerateBlog
    | RecipesJson
    | RecipesStore
    | SyncRecipes
    | ScanLimit
    | DecrementScanCount
    | Blogs
    | BlogsSlug(slug: string)
    | BlogExists(slug: string)
    | NotFound(message: string)

  /** What the router does with a request: answer the preflight itself, or dispatch. */
  datatype Outcome = Preflight | Dispatched(handler: Handler)

  /** `path.split('?')[0]` when the path holds a '?'. */
  function StripQuery(url: string): (path: string)
    ensures '?' !in path && StartsWith(url, path)
    ensures '?' !in url ==> path == url
  {
    if '?' in url then BeforeFirst(url, '?') else url
  }

  /** `path.replace(/^\/api\/?/, '')`: a leading "/api" and at most one '/' after it. */
  function RouteOf(path: string): (route: string)
    ensures |route| <= |path|
  {
    if StartsWith(path, "/api") then
      var rest := path[4..];
      if rest != [] && rest[0] == '/' then rest[1..] else rest
    else path
  }

  /** The characters `.` in a JavaScript regular expression does not match. */
  predicate IsLineTerminator(c: char) {
    c == '\n' || c == '\r' || c == '\U{2028}' || c == '\U{2029}'
  }

  /** `route.match(/^<prefix>(.+)$/)`: the captured rest, which must be non-empty and
      free of line terminators. */
  function Capture(route: string, prefix: string): (r: Option<string>)
    ensures r.Some? <==>
              StartsWith(route, prefix) && |route| > |prefix|
              && forall i :: |prefix| <= i < |route| ==> !IsLineTerminator(route[i])
    ensures r.Some? ==> route == prefix + r.value
  {
    if StartsWith(route, prefix) && |route| > |prefix|
       && forall i :: |prefix| <= i < |route| ==> !IsLineTerminator(route[i])
    then
      assert route == route[..|prefix|] + route[|prefix|..];
      Some(route[|prefix|..])
    else None
  }

  const NotFoundPrefix: string := "API route not found: "

  /** The handler for a route and method: only GET and POST reach a handler, a slug
      route hands over everything after its prefix, and a miss names the route. */
  function Dispatch(route: string, requestMethod: string): (h: Handler)
    ensures requestMethod != "GET" && requestMethod != "POST" ==> h == NotFound(NotFoundPrefix + route)
    ensures h.BlogsSlug? ==> requestMethod == "GET" && route == "blogs/" + h.slug
    ensures h.BlogExists? ==> requestMethod == "GET" && route == "blog-exists/" + h.slug
    ensures h.NotFound? ==> h.message == NotFoundPrefix + route
  {
    if route == "identify" && requestMethod == "POST" then Identify
    else if route == "generate-blog" && requestMethod == "POST" then GenerateBlog
    else if route == "recipes-json" && requestMethod == "GET" then RecipesJson
    else if route == "recipes-store" && (requestMethod == "GET" || requestMethod == "POST") then RecipesStore
    else if route == "sync-recipes" && (requestMethod == "GET" || requestMethod == "POST") then SyncRecipes
    else if route == "scan-limit" && requestMethod == "GET" then ScanLimit
    else if route == "decrement-scan-count" && requestMethod == "POST" then DecrementScanCount
    else if route == "blogs" && requestMethod == "GET" then Blogs
    else if Capture(route, "blogs/").Some? && requestMethod == "GET" then BlogsSlug(Capture(route, "blogs/").value)
    else if Capture(route, "blog-exists/").Some? && requestMethod == "GET" then BlogExists(Capture(route, "blog-exists/").value)
    else NotFound(NotFoundPrefix + route)
  }

  /** The whole router for one request. */
  function Route(requestMethod: string, url: string): (o: Outcome)
    ensures o == Preflight <==> requestMethod == "OPTIONS"
  {
    if requestMethod == "OPTIONS" then Preflight
    else Dispatched(Dispatch(RouteOf(StripQuery(url)), requestMethod))
  }

  // ---- a reference table of the fixed routes ----

  datatype Entry = Entry(route: string, methods: seq<string>, handler: Handler)

  const FixedRoutes: seq<Entry> := [
    Entry("identify", ["POST"], Identify),
    Entry("generate-blog", ["POST"], GenerateBlog),
    Entry("recipes-json", ["GET"], RecipesJson),
    Entry("recipes-store", ["GET", "POST"], RecipesStore),
    Entry("sync-recipes", ["GET", "POST"], SyncRecipes),
    Entry("scan-limit", ["GET"], ScanLimit),
    Entry("decrement-scan-count", ["POST"], DecrementScanCount),
    Entry("blogs", ["GET"], Blogs)
  ]

  /** A route whose character at the prefix's last position differs from it (or that is
      too short) is not captured. */
  lemma NoCaptureAt(route: string, prefix: string)
    requires |prefix| >= 1
    requires |route| < |prefix| || route[|prefix| - 1] != prefix[|prefix| - 1]
    ensures Capture(route, prefix).None?
  {
    assert |route| >= |prefix| ==> route[..|prefix|][|prefix| - 1] == route[|prefix| - 1];
  }

  /** Each fixed route reaches its handler exactly for its listed methods; with any other
      method it is not found. */
  lemma {:induction false} FixedRouteDispatch(i: nat, requestMethod: string)
    requires i < |FixedRoutes|
    ensures var e := FixedRoutes[i];
            requestMethod in e.methods ==> Dispatch(e.route, requestMethod) == e.handler
    ensures var e := FixedRoutes[i];
            requestMethod !in e.methods ==> Dispatch(e.route, requestMethod) == NotFound(NotFoundPrefix + e.route)
  {
    var e := FixedRoutes[i];
    NoCaptureAt(e.route, "blogs/");
    NoCaptureAt(e.route, "blog-exists/");
  }

  /** A GET of "blogs/<slug>" or "blog-exists/<slug>" hands the slug (everything after
      the first '/') to the slug handlers, whenever it is non-empty and on one line. */
  lemma SlugRoutes(slug: string)
    requires slug != [] && forall i :: 0 <= i < |slug| ==> !IsLineTerminator(slug[i])
    ensures Dispatch("blogs/" + slug, "GET") == BlogsSlug(slug)
    ensures Dispatch("blog-exists/" + slug, "GET") == BlogExists(slug)
  {
    var b := "blogs/" + slug;
    assert b[..6] == "blogs/";
    assert forall i :: 6 <= i < |b| ==> b[i] == slug[i - 6];
    assert b[0] == 'b' && |b| > 6;
    assert b[0] != "identify"[0] && b[0] != "generate-blog"[0] && b[0] != "recipes-json"[0];
    assert b[0] != "recipes-store"[0] && b[0] != "sync-recipes"[0] && b[0] != "scan-limit"[0];
    assert b[0] != "decrement-scan-count"[0];
    var x := "blog-exists/" + slug;
    assert x[..12] == "blog-exists/";
    assert forall i :: 12 <= i < |x| ==> x[i] == slug[i - 12];
    assert x[0] == 'b' && x[4] == '-' && |x| > 12;
    NoCaptureAt(x, "blogs/");
    assert x[0] != "identify"[0] && x[0] != "generate-blog"[0] && x[0] != "recipes-json"[0];
    assert x[0] != "recipes-store"[0] && x[0] != "sync-recipes"[0] && x[0] != "scan-limit"[0];
    assert x[0] != "decrement-scan-count"[0];
  }

  /** A route no table entry names, and that no slug pattern captures, is not found
      whatever the method, with the route in the message. */
  lemma UnknownRouteNotFound(route: string, requestMethod: string)
    requires forall i :: 0 <= i < |FixedRoutes| ==> FixedRoutes[i].route != route
    requires Capture(route, "blogs/").None? && Capture(route, "blog-exists/").None?
    ensures Dispatch(route, requestMethod) == NotFound(NotFoundPrefix + route)
  {
    assert FixedRoutes[0].route != route && FixedRoutes[1].route != route && FixedRoutes[2].route != route;
    assert FixedRoutes[3].route != route && FixedRoutes[4].route != route && FixedRoutes[5].route != route;
    assert FixedRoutes[6].route != route && FixedRoutes[7].route != route;
  }

  /** The prefix rule: "/api/" + r and "/api" + r (r not starting with '/') both give r;
      a path not starting with "/api" is its own route. */
  lemma ApiPrefixStripped(r: string, path: string)
    ensures RouteOf("/api/" + r) == r
    ensures (r == [] || r[0] != '/') ==> RouteOf("/api" + r) == r
    ensures !StartsWith(path, "/api") ==> RouteOf(path) == path
  {
    var p := "/api/" + r;
    assert p[..4] == "/api" && p[4..] == "/" + r && p[4..][1..] == r;
    var q := "/api" + r;
    assert q[..4] == "/api" && q[4..] == r;
  }

  /** The query string never influences the route. */
  lemma QueryIgnored(path: string, query: string)
    requires '?' !in path
    ensures RouteOf(StripQuery(path + "?" + query)) == RouteOf(path)
  {
    var u := path + "?" + query;
    var b := BeforeFirst(u, '?');
    assert u[|path|] == '?';
    assert forall k :: 0 <= k < |path| ==> u[k] == path[k];
    assert forall k :: 0 <= k < |b| ==> b[k] == u[k];
    assert |b| == |path|;
    assert b == u[..|path|] == path;
  }
}
