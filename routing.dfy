/** The front controller's route table (app/Core/Router.php): routes are kept
    in insertion order, the request URI is reduced to a normalised path, and
    the first route whose method and path match and whose handler exists is
    invoked; otherwise the answer is 404. */
module Routing {
  import opened Common

  /** One entry of the route table, as `add` stores it. */
  datatype Route = Route(verb: string, path: string, handler: string)

  /** A handler string `Controller@method` after `explode('@', ...)` and the
      two-element destructuring; without '@' the method name stays unset. */
  datatype Handler = Handler(controller: string, action: Option<string>)

  /** Which controller classes exist (`class_exists`) and which methods they
      have (`method_exists`); the class-loading itself is not modelled. */
  datatype App = App(classes: set<string>, methods: set<(string, string)>)

  /** What a dispatch does: invoke one controller action, or answer with a
      status code and a body. */
  datatype Outcome = Invoked(controller: string, action: string) | Status(code: int, body: string)

  const NotFound: Outcome := Status(404, "404 Not Found")

  /** Path component of the default APP_URL, `http://localhost/waste2worth`. */
  const DefaultAppPath: string := "/waste2worth"

  // ---------------------------------------------------------------------
  // Path handling

  /** The longest prefix of `s` that contains no character of `stops`. */
  function Before(s: string, stops: set<char>): (p: string)
    ensures |p| <= |s| && p == s[..|p|]
    ensures forall i :: 0 <= i < |p| ==> p[i] !in stops
    ensures |p| < |s| ==> s[|p|] in stops
  {
    if s == [] || s[0] in stops then [] else [s[0]] + Before(s[1..], stops)
  }

  /** A prefix free of stop characters, followed by a stop, is what `Before` cuts. */
  lemma BeforeStop(p: string, c: char, q: string, stops: set<char>)
    requires forall i :: 0 <= i < |p| ==> p[i] !in stops
    requires c in stops
    ensures Before(p + [c] + q, stops) == p
  {
    var s := p + [c] + q;
    assert s[|p|] == c;
    assert forall i :: 0 <= i < |p| ==> s[i] == p[i];
  }

  /** A string free of stop characters is kept whole. */
  lemma BeforeWhole(p: string, stops: set<char>)
    requires forall i :: 0 <= i < |p| ==> p[i] !in stops
    ensures Before(p, stops) == p
  {
    var r := Before(p, stops);
    if |r| < |p| {
      assert false;
    }
  }

  /** `parse_url($uri, PHP_URL_PATH)` for a request URI: everything before
      the query string or the fragment. */
  function RequestPath(uri: string): (p: string)
    ensures p <= uri && '?' !in p && '#' !in p
    ensures |p| < |uri| ==> uri[|p|] == '?' || uri[|p|] == '#'
  {
    Before(uri, {'?', '#'})
  }

  /** Removes the application's base path when the path starts with it
      (a string-prefix test); a missing or falsy base path removes nothing. */
  function StripAppPath(path: string, appPath: Option<string>): (r: string)
    ensures appPath.Some? && Truthy(appPath.value) && appPath.value <= path ==> path == appPath.value + r
    ensures r != path ==> appPath.Some? && Truthy(appPath.value) && path == appPath.value + r
  {
    if appPath.Some? && Truthy(appPath.value) && appPath.value <= path
    then path[|appPath.value|..]
    else path
  }

  function DropLeadingSlashes(s: string): (r: string)
    ensures |r| <= |s| && r == s[|s| - |r|..]
    ensures forall i :: 0 <= i < |s| - |r| ==> s[i] == '/'
    ensures r == [] || r[0] != '/'
  {
    if s != [] && s[0] == '/' then DropLeadingSlashes(s[1..]) else s
  }

  function DropTrailingSlashes(s: string): (r: string)
    ensures |r| <= |s| && r == s[..|r|]
    ensures forall i :: |r| <= i < |s| ==> s[i] == '/'
    ensures r == [] || r[|r| - 1] != '/'
  {
    if s != [] && s[|s| - 1] == '/' then DropTrailingSlashes(s[..|s| - 1]) else s
  }

  /** PHP `trim($s, '/')`: strips every leading and trailing '/'. The result
      is a slice of `s` with only slashes before and after it, and with no
      slash at either end. */
  function TrimSlashes(s: string): (r: string)
    ensures r == [] || (r[0] != '/' && r[|r| - 1] != '/')
    ensures exists k, m :: 0 <= k <= m <= |s| && r == s[k..m]
              && (forall i :: 0 <= i < k ==> s[i] == '/')
              && (forall i :: m <= i < |s| ==> s[i] == '/')
  {
    var t := DropLeadingSlashes(s);
    var r := DropTrailingSlashes(t);
    assert r != [] ==> r[0] == t[0];
    SliceBetweenSlashes(s, t, r);
    r
  }

  /** A suffix `t` of `s` after leading slashes, cut before trailing
      slashes to `r`, is the slice of `s` between those slashes. */
  lemma SliceBetweenSlashes(s: string, t: string, r: string)
    requires |t| <= |s| && t == s[|s| - |t|..] && forall i :: 0 <= i < |s| - |t| ==> s[i] == '/'
    requires |r| <= |t| && r == t[..|r|] && forall i :: |r| <= i < |t| ==> t[i] == '/'
    ensures exists k, m :: 0 <= k <= m <= |s| && r == s[k..m]
              && (forall i :: 0 <= i < k ==> s[i] == '/')
              && (forall i :: m <= i < |s| ==> s[i] == '/')
  {
    var k := |s| - |t|;
    var m := k + |r|;
    assert s[k..m] == s[k..][..|r|];
    forall i | m <= i < |s| ensures s[i] == '/' {
      assert s[i] == t[i - k];
    }
  }

  /** `'/' . trim($uri, '/')`. */
  function Normalise(s: string): string {
    "/" + TrimSlashes(s)
  }

  /** The path that `dispatch` matches against the route table. */
  function RoutePath(uri: string, appPath: Option<string>): string {
    Normalise(StripAppPath(RequestPath(uri), appPath))
  }

  /** A normalised path starts with exactly one '/' and, unless it is "/",
      does not end with '/'. */
  lemma NormaliseShape(s: string)
    ensures |Normalise(s)| >= 1 && Normalise(s)[0] == '/'
    ensures |Normalise(s)| > 1 ==> Normalise(s)[1] != '/' && Normalise(s)[|Normalise(s)| - 1] != '/'
  {
    var t := TrimSlashes(s);
    assert Normalise(s) == "/" + t;
    if t != [] {
      assert Normalise(s)[1] == t[0];
      assert Normalise(s)[|Normalise(s)| - 1] == t[|t| - 1];
    }
  }

  /** Trimming leaves nothing exactly when the path is made only of slashes;
      such a path normalises to "/". */
  lemma {:induction false} TrimEmptyIffAllSlashes(s: string)
    ensures TrimSlashes(s) == [] <==> forall i :: 0 <= i < |s| ==> s[i] == '/'
    ensures (forall i :: 0 <= i < |s| ==> s[i] == '/') ==> Normalise(s) == "/"
  {
    var r := TrimSlashes(s);
    var k, m :| 0 <= k <= m <= |s| && r == s[k..m]
                && (forall i :: 0 <= i < k ==> s[i] == '/')
                && (forall i :: m <= i < |s| ==> s[i] == '/');
    if r != [] {
      assert r[0] == s[k] && r[0] != '/';
    }
  }

  lemma DropLeadingClean(t: string)
    requires t == [] || t[0] != '/'
    ensures DropLeadingSlashes(t) == t
  {
  }

  lemma DropTrailingClean(t: string)
    requires t == [] || t[|t| - 1] != '/'
    ensures DropTrailingSlashes(t) == t
  {
  }

  lemma DropLeadingOne(t: string)
    ensures DropLeadingSlashes("/" + t) == DropLeadingSlashes(t)
  {
    assert ("/" + t)[1..] == t;
  }

  lemma TrimClean(t: string)
    requires t == [] || (t[0] != '/' && t[|t| - 1] != '/')
    ensures TrimSlashes(t) == t
    ensures TrimSlashes("/" + t) == t
  {
    DropLeadingClean(t);
    DropTrailingClean(t);
    DropLeadingOne(t);
  }

  /** Normalising a normalised path changes nothing. */
  lemma NormaliseIdempotent(s: string)
    ensures Normalise(Normalise(s)) == Normalise(s)
  {
    var t := TrimSlashes(s);
    TrimClean(t);
  }

  /** Only the path component takes part in routing: whatever follows the
      first '?' or '#' has no effect. */
  lemma QueryIgnored(p: string, c: char, q: string, appPath: Option<string>)
    requires '?' !in p && '#' !in p
    requires c == '?' || c == '#'
    ensures RoutePath(p + [c] + q, appPath) == RoutePath(p, appPath)
  {
    BeforeStop(p, c, q, {'?', '#'});
    BeforeWhole(p, {'?', '#'});
  }

  /** A URI without query or fragment that starts with a truthy base path
      is routed as the rest of it, normalised. */
  lemma RoutePathStripped(appPath: string, rest: string)
    requires Truthy(appPath)
    requires '?' !in appPath + rest && '#' !in appPath + rest
    ensures RoutePath(appPath + rest, Some(appPath)) == Normalise(rest)
  {
    var uri := appPath + rest;
    BeforeWhole(uri, {'?', '#'});
    assert uri[..|appPath|] == appPath && uri[|appPath|..] == rest;
  }

  /** The base-path test is a string prefix, not a path segment: the base
      path is removed even when the next character is not '/', so
      `/waste2worthx` is routed as `/x`. */
  lemma PrefixNotSegment(rest: string)
    requires rest == [] || (rest[0] != '/' && rest[|rest| - 1] != '/')
    requires '?' !in rest && '#' !in rest
    ensures RoutePath(DefaultAppPath + rest, Some(DefaultAppPath)) == "/" + rest
  {
    RoutePathStripped(DefaultAppPath, rest);
    TrimClean(rest);
  }

  /** The base path, the query string and a trailing slash all disappear:
      `/waste2worth/login/?next=1` is routed as `/login`. */
  lemma BasePathAndQueryRemoved(segment: string, query: string)
    requires segment != [] && segment[0] != '/' && segment[|segment| - 1] != '/'
    requires '?' !in segment && '#' !in segment
    ensures RoutePath(DefaultAppPath + "/" + segment + "/?" + query, Some(DefaultAppPath)) == "/" + segment
  {
    var rest := "/" + segment + "/";
    var path := DefaultAppPath + rest;
    assert DefaultAppPath + "/" + segment + "/?" + query == path + ['?'] + query;
    QueryIgnored(path, '?', query, Some(DefaultAppPath));
    RoutePathStripped(DefaultAppPath, rest);
    TrimEnclosed(segment);
  }

  /** One slash on each side of a clean segment is trimmed away. */
  lemma TrimEnclosed(t: string)
    requires t != [] && t[0] != '/' && t[|t| - 1] != '/'
    ensures TrimSlashes("/" + t + "/") == t
  {
    assert "/" + t + "/" == "/" + (t + "/");
    DropLeadingOne(t + "/");
    DropLeadingClean(t + "/");
    assert (t + "/")[..|t|] == t;
    DropTrailingClean(t);
  }

  // ---------------------------------------------------------------------
  // Handlers and the first-match scan

  /** `[$controllerName, $methodName] = explode('@', $handler)`. */
  function ParseHandler(h: string): (r: Handler)
    ensures r.controller == Before(h, {'@'})
    ensures r.action.None? <==> '@' !in h
    ensures r.action.Some? ==> |r.controller| < |h| && r.action.value == Before(h[|r.controller| + 1..], {'@'})
  {
    var c := Before(h, {'@'});
    if |c| == |h| then Handler(c, None) else Handler(c, Some(Before(h[|c| + 1..], {'@'})))
  }

  /** A handler `C@m` (neither part containing '@') names controller C and method m. */
  lemma ParseHandlerSplits(c: string, m: string)
    requires '@' !in c && '@' !in m
    ensures ParseHandler(c + "@" + m) == Handler(c, Some(m))
  {
    var h := c + "@" + m;
    BeforeStop(c, '@', m, {'@'});
    assert h[|c| + 1..] == m;
    BeforeWhole(m, {'@'});
  }

  predicate Resolvable(h: Handler, app: App) {
    h.controller in app.classes && h.action.Some? && (h.controller, h.action.value) in app.methods
  }

  /** Route `r` is the one taken for this request: same method, same path,
      and its controller class and method exist. */
  predicate Hits(r: Route, verb: string, path: string, app: App) {
    r.verb == verb && r.path == path && Resolvable(ParseHandler(r.handler), app)
  }

  function Target(r: Route): Outcome
    requires ParseHandler(r.handler).action.Some?
  {
    var h := ParseHandler(r.handler);
    Invoked(h.controller, h.action.value)
  }

  /** The `foreach` over the route table with its early return. */
  function Resolve(routes: seq<Route>, verb: string, path: string, app: App): Outcome {
    if routes == [] then NotFound
    else if Hits(routes[0], verb, path, app) then Target(routes[0])
    else Resolve(routes[1..], verb, path, app)
  }

  /** The first route that hits is the one invoked; later duplicates and
      earlier routes whose handler does not exist play no part. */
  lemma {:induction false} ResolveFirstHit(routes: seq<Route>, verb: string, path: string, app: App, i: nat)
    requires i < |routes| && Hits(routes[i], verb, path, app)
    requires forall j :: 0 <= j < i ==> !Hits(routes[j], verb, path, app)
    ensures Resolve(routes, verb, path, app) == Target(routes[i])
  {
    if i > 0 {
      assert !Hits(routes[0], verb, path, app);
      ResolveFirstHit(routes[1..], verb, path, app, i - 1);
    }
  }

  /** An invoked handler always comes from the first route that hits. */
  lemma {:induction false} ResolveInvokedIsFirstHit(routes: seq<Route>, verb: string, path: string, app: App)
    requires Resolve(routes, verb, path, app).Invoked?
    ensures exists i :: 0 <= i < |routes| && Hits(routes[i], verb, path, app)
              && (forall j :: 0 <= j < i ==> !Hits(routes[j], verb, path, app))
              && Resolve(routes, verb, path, app) == Target(routes[i])
  {
    if !Hits(routes[0], verb, path, app) {
      ResolveInvokedIsFirstHit(routes[1..], verb, path, app);
      var i :| 0 <= i < |routes| - 1 && Hits(routes[1..][i], verb, path, app)
              && (forall j :: 0 <= j < i ==> !Hits(routes[1..][j], verb, path, app))
              && Resolve(routes[1..], verb, path, app) == Target(routes[1..][i]);
      assert routes[i + 1] == routes[1..][i];
      assert forall j :: 1 <= j < i + 1 ==> routes[j] == routes[1..][j - 1];
    } else {
      assert Hits(routes[0], verb, path, app);
    }
  }

  /** 404 exactly when no route hits. */
  lemma {:induction false} ResolveNotFound(routes: seq<Route>, verb: string, path: string, app: App)
    ensures Resolve(routes, verb, path, app) == NotFound <==> forall i :: 0 <= i < |routes| ==> !Hits(routes[i], verb, path, app)
    ensures Resolve(routes, verb, path, app).Invoked? || Resolve(routes, verb, path, app) == NotFound
  {
    if routes != [] {
      ResolveNotFound(routes[1..], verb, path, app);
      assert forall i :: 1 <= i < |routes| ==> routes[i] == routes[1..][i - 1];
    }
  }

  /** Appending a route never changes a request that an earlier route
      already answers; it can only answer requests that were 404. */
  lemma {:induction false} ResolveAppend(routes: seq<Route>, r: Route, verb: string, path: string, app: App)
    ensures Resolve(routes + [r], verb, path, app) ==
            if Resolve(routes, verb, path, app).Invoked? then Resolve(routes, verb, path, app)
            else if Hits(r, verb, path, app) then Target(r)
            else NotFound
  {
    ResolveNotFound(routes, verb, path, app);
    if routes == [] {
      assert routes + [r] == [r];
    } else {
      assert (routes + [r])[1..] == routes[1..] + [r];
      ResolveAppend(routes[1..], r, verb, path, app);
      ResolveNotFound(routes[1..], verb, path, app);
    }
  }

  // ---------------------------------------------------------------------
  // The router object

  class Router {
    var routes: seq<Route>

    constructor ()
      ensures routes == []
    {
      routes := [];
    }

    /** Appends one route at the end; earlier routes keep their order. */
    method Add(verb: string, path: string, handler: string)
      modifies this
      ensures routes == old(routes) + [Route(verb, path, handler)]
    {
      routes := routes + [Route(verb, path, handler)];
    }

    /** Normalises the request URI, then scans the routes in order and
        invokes the first hit; without one, answers 404. */
    method Dispatch(verb: string, uri: string, appPath: Option<string>, app: App) returns (o: Outcome)
      ensures o == Resolve(routes, verb, RoutePath(uri, appPath), app)
    {
      var path := RequestPath(uri);
      if appPath.Some? && Truthy(appPath.value) && appPath.value <= path {
        path := path[|appPath.value|..];
      }
      path := "/" + TrimSlashes(path);
      var i := 0;
      while i < |routes|
        invariant 0 <= i <= |routes|
        invariant Resolve(routes[i..], verb, path, app) == Resolve(routes, verb, path, app)
      {
        var route := routes[i];
        assert routes[i..][1..] == routes[i + 1..];
        if route.verb == verb && route.path == path {
          var h := ParseHandler(route.handler);
          if h.controller in app.classes {
            if h.action.Some? && (h.controller, h.action.value) in app.methods {
              return Invoked(h.controller, h.action.value);
            }
          }
        }
        i := i + 1;
      }
      return NotFound;
    }
  }

  // ---------------------------------------------------------------------
  // The application's route table (public/index.php)

  function AppRoutes(): seq<Route> {
    [ Route("GET", "/", "HomeController@index"),
      Route("GET", "/login", "AuthController@showLogin"),
      Route("POST", "/login", "AuthController@login"),
      Route("GET", "/register", "AuthController@showRegister"),
      Route("POST", "/register", "AuthController@register"),
      Route("GET", "/logout", "AuthController@logout"),
      Route("GET", "/client/dashboard", "ClientController@dashboard"),
      Route("GET", "/client/discovery", "ClientController@discovery"),
      Route("GET", "/api/client/collectors/nearby", "ClientController@getNearbyCollectors"),
      Route("GET", "/collector/dashboard", "CollectorController@dashboard"),
      Route("POST", "/collector/status/update", "CollectorController@updateStatus"),
      Route("POST", "/collector/profile/update", "CollectorController@updateProfile"),
      Route("GET", "/admin/dashboard", "AdminController@dashboard") ]
  }

  /** Builds the application's router by thirteen calls to `Add`. */
  method RegisterRoutes() returns (router: Router)
    ensures fresh(router) && router.routes == AppRoutes()
  {
    router := new Router();
    router.Add("GET", "/", "HomeController@index");
    router.Add("GET", "/login", "AuthController@showLogin");
    router.Add("POST", "/login", "AuthController@login");
    router.Add("GET", "/register", "AuthController@showRegister");
    router.Add("POST", "/register", "AuthController@register");
    router.Add("GET", "/logout", "AuthController@logout");
    router.Add("GET", "/client/dashboard", "ClientController@dashboard");
    router.Add("GET", "/client/discovery", "ClientController@discovery");
    router.Add("GET", "/api/client/collectors/nearby", "ClientController@getNearbyCollectors");
    router.Add("GET", "/collector/dashboard", "CollectorController@dashboard");
    router.Add("POST", "/collector/status/update", "CollectorController@updateStatus");
    router.Add("POST", "/collector/profile/update", "CollectorController@updateProfile");
    router.Add("GET", "/admin/dashboard", "AdminController@dashboard");
  }
}
