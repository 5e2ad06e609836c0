/** The landing redirect of `GET /` (app/Controllers/HomeController.php): a
    total decision from the session to one redirect target. */
module Home {
  import opened Common
  import opened Sessions
  import opened Routing

  /** The roles that have a dashboard of their own. */
  predicate HasDashboard(role: string) {
    role == "collector" || role == "client" || role == "admin"
  }

  /** `index`: the target of the one redirect it issues (the redirect ends
      the request, so there is never a second one). */
  function Index(s: SessionData): (target: string)
    ensures s.userId.None? ==> target == "/login"
    ensures s.userId.Some? && s.role.Some? && HasDashboard(s.role.value) ==> target == "/" + s.role.value + "/dashboard"
    ensures target != "/login" ==> s.userId.Some? && s.role.Some? && HasDashboard(s.role.value)
  {
    if s.userId.None? then "/login"
    else match s.role
      case Some("collector") => "/collector/dashboard"
      case Some("client") => "/client/dashboard"
      case Some("admin") => "/admin/dashboard"
      case _ => "/login"
  }

  /** The landing page never redirects back to `/`, so `index` cannot loop. */
  lemma IndexNeverLoops(s: SessionData)
    ensures Index(s) != "/"
  {
  }

  /** A client or collector sent to a dashboard passes that controller's
      constructor guard, so the landing redirect is not bounced to `/login`;
      anyone else sent to that dashboard would be. */
  lemma IndexPassesGuard(s: SessionData, role: string)
    requires role == "client" || role == "collector"
    ensures Index(s) == "/" + role + "/dashboard" <==> RoleGuard(s, role).None?
  {
    if Index(s) == "/" + role + "/dashboard" {
      assert s.role.Some? && HasDashboard(s.role.value);
    }
  }

  /** Route 9 of the application's table, as registered. */
  lemma CollectorRoute()
    ensures AppRoutes()[9] == Route("GET", "/collector/dashboard", "CollectorController@dashboard")
  {
  }

  lemma CollectorHandler(h: string)
    requires h == "CollectorController@dashboard"
    ensures ParseHandler(h) == Handler("CollectorController", Some("dashboard"))
  {
    assert h == "CollectorController" + "@" + "dashboard";
    ParseHandlerSplits("CollectorController", "dashboard");
  }

  /** No route before position 9 is a GET route for the collector dashboard. */
  lemma CollectorRouteFirst(routes: seq<Route>, path: string, app: App)
    requires routes == AppRoutes() && path == "/collector/dashboard"
    ensures forall j :: 0 <= j < 9 ==> !Hits(routes[j], "GET", path, app)
  {
    forall j | 0 <= j < 9 ensures routes[j].path != path {
      assert |routes[j].path| != |path|;
    }
  }

  /** A signed-in collector is sent to a page that the application's route
      table, with its controllers loaded, dispatches to
      `CollectorController@dashboard`. */
  lemma CollectorLandingDispatched(routes: seq<Route>, app: App, s: SessionData)
    requires routes == AppRoutes() && s.userId.Some? && s.role == Some("collector")
    requires "CollectorController" in app.classes && ("CollectorController", "dashboard") in app.methods
    ensures Resolve(routes, "GET", Index(s), app) == Invoked("CollectorController", "dashboard")
  {
    var path := Index(s);
    assert path == "/collector/dashboard";
    CollectorRoute();
    CollectorHandler(routes[9].handler);
    CollectorRouteFirst(routes, path, app);
    ResolveFirstHit(routes, "GET", path, app, 9);
  }
}
