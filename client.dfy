/** The client pages and the nearby-collectors endpoint
    (app/Controllers/ClientController.php). Every action first runs the
    constructor's role guard; a failed guard redirects and ends the request. */
module Client {
  import opened Common
  import opened Sorting
  import opened Sessions
  import Users
  import opened CollectorProfiles

  const ClientRole: string := "client"
  const DefaultLatitude: real := 0.0
  const DefaultLongitude: real := 0.0
  const DefaultRadius: real := 10.0

  /** `dashboard` and `discovery`: render the view, without data. */
  function Page(s: SessionData, view: string): (r: Response<seq<Nearby>>)
    ensures r.Redirect? <==> RoleGuard(s, ClientRole).Some?
    ensures r.Redirect? ==> r.target == "/login"
    ensures r.Render? ==> r.view == view && r.data == []
    ensures RoleGuard(s, ClientRole).None? ==> r == Render(view, [])
  {
    if RoleGuard(s, ClientRole).Some? then Redirect(RoleGuard(s, ClientRole).value)
    else Render(view, [])
  }

  function Dashboard(s: SessionData): (r: Response<seq<Nearby>>)
    ensures r.Redirect? <==> RoleGuard(s, ClientRole).Some?
    ensures r.Render? ==> r.view == "client/dashboard"
    ensures RoleGuard(s, ClientRole).None? ==> r == Render("client/dashboard", [])
  {
    Page(s, "client/dashboard")
  }

  function Discovery(s: SessionData): (r: Response<seq<Nearby>>)
    ensures r.Redirect? <==> RoleGuard(s, ClientRole).Some?
    ensures r.Render? ==> r.view == "client/discovery"
    ensures RoleGuard(s, ClientRole).None? ==> r == Render("client/discovery", [])
  {
    Page(s, "client/discovery")
  }

  /** `getNearbyCollectors`: `lat`, `lng` and `radius` from the query string
      (None when absent, otherwise the number MySQL makes of the bound
      value), defaulted with `??`, and the model's answer sent as JSON. */
  function GetNearbyCollectors(s: SessionData, lat: Option<real>, lng: Option<real>, radius: Option<real>,
                               profiles: seq<Profile>, users: seq<Users.User>, f: Formula): (r: Response<seq<Nearby>>)
    ensures r.Redirect? <==> RoleGuard(s, ClientRole).Some?
    ensures r.Redirect? ==> r.target == "/login"
    ensures r.Json? ==> SortedBy(r.payload, ByDistance)
    ensures r.Json? ==> forall x :: x in r.payload ==> x.distance < radius.GetOr(DefaultRadius)
    ensures RoleGuard(s, ClientRole).None? ==>
              r == Json(GetNearby(profiles, users, f, lat.GetOr(0.0), lng.GetOr(0.0), Some(radius.GetOr(10.0))))
  {
    if RoleGuard(s, ClientRole).Some? then Redirect(RoleGuard(s, ClientRole).value)
    else
      var rows := GetNearby(profiles, users, f, lat.GetOr(DefaultLatitude), lng.GetOr(DefaultLongitude),
                            Some(radius.GetOr(DefaultRadius)));
      assert forall x :: x in rows ==> x.distance < radius.GetOr(DefaultRadius) by {
        forall x | x in rows ensures x.distance < radius.GetOr(DefaultRadius) {
          NearbyMembers(profiles, users, f, lat.GetOr(DefaultLatitude), lng.GetOr(DefaultLongitude),
                        radius.GetOr(DefaultRadius), x);
        }
      }
      Json(rows)
  }

  /** The body is the model's list itself, in the model's order: the
      radius is always passed, so the query's own default of 5 km never
      applies, and an absent parameter is replaced by 0, 0 and 10 km. The
      third case is the discovery page's own call, which sends `lat` and
      `lng` but no radius. */
  lemma NearbyPassesThrough(s: SessionData, lat: Option<real>, lng: Option<real>, radius: Option<real>,
                            profiles: seq<Profile>, users: seq<Users.User>, f: Formula)
    requires RoleGuard(s, ClientRole).None?
    ensures GetNearbyCollectors(s, lat, lng, radius, profiles, users, f).Json?
    ensures lat.Some? && lng.Some? && radius.Some? ==>
              GetNearbyCollectors(s, lat, lng, radius, profiles, users, f).payload ==
              GetNearby(profiles, users, f, lat.value, lng.value, radius)
    ensures lat.None? && lng.None? && radius.None? ==>
              GetNearbyCollectors(s, lat, lng, radius, profiles, users, f).payload ==
              GetNearby(profiles, users, f, 0.0, 0.0, Some(10.0))
    ensures lat.Some? && lng.Some? && radius.None? ==>
              GetNearbyCollectors(s, lat, lng, radius, profiles, users, f).payload ==
              GetNearby(profiles, users, f, lat.value, lng.value, Some(10.0))
  {
  }

  /** The discovery page's call (`lat` and `lng`, no radius) answers with
      exactly the active collectors strictly within 10 km of the given point,
      nearest first: a collector between 5 and 10 km away, which the query's
      own default would drop, is returned. */
  lemma NearbyFromDiscovery(s: SessionData, lat: real, lng: real, profiles: seq<Profile>, users: seq<Users.User>,
                            f: Formula, x: Nearby)
    requires RoleGuard(s, ClientRole).None?
    ensures x in GetNearbyCollectors(s, Some(lat), Some(lng), None, profiles, users, f).payload <==>
              exists p :: p in profiles && Selected(users, f, Bindings(lat, lng, 10.0), p)
                          && x == RowOf(users, f, Bindings(lat, lng, 10.0), p)
    ensures x in GetNearbyCollectors(s, Some(lat), Some(lng), None, profiles, users, f).payload ==>
              f(lat, lng, lat, x.latitude, x.longitude) == Some(x.distance) && x.distance < 10.0
              && Users.FindById(users, x.userId).Some? && Users.FindById(users, x.userId).value.status == "active"
  {
    NearbyMembers(profiles, users, f, lat, lng, 10.0, x);
  }

  /** With no query parameters, every collector returned is an active one
      within 10 km of (0, 0) as the distance formula measures it, and every
      active collector within 10 km of (0, 0) is returned. */
  lemma NearbyWithoutParameters(s: SessionData, profiles: seq<Profile>, users: seq<Users.User>, f: Formula, x: Nearby)
    requires RoleGuard(s, ClientRole).None?
    ensures x in GetNearbyCollectors(s, None, None, None, profiles, users, f).payload <==>
              exists p :: p in profiles && Selected(users, f, Bindings(0.0, 0.0, 10.0), p)
                          && x == RowOf(users, f, Bindings(0.0, 0.0, 10.0), p)
    ensures x in GetNearbyCollectors(s, None, None, None, profiles, users, f).payload ==>
              f(0.0, 0.0, 0.0, x.latitude, x.longitude) == Some(x.distance) && x.distance < 10.0
              && Users.FindById(users, x.userId).Some? && Users.FindById(users, x.userId).value.status == "active"
  {
    NearbyMembers(profiles, users, f, 0.0, 0.0, 10.0, x);
  }
}
