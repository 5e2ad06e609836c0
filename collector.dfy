/** The collector's actions (app/Controllers/CollectorController.php) over
    the session and the three tables. Every action first runs the
    constructor's role guard; a failed guard redirects to `/login` and ends
    the request before anything is read or written. */
module Collector {
  import opened Common
  import opened Sessions
  import Users
  import opened CollectorProfiles
  import opened ServiceRequests

  const CollectorRole: string := "collector"
  const DashboardPath: string := "/collector/dashboard"

  /** The data of the `collector/dashboard` view; `fetch()` answering false
      is None. */
  datatype DashboardData = DashboardData(requests: seq<ClientRequest>, profile: Option<Profile>)

  /** The posted profile form; a field that was not posted is None. */
  datatype ProfileForm = ProfileForm(
    displayName: Option<string>,
    bio: Option<string>,
    latitude: Option<real>,
    longitude: Option<real>,
    serviceRadiusKm: Option<real>,
    wasteTypes: Option<seq<string>>,
    availabilityStatus: Option<string>)

  /** The `$data` array `updateProfile` builds: a missing field reaches SQL
      as NULL, except `waste_types`, which defaults to the empty list. */
  function FormData(form: ProfileForm): (d: ProfileData)
    ensures d.wasteTypes == if form.wasteTypes.Some? then form.wasteTypes.value else []
    ensures d.displayName == form.displayName && d.bio == form.bio
    ensures d.latitude == form.latitude && d.longitude == form.longitude
    ensures d.serviceRadiusKm == form.serviceRadiusKm && d.availabilityStatus == form.availabilityStatus
  {
    ProfileData(form.displayName, form.bio, form.latitude, form.longitude, form.serviceRadiusKm,
                form.wasteTypes.GetOr([]), form.availabilityStatus)
  }

  /** `if ($requestId && $status)`: both posted and both truthy. */
  predicate StatusFormComplete(requestId: Option<string>, status: Option<string>) {
    requestId.Some? && Truthy(requestId.value) && status.Some? && Truthy(status.value)
  }

  /** The dashboard lists every request addressed to the collector whose
      client has a user row, whatever its status. */
  lemma DashboardListsAll(rows: seq<Request>, users: seq<Users.User>, id: nat, q: Request)
    requires q in rows && q.collectorId == id && Users.FindById(users, q.clientId).Some?
    ensures (exists x :: x in FindByCollector(rows, users, id, None) && x.request == q)
  {
    FindByCollectorAnyStatus(rows, users, id, None, q);
  }

  /** After `updateProfile`, the dashboard's `findByUserId` returns the
      posted values for the seven columns, whether the profile was new or
      overwritten. */
  lemma UpdatedProfileShown(rows: seq<Profile>, id: nat, form: ProfileForm)
    requires UniqueCollectors(rows)
    ensures FindByUserId(Upsert(rows, id, FormData(form)), id).Some?
    ensures var p := FindByUserId(Upsert(rows, id, FormData(form)), id).value;
            && p.collectorId == id
            && p.displayName == form.displayName && p.bio == form.bio
            && p.latitude == form.latitude && p.longitude == form.longitude
            && p.serviceRadiusKm == form.serviceRadiusKm
            && p.wasteTypes == Encoded(form.wasteTypes.GetOr([]))
            && p.availabilityStatus == form.availabilityStatus
  {
    UpsertThenFind(rows, id, FormData(form));
  }

  class CollectorController {
    const session: Session
    const requests: RequestTable
    const profiles: ProfileTable
    const users: Users.UserTable

    constructor (session: Session, requests: RequestTable, profiles: ProfileTable, users: Users.UserTable)
      ensures this.session == session && this.requests == requests
      ensures this.profiles == profiles && this.users == users
    {
      this.session := session;
      this.requests := requests;
      this.profiles := profiles;
      this.users := users;
    }

    /** GET /collector/dashboard: the session user's requests, unfiltered
        and newest first, and the session user's profile. */
    method Dashboard() returns (resp: Response<DashboardData>)
      ensures RoleGuard(session.data, CollectorRole).Some? <==> resp == Redirect("/login")
      ensures RoleGuard(session.data, CollectorRole).None? ==>
                var id := session.data.userId.value;
                resp == Render("collector/dashboard",
                               DashboardData(FindByCollector(requests.rows, users.rows, id, None),
                                             FindByUserId(profiles.rows, id)))
    {
      var guard := RoleGuard(session.data, CollectorRole);
      if guard.Some? {
        return Redirect(guard.value);
      }
      var id := session.data.userId.value;
      var listed := FindByCollector(requests.rows, users.rows, id, None);
      var profile := FindByUserId(profiles.rows, id);
      resp := Render("collector/dashboard", DashboardData(listed, profile));
    }

    /** POST /collector/status/update: writes the posted status verbatim to
        the posted request id when both are truthy; no check on the value
        or on who owns the request. */
    method UpdateStatus(requestId: Option<string>, status: Option<string>) returns (resp: Response<DashboardData>)
      requires requests.Valid()
      modifies requests
      ensures requests.Valid() && requests.nextId == old(requests.nextId)
      ensures RoleGuard(session.data, CollectorRole).Some? ==>
                resp == Redirect("/login") && requests.rows == old(requests.rows)
      ensures RoleGuard(session.data, CollectorRole).None? ==>
                && resp == Redirect(DashboardPath)
                && requests.rows == if StatusFormComplete(requestId, status)
                                    then SetStatus(old(requests.rows), requestId.value, status.value)
                                    else old(requests.rows)
    {
      var guard := RoleGuard(session.data, CollectorRole);
      if guard.Some? {
        return Redirect(guard.value);
      }
      if requestId.Some? && Truthy(requestId.value) && status.Some? && Truthy(status.value) {
        requests.UpdateStatus(requestId.value, status.value);
      }
      resp := Redirect(DashboardPath);
    }

    /** POST /collector/profile/update: upserts the session user's profile. */
    method UpdateProfile(form: ProfileForm) returns (resp: Response<DashboardData>)
      requires profiles.Valid()
      modifies profiles
      ensures profiles.Valid()
      ensures RoleGuard(session.data, CollectorRole).Some? ==>
                resp == Redirect("/login") && profiles.rows == old(profiles.rows)
      ensures RoleGuard(session.data, CollectorRole).None? ==>
                && resp == Redirect(DashboardPath)
                && profiles.rows == Upsert(old(profiles.rows), session.data.userId.value, FormData(form))
    {
      var guard := RoleGuard(session.data, CollectorRole);
      if guard.Some? {
        return Redirect(guard.value);
      }
      profiles.Update(session.data.userId.value, FormData(form));
      resp := Redirect(DashboardPath);
    }
  }
}
