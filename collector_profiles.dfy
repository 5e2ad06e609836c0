/** The `collector_profiles` table (app/Models/CollectorProfile.php): the
    nearby-collectors query, lookup by collector id, and the
    insert-or-update of a collector's own profile. */
module CollectorProfiles {
  import opened Common
  import opened Sorting
  import Users

  /** One row of `collector_profiles`, keyed by `collectorId` (a user id).
      Every other column is nullable in the model. */
  datatype Profile = Profile(
    collectorId: nat,
    displayName: Option<string>,
    bio: Option<string>,
    latitude: Option<real>,
    longitude: Option<real>,
    serviceRadiusKm: Option<real>,
    wasteTypes: Json,
    availabilityStatus: Option<string>,
    ratingAvg: Option<real>)

  /** The `$data` array of `update`: the seven columns it writes. */
  datatype ProfileData = ProfileData(
    displayName: Option<string>,
    bio: Option<string>,
    latitude: Option<real>,
    longitude: Option<real>,
    serviceRadiusKm: Option<real>,
    wasteTypes: seq<string>,
    availabilityStatus: Option<string>)

  ghost predicate UniqueCollectors(rows: seq<Profile>) {
    forall i, j :: 0 <= i < j < |rows| ==> rows[i].collectorId != rows[j].collectorId
  }

  /** The rows after the first keep the key unique and never repeat the
      first row's key. */
  lemma UniqueCollectorsTail(rows: seq<Profile>)
    requires rows != []
    ensures UniqueCollectors(rows) ==> UniqueCollectors(rows[1..])
    ensures UniqueCollectors(rows) ==> forall p :: p in rows[1..] ==> p.collectorId != rows[0].collectorId
  {
    if UniqueCollectors(rows) {
      forall a, b | 0 <= a < b < |rows| - 1 ensures rows[1..][a].collectorId != rows[1..][b].collectorId {
        assert rows[1..][a] == rows[a + 1] && rows[1..][b] == rows[b + 1];
      }
      forall p | p in rows[1..] ensures p.collectorId != rows[0].collectorId {
        var k :| 0 <= k < |rows| - 1 && rows[1..][k] == p;
        assert rows[k + 1] == p;
      }
    }
  }

  /** `SELECT * FROM collector_profiles WHERE collector_id = ?` and `fetch()`. */
  function FindByUserId(rows: seq<Profile>, id: nat): (r: Option<Profile>)
    ensures r.Some? ==> r.value in rows && r.value.collectorId == id
    ensures r.None? <==> forall i :: 0 <= i < |rows| ==> rows[i].collectorId != id
  {
    if rows == [] then None
    else if rows[0].collectorId == id then Some(rows[0])
    else FindByUserId(rows[1..], id)
  }

  lemma {:induction false} FindByUserIdUnique(rows: seq<Profile>, i: nat)
    requires UniqueCollectors(rows)
    requires i < |rows|
    ensures FindByUserId(rows, rows[i].collectorId) == Some(rows[i])
  {
    if i > 0 {
      UniqueCollectorsTail(rows);
      assert rows[1..][i - 1] == rows[i];
      FindByUserIdUnique(rows[1..], i - 1);
    }
  }

  // ---------------------------------------------------------------------
  // INSERT ... ON DUPLICATE KEY UPDATE

  /** The row the INSERT branch creates; `rating_avg` takes its column
      default, NULL here. */
  function Inserted(id: nat, d: ProfileData): (q: Profile)
    ensures q.collectorId == id && q.ratingAvg.None? && q.wasteTypes == Encoded(d.wasteTypes)
  {
    Profile(id, d.displayName, d.bio, d.latitude, d.longitude, d.serviceRadiusKm,
            Encoded(d.wasteTypes), d.availabilityStatus, None)
  }

  /** The UPDATE branch: exactly the seven listed columns are overwritten. */
  function Overwritten(p: Profile, d: ProfileData): (q: Profile)
    ensures q.collectorId == p.collectorId && q.ratingAvg == p.ratingAvg
  {
    p.(displayName := d.displayName, bio := d.bio, latitude := d.latitude, longitude := d.longitude,
       serviceRadiusKm := d.serviceRadiusKm, wasteTypes := Encoded(d.wasteTypes),
       availabilityStatus := d.availabilityStatus)
  }

  function Upsert(rows: seq<Profile>, id: nat, d: ProfileData): (r: seq<Profile>)
  {
    if FindByUserId(rows, id).None? then rows + [Inserted(id, d)]
    else seq(|rows|, i requires 0 <= i < |rows| =>
           if rows[i].collectorId == id then Overwritten(rows[i], d) else rows[i])
  }

  /** Without a profile for `id`, `update` appends one row built from the data. */
  lemma UpsertInserts(rows: seq<Profile>, id: nat, d: ProfileData)
    requires FindByUserId(rows, id).None?
    ensures Upsert(rows, id, d) == rows + [Inserted(id, d)]
    ensures UniqueCollectors(rows) ==> UniqueCollectors(Upsert(rows, id, d))
  {
  }

  /** With a profile for `id`, `update` rewrites that row's seven columns,
      keeps its key and every other column, and leaves the other rows alone. */
  lemma UpsertOverwrites(rows: seq<Profile>, id: nat, d: ProfileData, i: nat)
    requires i < |rows| && rows[i].collectorId == id
    ensures |Upsert(rows, id, d)| == |rows|
    ensures Upsert(rows, id, d)[i] == Overwritten(rows[i], d)
    ensures forall j :: 0 <= j < |rows| && rows[j].collectorId != id ==> Upsert(rows, id, d)[j] == rows[j]
    ensures UniqueCollectors(rows) ==> UniqueCollectors(Upsert(rows, id, d))
  {
    assert FindByUserId(rows, id).Some?;
  }

  /** After `update`, `findByUserId` returns the posted values: an upsert
      followed by a lookup is a round trip. */
  lemma UpsertThenFind(rows: seq<Profile>, id: nat, d: ProfileData)
    requires UniqueCollectors(rows)
    ensures FindByUserId(Upsert(rows, id, d), id) ==
              if FindByUserId(rows, id).None? then Some(Inserted(id, d))
              else Some(Overwritten(FindByUserId(rows, id).value, d))
  {
    var found := FindByUserId(rows, id);
    if found.None? {
      UpsertInserts(rows, id, d);
      FindByUserIdUnique(rows + [Inserted(id, d)], |rows|);
    } else {
      var i :| 0 <= i < |rows| && rows[i] == found.value;
      UpsertOverwrites(rows, id, d, i);
      FindByUserIdUnique(Upsert(rows, id, d), i);
    }
  }

  // ---------------------------------------------------------------------
  // The nearby-collectors query

  /** The SQL distance expression with its three placeholders and the row's
      coordinates: `6371 * acos(cos(radians(p1)) * cos(radians(lat)) *
      cos(radians(lng) - radians(p2)) + sin(radians(p3)) * sin(radians(lat)))`.
      It is kept abstract; None stands for SQL NULL (MySQL's `acos` answers
      NULL outside [-1, 1]). */
  type Formula = (real, real, real, real, real) -> Option<real>

  ghost predicate NonNegative(f: Formula) {
    forall p1, p2, p3, lat, lng :: f(p1, p2, p3, lat, lng).Some? ==> f(p1, p2, p3, lat, lng).value >= 0.0
  }

  /** One row of the result set. */
  datatype Nearby = Nearby(
    userId: nat,
    displayName: Option<string>,
    wasteTypes: Json,
    latitude: real,
    longitude: real,
    availabilityStatus: Option<string>,
    ratingAvg: Option<real>,
    distance: real)

  const ModelDefaultRadius: real := 5.0

  /** The argument list of `execute`: [lat, lng, lat, radius]. */
  function Bindings(lat: real, lng: real, radius: real): (b: seq<real>)
    ensures |b| == 4
  {
    [lat, lng, lat, radius]
  }

  /** The `distance` column of profile `p` under the bound placeholders;
      NULL when a coordinate is NULL. */
  function DistanceOf(f: Formula, b: seq<real>, p: Profile): Option<real>
    requires |b| == 4
  {
    if p.latitude.Some? && p.longitude.Some? then f(b[0], b[1], b[2], p.latitude.value, p.longitude.value)
    else None
  }

  /** Profile `p` passes the JOIN, the WHERE and the HAVING clauses. */
  predicate Selected(users: seq<Users.User>, f: Formula, b: seq<real>, p: Profile)
    requires |b| == 4
  {
    var u := Users.FindById(users, p.collectorId);
    var d := DistanceOf(f, b, p);
    u.Some? && u.value.status == "active" && d.Some? && d.value < b[3]
  }

  /** The result row of a selected profile: `u.id` is the profile's key. */
  function RowOf(users: seq<Users.User>, f: Formula, b: seq<real>, p: Profile): (x: Nearby)
    requires |b| == 4 && Selected(users, f, b, p)
    ensures x.userId == p.collectorId && x.distance == DistanceOf(f, b, p).value
  {
    Nearby(Users.FindById(users, p.collectorId).value.userId, p.displayName, p.wasteTypes,
           p.latitude.value, p.longitude.value, p.availabilityStatus, p.ratingAvg,
           DistanceOf(f, b, p).value)
  }

  /** FROM ... JOIN ... WHERE ... HAVING, in table order: each qualifying
      profile gives one row. */
  function Filtered(profiles: seq<Profile>, users: seq<Users.User>, f: Formula, b: seq<real>): (r: seq<Nearby>)
    requires |b| == 4
    ensures forall x :: x in r <==> exists p :: p in profiles && Selected(users, f, b, p) && x == RowOf(users, f, b, p)
    ensures UniqueCollectors(profiles) ==> forall i, j :: 0 <= i < j < |r| ==> r[i].userId != r[j].userId
  {
    if profiles == [] then []
    else
      var rest := Filtered(profiles[1..], users, f, b);
      assert forall p :: p in profiles <==> p == profiles[0] || p in profiles[1..];
      UniqueCollectorsTail(profiles);
      if Selected(users, f, b, profiles[0]) then
        var r := [RowOf(users, f, b, profiles[0])] + rest;
        assert UniqueCollectors(profiles) ==> forall j :: 0 < j < |r| ==> r[j].userId != r[0].userId by {
          if UniqueCollectors(profiles) {
            forall j | 0 < j < |r| ensures r[j].userId != r[0].userId {
              assert r[j] == rest[j - 1] && r[j] in rest;
            }
          }
        }
        assert forall i, j :: 0 < i < j < |r| ==> r[i] == rest[i - 1] && r[j] == rest[j - 1];
        r
      else rest
  }

  function ByDistance(x: Nearby): real {
    x.distance
  }

  /** `getNearby($lat, $lng, $radius = 5)`. */
  function GetNearby(profiles: seq<Profile>, users: seq<Users.User>, f: Formula, lat: real, lng: real, radius: Option<real>): (r: seq<Nearby>)
    ensures SortedBy(r, ByDistance)
    ensures multiset(r) == multiset(Filtered(profiles, users, f, Bindings(lat, lng, radius.GetOr(ModelDefaultRadius))))
  {
    SortBy(Filtered(profiles, users, f, Bindings(lat, lng, radius.GetOr(ModelDefaultRadius))), ByDistance)
  }

  /** What a returned row is: it comes from a profile whose user is active,
      whose coordinates are set, whose distance is the formula applied to
      (lat, lng, lat, row coordinates), and that distance is below the
      radius; and every such profile is returned. */
  lemma NearbyMembers(profiles: seq<Profile>, users: seq<Users.User>, f: Formula, lat: real, lng: real, radius: real, x: Nearby)
    ensures x in GetNearby(profiles, users, f, lat, lng, Some(radius)) <==>
              exists p :: p in profiles && Selected(users, f, Bindings(lat, lng, radius), p)
                          && x == RowOf(users, f, Bindings(lat, lng, radius), p)
    ensures x in GetNearby(profiles, users, f, lat, lng, Some(radius)) ==>
              && Users.FindById(users, x.userId).Some?
              && Users.FindById(users, x.userId).value.status == "active"
              && f(lat, lng, lat, x.latitude, x.longitude) == Some(x.distance)
              && x.distance < radius
  {
    var b := Bindings(lat, lng, radius);
    SortByMembers(Filtered(profiles, users, f, b), ByDistance, x);
  }

  /** Rows come back nearest first. */
  lemma NearbyOrdered(profiles: seq<Profile>, users: seq<Users.User>, f: Formula, lat: real, lng: real, radius: Option<real>, i: nat, j: nat)
    requires i <= j < |GetNearby(profiles, users, f, lat, lng, radius)|
    ensures GetNearby(profiles, users, f, lat, lng, radius)[i].distance <= GetNearby(profiles, users, f, lat, lng, radius)[j].distance
  {
    var r := GetNearby(profiles, users, f, lat, lng, radius);
    if i < j {
      assert ByDistance(r[i]) <= ByDistance(r[j]);
    }
  }

  /** A larger radius never loses a row. */
  lemma NearbyRadiusMonotone(profiles: seq<Profile>, users: seq<Users.User>, f: Formula, lat: real, lng: real, r1: real, r2: real, x: Nearby)
    requires r1 <= r2
    requires x in GetNearby(profiles, users, f, lat, lng, Some(r1))
    ensures x in GetNearby(profiles, users, f, lat, lng, Some(r2))
  {
    NearbyMembers(profiles, users, f, lat, lng, r1, x);
    NearbyMembers(profiles, users, f, lat, lng, r2, x);
    var b1 := Bindings(lat, lng, r1);
    var b2 := Bindings(lat, lng, r2);
    var p :| p in profiles && Selected(users, f, b1, p) && x == RowOf(users, f, b1, p);
    assert DistanceOf(f, b1, p) == DistanceOf(f, b2, p);
    assert Selected(users, f, b2, p) && x == RowOf(users, f, b2, p);
  }

  function UserOf(x: Nearby): nat {
    x.userId
  }

  /** Each collector appears at most once in the result. */
  lemma NearbyOnceEach(profiles: seq<Profile>, users: seq<Users.User>, f: Formula, lat: real, lng: real, radius: Option<real>)
    requires UniqueCollectors(profiles)
    ensures forall i, j :: 0 <= i < j < |GetNearby(profiles, users, f, lat, lng, radius)| ==>
              GetNearby(profiles, users, f, lat, lng, radius)[i].userId != GetNearby(profiles, users, f, lat, lng, radius)[j].userId
  {
    var rows := Filtered(profiles, users, f, Bindings(lat, lng, radius.GetOr(ModelDefaultRadius)));
    assert DistinctKeys(rows, UserOf);
    PermutationKeepsDistinctKeys(rows, GetNearby(profiles, users, f, lat, lng, radius), UserOf);
  }

  /** With a non-negative distance, a radius of zero or less returns nothing,
      not even a collector standing at the origin. */
  lemma NearbyNonPositiveRadius(profiles: seq<Profile>, users: seq<Users.User>, f: Formula, lat: real, lng: real, radius: real)
    requires NonNegative(f)
    requires radius <= 0.0
    ensures GetNearby(profiles, users, f, lat, lng, Some(radius)) == []
  {
    var r := GetNearby(profiles, users, f, lat, lng, Some(radius));
    if r != [] {
      NearbyMembers(profiles, users, f, lat, lng, radius, r[0]);
      assert false;
    }
  }

  /** A collector whose latitude or longitude is NULL is never returned. */
  lemma NearbySkipsMissingCoordinates(profiles: seq<Profile>, users: seq<Users.User>, f: Formula, lat: real, lng: real, radius: Option<real>, i: nat)
    requires UniqueCollectors(profiles)
    requires i < |profiles| && (profiles[i].latitude.None? || profiles[i].longitude.None?)
    ensures forall x :: x in GetNearby(profiles, users, f, lat, lng, radius) ==> x.userId != profiles[i].collectorId
  {
    var b := Bindings(lat, lng, radius.GetOr(ModelDefaultRadius));
    forall x | x in GetNearby(profiles, users, f, lat, lng, radius) ensures x.userId != profiles[i].collectorId {
      SortByMembers(Filtered(profiles, users, f, b), ByDistance, x);
      var p :| p in profiles && Selected(users, f, b, p) && x == RowOf(users, f, b, p);
      var k :| 0 <= k < |profiles| && profiles[k] == p;
      assert k != i;
    }
  }

  // ---------------------------------------------------------------------
  // The table object

  class ProfileTable {
    var rows: seq<Profile>

    ghost predicate Valid()
      reads this
    {
      UniqueCollectors(rows)
    }

    constructor ()
      ensures Valid() && rows == []
    {
      rows := [];
    }

    /** `update($userId, $data)`: insert, or overwrite the listed columns. */
    method Update(id: nat, d: ProfileData)
      requires Valid()
      modifies this
      ensures Valid()
      ensures rows == Upsert(old(rows), id, d)
    {
      var found := FindByUserId(rows, id);
      if found.None? {
        UpsertInserts(rows, id, d);
      } else {
        var i :| 0 <= i < |rows| && rows[i] == found.value;
        UpsertOverwrites(rows, id, d, i);
      }
      rows := Upsert(rows, id, d);
    }
  }
}
