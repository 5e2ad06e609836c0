/** The `service_requests` table (app/Models/ServiceRequest.php): creating a
    pickup request, listing a collector's requests newest first, and setting
    the status of one request. */
module ServiceRequests {
  import opened Common
  import opened Sorting
  import Users

  /** One row of `service_requests`; `createdAt` is the insertion time. */
  datatype Request = Request(
    requestId: nat,
    clientId: nat,
    collectorId: nat,
    requestedWasteTypes: Json,
    description: string,
    pickupAddress: string,
    latitude: real,
    longitude: real,
    desiredPickupTime: string,
    status: string,
    createdAt: int)

  /** The `$data` array handed to `create`, under its own key names. */
  datatype RequestData = RequestData(
    clientId: nat,
    collectorId: nat,
    wasteTypes: seq<string>,
    description: string,
    address: string,
    latitude: real,
    longitude: real,
    pickupTime: string)

  /** A row of `findByCollector`: `sr.*` plus `u.email AS client_email`. */
  datatype ClientRequest = ClientRequest(request: Request, clientEmail: string)

  ghost predicate WellFormed(rows: seq<Request>, nextId: nat) {
    && nextId >= 1
    && (forall i :: 0 <= i < |rows| ==> rows[i].requestId < nextId)
    && (forall i, j :: 0 <= i < j < |rows| ==> rows[i].requestId < rows[j].requestId)
  }

  /** No two rows share a `request_id` (the primary key). */
  ghost predicate DistinctIds(rows: seq<Request>) {
    forall i, j :: 0 <= i < j < |rows| ==> rows[i].requestId != rows[j].requestId
  }

  /** The row `create` inserts: the data's keys mapped onto the columns and
      the status fixed to `pending`. */
  function NewRequest(id: nat, d: RequestData, now: int): (q: Request)
    ensures q.requestId == id && q.status == "pending" && q.createdAt == now
    ensures q.clientId == d.clientId && q.collectorId == d.collectorId
    ensures q.pickupAddress == d.address && q.desiredPickupTime == d.pickupTime
    ensures q.requestedWasteTypes == Encoded(d.wasteTypes)
    ensures q.description == d.description && q.latitude == d.latitude && q.longitude == d.longitude
  {
    Request(id, d.clientId, d.collectorId, Encoded(d.wasteTypes), d.description, d.address,
            d.latitude, d.longitude, d.pickupTime, "pending", now)
  }

  // ---------------------------------------------------------------------
  // findByCollector

  /** Request `q` passes the JOIN and the WHERE clause. */
  predicate Listed(users: seq<Users.User>, collectorId: nat, status: Option<string>, q: Request) {
    && q.collectorId == collectorId
    && (status.Some? && Truthy(status.value) ==> q.status == status.value)
    && Users.FindById(users, q.clientId).Some?
  }

  /** `sr.*` with the email of the client's user row. */
  function Joined(users: seq<Users.User>, q: Request): (x: ClientRequest)
    requires Users.FindById(users, q.clientId).Some?
    ensures x.request == q && exists u :: u in users && u.userId == q.clientId && u.email == x.clientEmail
  {
    ClientRequest(q, Users.FindById(users, q.clientId).value.email)
  }

  /** FROM ... JOIN users ... WHERE ..., in table order: each qualifying
      request gives one row. */
  function Matching(rows: seq<Request>, users: seq<Users.User>, collectorId: nat, status: Option<string>): (r: seq<ClientRequest>)
    ensures forall x :: x in r <==> exists q :: q in rows && Listed(users, collectorId, status, q) && x == Joined(users, q)
    ensures DistinctIds(rows) ==> forall i, j :: 0 <= i < j < |r| ==> r[i].request.requestId != r[j].request.requestId
  {
    if rows == [] then []
    else
      var rest := Matching(rows[1..], users, collectorId, status);
      assert forall q :: q in rows <==> q == rows[0] || q in rows[1..];
      DistinctIdsTail(rows);
      if Listed(users, collectorId, status, rows[0]) then
        var r := [Joined(users, rows[0])] + rest;
        assert DistinctIds(rows) ==> forall j :: 0 < j < |r| ==> r[j].request.requestId != r[0].request.requestId by {
          if DistinctIds(rows) {
            forall j | 0 < j < |r| ensures r[j].request.requestId != r[0].request.requestId {
              assert r[j] == rest[j - 1] && r[j] in rest;
            }
          }
        }
        assert forall i, j :: 0 < i < j < |r| ==> r[i] == rest[i - 1] && r[j] == rest[j - 1];
        r
      else rest
  }

  lemma DistinctIdsTail(rows: seq<Request>)
    requires rows != []
    ensures DistinctIds(rows) ==> DistinctIds(rows[1..])
    ensures DistinctIds(rows) ==> forall q :: q in rows[1..] ==> q.requestId != rows[0].requestId
  {
    if DistinctIds(rows) {
      forall a, b | 0 <= a < b < |rows| - 1 ensures rows[1..][a].requestId != rows[1..][b].requestId {
        assert rows[1..][a] == rows[a + 1] && rows[1..][b] == rows[b + 1];
      }
      forall q | q in rows[1..] ensures q.requestId != rows[0].requestId {
        var k :| 0 <= k < |rows| - 1 && rows[1..][k] == q;
        assert rows[k + 1] == q;
      }
    }
  }

  function Newest(x: ClientRequest): real {
    -(x.request.createdAt as real)
  }

  /** `findByCollector($collectorId, $status = null)`: ORDER BY created_at DESC. */
  function FindByCollector(rows: seq<Request>, users: seq<Users.User>, collectorId: nat, status: Option<string>): (r: seq<ClientRequest>)
    ensures SortedBy(r, Newest)
    ensures multiset(r) == multiset(Matching(rows, users, collectorId, status))
  {
    SortBy(Matching(rows, users, collectorId, status), Newest)
  }

  /** What a listed row is: one of the collector's requests, with the status
      asked for when the status argument is truthy (any status otherwise),
      carrying its client's email; requests whose client has no user row are
      dropped. Every request that qualifies is listed. */
  lemma FindByCollectorMembers(rows: seq<Request>, users: seq<Users.User>, collectorId: nat, status: Option<string>, x: ClientRequest)
    ensures x in FindByCollector(rows, users, collectorId, status) <==>
              x.request in rows && Listed(users, collectorId, status, x.request) && x == Joined(users, x.request)
    ensures x in FindByCollector(rows, users, collectorId, status) ==>
              && x.request.collectorId == collectorId
              && (status.Some? && Truthy(status.value) ==> x.request.status == status.value)
              && exists u :: u in users && u.userId == x.request.clientId && u.email == x.clientEmail
  {
    SortByMembers(Matching(rows, users, collectorId, status), Newest, x);
  }

  /** Without a truthy status argument, no request of the collector is
      filtered out by its status. */
  lemma FindByCollectorAnyStatus(rows: seq<Request>, users: seq<Users.User>, collectorId: nat, status: Option<string>, q: Request)
    requires status.None? || !Truthy(status.value)
    requires q in rows && q.collectorId == collectorId && Users.FindById(users, q.clientId).Some?
    ensures Joined(users, q) in FindByCollector(rows, users, collectorId, status)
  {
    FindByCollectorMembers(rows, users, collectorId, status, Joined(users, q));
  }

  function RequestIdOf(x: ClientRequest): nat {
    x.request.requestId
  }

  /** In a well-formed table each request is listed at most once. */
  lemma FindByCollectorOnceEach(rows: seq<Request>, nextId: nat, users: seq<Users.User>, collectorId: nat, status: Option<string>)
    requires WellFormed(rows, nextId)
    ensures forall i, j :: 0 <= i < j < |FindByCollector(rows, users, collectorId, status)| ==>
              FindByCollector(rows, users, collectorId, status)[i].request.requestId !=
              FindByCollector(rows, users, collectorId, status)[j].request.requestId
  {
    var listed := Matching(rows, users, collectorId, status);
    assert DistinctKeys(listed, RequestIdOf);
    PermutationKeepsDistinctKeys(listed, FindByCollector(rows, users, collectorId, status), RequestIdOf);
  }

  /** Newest first. */
  lemma FindByCollectorNewestFirst(rows: seq<Request>, users: seq<Users.User>, collectorId: nat, status: Option<string>, i: nat, j: nat)
    requires i <= j < |FindByCollector(rows, users, collectorId, status)|
    ensures FindByCollector(rows, users, collectorId, status)[i].request.createdAt >=
            FindByCollector(rows, users, collectorId, status)[j].request.createdAt
  {
    var r := FindByCollector(rows, users, collectorId, status);
    if i < j {
      assert Newest(r[i]) <= Newest(r[j]);
    }
  }

  // ---------------------------------------------------------------------
  // updateStatus

  /** A decimal digit string's value; None for anything else. MySQL compares
      the bound `request_id` with the integer column after converting it. */
  function DecimalValue(s: string): (r: Option<nat>)
    ensures s == [] ==> r.None?
    ensures r.Some? <==> s != [] && forall i :: 0 <= i < |s| ==> '0' <= s[i] <= '9'
  {
    if s == [] || !('0' <= s[|s| - 1] <= '9') then None
    else if |s| == 1 then Some((s[0] as int - '0' as int) as nat)
    else match DecimalValue(s[..|s| - 1])
      case None => None
      case Some(v) =>
        assert forall i :: 0 <= i < |s| - 1 ==> s[..|s| - 1][i] == s[i];
        Some(10 * v + (s[|s| - 1] as int - '0' as int))
  }

  /** The decimal digits of `n`, without leading zeros. */
  function Decimal(n: nat): (s: string)
    ensures s != [] && forall i :: 0 <= i < |s| ==> '0' <= s[i] <= '9'
  {
    if n < 10 then [('0' as int + n) as char]
    else Decimal(n / 10) + [('0' as int + n % 10) as char]
  }

  /** Every id, written in decimal, names that id. */
  lemma {:induction false} DecimalRoundTrip(n: nat)
    ensures DecimalValue(Decimal(n)) == Some(n)
  {
    if n >= 10 {
      var s := Decimal(n);
      assert s[..|s| - 1] == Decimal(n / 10);
      DecimalRoundTrip(n / 10);
    }
  }

  /** `UPDATE service_requests SET status = ? WHERE request_id = ?`. */
  function SetStatus(rows: seq<Request>, requestId: string, status: string): (r: seq<Request>)
    ensures |r| == |rows|
    ensures forall i :: 0 <= i < |rows| ==> r[i].(status := rows[i].status) == rows[i]
    ensures forall i :: 0 <= i < |rows| && DecimalValue(requestId) != Some(rows[i].requestId) ==> r[i] == rows[i]
    ensures forall i :: 0 <= i < |rows| && DecimalValue(requestId) == Some(rows[i].requestId) ==> r[i].status == status
  {
    seq(|rows|, i requires 0 <= i < |rows| =>
      if DecimalValue(requestId) == Some(rows[i].requestId) then rows[i].(status := status) else rows[i])
  }

  /** An id that names no row changes nothing. */
  lemma SetStatusUnknownId(rows: seq<Request>, requestId: string, status: string)
    requires forall i :: 0 <= i < |rows| ==> DecimalValue(requestId) != Some(rows[i].requestId)
    ensures SetStatus(rows, requestId, status) == rows
  {
  }

  /** With well-formed ids, exactly one row changes, and only its status. */
  lemma SetStatusOneRow(rows: seq<Request>, nextId: nat, k: nat, status: string, requestId: string)
    requires WellFormed(rows, nextId)
    requires k < |rows| && DecimalValue(requestId) == Some(rows[k].requestId)
    ensures SetStatus(rows, requestId, status)[k] == rows[k].(status := status)
    ensures forall i :: 0 <= i < |rows| && i != k ==> SetStatus(rows, requestId, status)[i] == rows[i]
  {
    forall i | 0 <= i < |rows| && i != k ensures rows[i].requestId != rows[k].requestId {
      if i < k { assert rows[i].requestId < rows[k].requestId; }
      else { assert rows[k].requestId < rows[i].requestId; }
    }
  }

  /** Posting a request's id in decimal sets the status of that request and
      of no other. */
  lemma SetStatusByPostedId(rows: seq<Request>, nextId: nat, k: nat, status: string)
    requires WellFormed(rows, nextId) && k < |rows|
    ensures SetStatus(rows, Decimal(rows[k].requestId), status)[k] == rows[k].(status := status)
    ensures forall i :: 0 <= i < |rows| && i != k ==> SetStatus(rows, Decimal(rows[k].requestId), status)[i] == rows[i]
  {
    DecimalRoundTrip(rows[k].requestId);
    SetStatusOneRow(rows, nextId, k, status, Decimal(rows[k].requestId));
  }

  // ---------------------------------------------------------------------
  // The table object

  class RequestTable {
    var rows: seq<Request>
    var nextId: nat

    ghost predicate Valid()
      reads this
    {
      WellFormed(rows, nextId)
    }

    constructor ()
      ensures Valid() && rows == [] && nextId == 1
    {
      rows := [];
      nextId := 1;
    }

    /** `create($data)`: appends one pending request and returns its id. */
    method Create(d: RequestData, now: int) returns (id: nat)
      requires Valid()
      modifies this
      ensures Valid()
      ensures id == old(nextId) && nextId == id + 1
      ensures rows == old(rows) + [NewRequest(id, d, now)]
    {
      id := nextId;
      rows := rows + [NewRequest(id, d, now)];
      nextId := nextId + 1;
    }

    /** `updateStatus($requestId, $status)`. */
    method UpdateStatus(requestId: string, status: string)
      requires Valid()
      modifies this
      ensures Valid() && nextId == old(nextId)
      ensures rows == SetStatus(old(rows), requestId, status)
    {
      rows := SetStatus(rows, requestId, status);
    }
  }
}
