# waste2worth, modelled in Dafny

waste2worth is a small PHP web application that connects waste producers
("clients") with waste collectors. This project models its core: the front
controller's router, the landing redirect and the per-controller role guards,
the login/registration/logout state machine, and the three tables behind it
(`users`, `collector_profiles`, `service_requests`) with the SQL statements the
application runs against them.

The database is replaced by in-memory tables: a class per table holding
`rows: seq<Row>` in insertion (auto-increment) order, plus the next
auto-increment value where the table has one. Each SQL statement is a
function on those rows. The table methods replace `rows` by that function of
the old rows. The PHP session is a `Session` object holding `user_id` and
`role`. A controller action is a method or function that returns what the
action ends with: a redirect target, a rendered view with its data, or a JSON
body. `redirect` ends the request, so a failed constructor guard is the
action's first and only step.

Modules, one per source file plus three shared ones:

- `Routing`: app/Core/Router.php and the route table of public/index.php.
- `Home`: app/Controllers/HomeController.php.
- `Auth`: app/Controllers/AuthController.php.
- `Client`: app/Controllers/ClientController.php.
- `Collector`: app/Controllers/CollectorController.php.
- `Users`: app/Models/User.php.
- `CollectorProfiles`: app/Models/CollectorProfile.php.
- `ServiceRequests`: app/Models/ServiceRequest.php.
- Shared modules:
  - `Common` holds `Option` and `??`, PHP string truthiness, the abstract JSON value and the action response.
  - `Sessions` holds the session and the role guard.
  - `Sorting` models `ORDER BY` as a stable sort by a real key.

Values that come from outside the program are parameters:

- the APP_URL base path;
- which controller classes and methods exist;
- the current time (`NOW()`);
- the salt of `password_hash`;
- the distance expression of the nearby query.

A request parameter takes its default only when it is absent (`??`). A
parameter that is present is bound verbatim and converted by MySQL.

Some behaviours of the code as written:

- The base-path test is a string prefix, so `/waste2worthx` is routed as `/x`.
- Registration accepts any posted role, `admin` included.
- An account with status `pending` can log in. Only `suspended` is refused.
- `updateStatus` writes any posted status to any request id, with no ownership check.

## Model

| member | source | states |
|---|---|---|
| Sorting.SortBy | app/Models/CollectorProfile.php:19 | the result is ordered by the key and is a permutation of the input |
| Sorting.SortByMembers | app/Models/ServiceRequest.php:41 | ordering neither adds nor drops rows: membership is unchanged |
| Sorting.PermutationKeepsDistinctKeys | app/Models/CollectorProfile.php:19 | reordering rows never makes two of them share a key |
| Routing.RequestPath | app/Core/Router.php:20 | the path is the prefix of the URI before the first '?' or '#', and contains neither |
| Routing.Normalise | app/Core/Router.php:26 | `'/' . trim($uri, '/')`; its properties are the Normalise and Trim lemmas |
| Routing.RoutePath | app/Core/Router.php:20-26 | the path that is matched: path component, base path stripped, slashes normalised |
| Routing.StripAppPath | app/Core/Router.php:21-25 | the base path is removed exactly when it is truthy and a string prefix of the path; otherwise the path is unchanged |
| Routing.TrimSlashes | app/Core/Router.php:26 | `trim($uri, '/')` is the slice of the path between its leading and its trailing slashes, with no '/' left at either end |
| Routing.NormaliseShape | app/Core/Router.php:26 | a normalised path starts with one '/' and, unless it is "/", does not end with '/' |
| Routing.TrimEmptyIffAllSlashes | app/Core/Router.php:26 | trimming gives "" exactly when the path is all slashes, and such a path normalises to "/" |
| Routing.TrimClean | app/Core/Router.php:26 | a path with clean ends is unchanged by trimming, with or without one leading '/' |
| Routing.NormaliseIdempotent | app/Core/Router.php:26 | normalising a normalised path changes nothing |
| Routing.TrimEnclosed | app/Core/Router.php:26 | one slash on each side of a clean segment is trimmed away |
| Routing.QueryIgnored | app/Core/Router.php:20 | whatever follows the first '?' or '#' does not change the routed path |
| Routing.RoutePathStripped | app/Core/Router.php:20-26 | a URI with no query that starts with a truthy base path is routed as the rest of it, normalised |
| Routing.PrefixNotSegment | app/Core/Router.php:22-25 | the base path `/waste2worth` is removed even in the middle of a segment: `/waste2worth` followed by any clean text t is routed as `/t`, so `/waste2worthx` goes to `/x` |
| Routing.BasePathAndQueryRemoved | app/Core/Router.php:20-26 | `/waste2worth/s/?q` is routed as `/s` for every clean segment s and any query q, so `/waste2worth/login/?next=1` goes to `/login` |
| Routing.Before | app/Core/Router.php:20 | the longest prefix without a stop character, followed by a stop character or the end |
| Routing.BeforeStop | app/Core/Router.php:30 | a stop-free prefix followed by a stop character is exactly what is cut |
| Routing.BeforeWhole | app/Core/Router.php:20 | a string with no stop character is kept whole |
| Routing.ParseHandler | app/Core/Router.php:30 | the controller is the text before the first '@'; the method is unset exactly when there is no '@', and otherwise is the text between the first '@' and the next one |
| Routing.ParseHandlerSplits | app/Core/Router.php:30 | `C@m` splits into controller C and method m |
| Routing.Resolve | app/Core/Router.php:28-44 | the `foreach` with its early return and the 404 fallback; its properties are the Resolve lemmas |
| Routing.ResolveFirstHit | app/Core/Router.php:28-39 | the first route with equal method and path whose class and method exist is invoked; later duplicates play no part |
| Routing.ResolveInvokedIsFirstHit | app/Core/Router.php:28-39 | an invoked handler always belongs to the first route that hits, and every earlier route misses |
| Routing.ResolveNotFound | app/Core/Router.php:28-44 | the outcome is 404 `404 Not Found` exactly when no route hits; otherwise a handler is invoked |
| Routing.ResolveAppend | app/Core/Router.php:9-16 | appending a route never changes an answered request and can only answer one that was 404 |
| Routing.Router.constructor | app/Core/Router.php:7 | the table starts empty |
| Routing.Router.Add | app/Core/Router.php:9-16 | exactly one route is appended at the end; earlier routes keep their order |
| Routing.Router.Dispatch | app/Core/Router.php:18-45 | the loop's answer is the first-hit scan of the normalised path |
| Routing.AppRoutes | public/index.php:19-37 | the thirteen registered routes in order |
| Routing.RegisterRoutes | public/index.php:16-37 | the registered table is the thirteen routes in registration order |
| Sessions.Session.constructor | app/Controllers/AuthController.php:35-36 | the session object holding `$_SESSION['user_id']` and `$_SESSION['role']` starts with the given keys |
| Sessions.RoleGuard | app/Controllers/ClientController.php:14-16 | the request passes exactly when `user_id` is set and the role is the required one; otherwise it is sent to `/login` |
| Home.Index | app/Controllers/HomeController.php:11-30 | no user: `/login`; role collector, client or admin: that role's dashboard; any other role: `/login` |
| Home.IndexNeverLoops | app/Controllers/HomeController.php:11-30 | the landing redirect never returns to `/` |
| Home.IndexPassesGuard | app/Controllers/HomeController.php:18-23 | the landing page is a client or collector dashboard exactly when that controller's guard lets the session through |
| Home.CollectorRoute | public/index.php:32 | route 9 of the table is `GET /collector/dashboard` to `CollectorController@dashboard` |
| Home.CollectorHandler | app/Core/Router.php:30 | `CollectorController@dashboard` splits into its class and method |
| Home.CollectorRouteFirst | public/index.php:19-31 | no earlier route is a GET route for `/collector/dashboard` |
| Home.CollectorLandingDispatched | app/Controllers/HomeController.php:18-20 | a signed-in collector's landing page is dispatched to `CollectorController@dashboard` |
| Users.PasswordHash | app/Models/User.php:32 | the digest verifies the hashed password and no other |
| Users.FindByEmail | app/Models/User.php:10-15 | a found user has that email; none is found exactly when no row has it |
| Users.FindById | app/Models/User.php:17-22 | a found user has that id; none is found exactly when no row has it |
| Users.FindByEmailUnique | app/Models/User.php:10-15 | with unique emails, the lookup returns the one row with that email |
| Users.FindByIdUnique | app/Models/User.php:17-22 | with auto-increment ids, the lookup returns the row with that id |
| Users.NewRow | app/Models/User.php:26-34 | the row keeps role, email and phone, stores a digest that verifies the password, takes status `pending` unless one is given, and has no last login |
| Users.InsertKeepsIds | app/Models/User.php:24-36 | inserting at the next auto-increment value keeps ids well formed, and the new row is found by its id |
| Users.TouchLastLogin | app/Models/User.php:38-42 | only `last_login_at` changes, only for the given user, and it becomes the current time |
| Users.TouchKeepsTable | app/Models/User.php:38-42 | stamping a login keeps the ids well formed and the emails unique |
| Users.TouchKeepsEmails | app/Models/User.php:38-42 | every email lookup finds a row after the stamp exactly when it did before |
| Users.TouchFoundById | app/Models/User.php:38-42 | after the stamp, the user is found by id with only `last_login_at` changed |
| Users.UserTable.constructor | app/Models/User.php:8 | the table starts empty with next id 1 |
| Users.UserTable.Create | app/Models/User.php:24-36 | exactly one row is appended and its new id, at least 1, is returned |
| Users.UserTable.UpdateLastLogin | app/Models/User.php:38-42 | the rows become the stamped rows; the counter is unchanged |
| Auth.DecideLogin | app/Controllers/AuthController.php:27-33 | rejected exactly when no user has the email or the password fails; suspended only for a verified `suspended` user; accepted only for a verified user with any other status |
| Auth.LoginAcceptsExactly | app/Controllers/AuthController.php:27-42 | with unique emails: accepted exactly for the stored user with that email and password whose status is not `suspended`; rejected exactly when no user with that email has that password |
| Auth.RegistrationData | app/Controllers/AuthController.php:52-68 | the posted role verbatim (default `client`), the posted email, phone and password (default `''`), and status `active` |
| Auth.RegisterKeepsEmailsUnique | app/Controllers/AuthController.php:57-68 | inserting with an email not yet taken keeps emails unique |
| Auth.RegisterThenLogin | app/Controllers/AuthController.php:57-68 | a user registered with an untaken email then logs in with the same email and password and is accepted as that row |
| Auth.AuthController.constructor | app/Controllers/AuthController.php:12-15 | the controller works on the given table and session |
| Auth.AuthController.Login | app/Controllers/AuthController.php:22-43 | rejected or suspended: error view, session and rows unchanged; accepted: session set to the user's id and role, that user's last login stamped, redirect to `/` |
| Auth.AuthController.Register | app/Controllers/AuthController.php:50-77 | taken email: error view, nothing changes; otherwise one active user is appended, the session gets the new id and role, redirect to `/`, and that user can log in; emails stay unique |
| Auth.AuthController.Logout | app/Controllers/AuthController.php:79-83 | the session is emptied and the answer is a redirect to `/login` |
| CollectorProfiles.FindByUserId | app/Models/CollectorProfile.php:26-31 | a found profile has that collector id; none exactly when no row has it |
| CollectorProfiles.FindByUserIdUnique | app/Models/CollectorProfile.php:26-31 | with one profile per collector, the lookup returns that row |
| CollectorProfiles.Inserted | app/Models/CollectorProfile.php:35-36 | the inserted row has the given key, the encoded waste types and a NULL `rating_avg`, the assumed column default |
| CollectorProfiles.Upsert | app/Models/CollectorProfile.php:33-57 | the insert or the overwrite; its properties are the Upsert lemmas |
| CollectorProfiles.Overwritten | app/Models/CollectorProfile.php:37-44 | the update branch keeps the key and `rating_avg` |
| CollectorProfiles.UpsertInserts | app/Models/CollectorProfile.php:35-36 | without a profile for the id, one row built from the data is appended |
| CollectorProfiles.UpsertOverwrites | app/Models/CollectorProfile.php:37-44 | with a profile, exactly that row's seven columns are rewritten and the other rows are unchanged |
| CollectorProfiles.UpsertThenFind | app/Models/CollectorProfile.php:33-57 | after the upsert, the lookup returns the inserted or the overwritten row |
| CollectorProfiles.Bindings | app/Models/CollectorProfile.php:22 | the contract states four bound values; their order (lat, lng, lat, radius) is the body's, and what each placeholder does is proved by `NearbyMembers` |
| CollectorProfiles.DistanceOf | app/Models/CollectorProfile.php:14 | the distance column: the formula on the bound values and the row's coordinates, NULL when a coordinate is NULL |
| CollectorProfiles.Selected | app/Models/CollectorProfile.php:15-18 | the JOIN, `u.status = 'active'` and `HAVING distance < ?` |
| CollectorProfiles.RowOf | app/Models/CollectorProfile.php:13-14 | a result row carries the profile's `user_id` and its computed distance |
| CollectorProfiles.Filtered | app/Models/CollectorProfile.php:13-18 | a row is present exactly when it comes from a profile whose user is active and whose distance is below the radius; with unique `collector_id`s no collector appears twice |
| CollectorProfiles.GetNearby | app/Models/CollectorProfile.php:10-24 | the result is in ascending order of distance and is a permutation of the filtered rows |
| CollectorProfiles.NearbyMembers | app/Models/CollectorProfile.php:13-18 | rows come from active users; each distance is the formula applied to (lat, lng, lat, row coordinates) and is below the radius; every such profile is returned |
| CollectorProfiles.NearbyOrdered | app/Models/CollectorProfile.php:19 | rows come back nearest first |
| CollectorProfiles.NearbyOnceEach | app/Models/CollectorProfile.php:13-23 | with unique `collector_id`s, the sorted result lists each collector at most once |
| CollectorProfiles.NearbyRadiusMonotone | app/Models/CollectorProfile.php:18 | a larger radius never loses a row |
| CollectorProfiles.NearbyNonPositiveRadius | app/Models/CollectorProfile.php:18 | with non-negative distances, a radius of zero or less returns nothing |
| CollectorProfiles.NearbySkipsMissingCoordinates | app/Models/CollectorProfile.php:14-18 | a collector with a NULL latitude or longitude is never returned |
| CollectorProfiles.ProfileTable.constructor | app/Models/CollectorProfile.php:8 | the table starts empty |
| CollectorProfiles.ProfileTable.Update | app/Models/CollectorProfile.php:33-57 | the rows become the upsert of the old rows; one profile per collector is kept |
| ServiceRequests.NewRequest | app/Models/ServiceRequest.php:12-25 | status `pending` whatever the data; `address`, `pickup_time` and `waste_types` go to their own columns |
| ServiceRequests.Listed | app/Models/ServiceRequest.php:31-39 | the JOIN, `sr.collector_id = ?` and, with a truthy status, `sr.status = ?` |
| ServiceRequests.Joined | app/Models/ServiceRequest.php:31-32 | `sr.*` unchanged, plus the email of the client's user row |
| ServiceRequests.Matching | app/Models/ServiceRequest.php:31-39 | a row is present exactly when its request is the collector's, has the asked status when one is given, and has a client user; with distinct `request_id`s no request appears twice |
| ServiceRequests.FindByCollector | app/Models/ServiceRequest.php:29-45 | newest first, and a permutation of the matching rows |
| ServiceRequests.FindByCollectorMembers | app/Models/ServiceRequest.php:31-39 | rows are the collector's; with a truthy status only that status; each carries its client's email; rows without a client user are dropped |
| ServiceRequests.FindByCollectorAnyStatus | app/Models/ServiceRequest.php:36-39 | without a truthy status, every request of the collector with a client user is returned |
| ServiceRequests.FindByCollectorNewestFirst | app/Models/ServiceRequest.php:41 | `created_at` never increases along the result |
| ServiceRequests.FindByCollectorOnceEach | app/Models/ServiceRequest.php:29-45 | in a well-formed table, the sorted result lists each request at most once |
| ServiceRequests.DecimalValue | app/Models/ServiceRequest.php:49-50 | a string names a request id exactly when it is a non-empty digit string |
| ServiceRequests.Decimal | app/Models/ServiceRequest.php:49-50 | the decimal writing of an id is a non-empty digit string |
| ServiceRequests.DecimalRoundTrip | app/Models/ServiceRequest.php:49-50 | every id written in decimal names that id |
| ServiceRequests.SetStatus | app/Models/ServiceRequest.php:47-51 | only `status` changes, only in the row with that id, and it becomes the posted value |
| ServiceRequests.SetStatusUnknownId | app/Models/ServiceRequest.php:47-51 | an id that names no row changes nothing |
| ServiceRequests.SetStatusOneRow | app/Models/ServiceRequest.php:47-51 | with auto-increment ids exactly one row changes, and only its status |
| ServiceRequests.SetStatusByPostedId | app/Models/ServiceRequest.php:47-51 | posting a request's id in decimal sets that request's status, and no other row changes |
| ServiceRequests.RequestTable.constructor | app/Models/ServiceRequest.php:8 | the table starts empty with next id 1 |
| ServiceRequests.RequestTable.Create | app/Models/ServiceRequest.php:10-27 | exactly one pending row is appended and its new id is returned |
| ServiceRequests.RequestTable.UpdateStatus | app/Models/ServiceRequest.php:47-51 | the rows become the status update of the old rows |
| Client.Page | app/Controllers/ClientController.php:14-16 | a guard failure redirects to `/login`; a passing guard renders the view without data |
| Client.Dashboard | app/Controllers/ClientController.php:20-23 | redirects to `/login` when the guard fails, and otherwise renders `client/dashboard` |
| Client.Discovery | app/Controllers/ClientController.php:25-28 | redirects to `/login` when the guard fails, and otherwise renders `client/discovery` |
| Client.GetNearbyCollectors | app/Controllers/ClientController.php:30-38 | the guard redirects to `/login`; otherwise the JSON body is exactly the model's list for lat and lng (default 0) and radius (default 10, always passed); it is nearest first and every row is within that radius |
| Client.NearbyPassesThrough | app/Controllers/ClientController.php:32-37 | the body is the model's list in the model's order, with the parameters given, with none (0, 0, 10), and with lat and lng but no radius (radius 10); the model's 5 km default never applies |
| Client.NearbyFromDiscovery | app/Controllers/ClientController.php:32-37 | the discovery page's call (lat and lng, no radius) returns exactly the active collectors strictly within 10 km of that point |
| Client.NearbyWithoutParameters | app/Controllers/ClientController.php:32-36 | with no parameters the body holds exactly the active collectors within 10 km of (0, 0) |
| Collector.StatusFormComplete | app/Controllers/CollectorController.php:39 | `$requestId && $status`: both posted and both truthy |
| Collector.FormData | app/Controllers/CollectorController.php:47-55 | every posted field is passed on; `waste_types` defaults to the empty list |
| Collector.DashboardListsAll | app/Controllers/CollectorController.php:25 | the dashboard lists every request of the collector with a client user, whatever its status |
| Collector.UpdatedProfileShown | app/Controllers/CollectorController.php:45-58 | after the update, the collector's profile holds the posted seven columns |
| Collector.CollectorController.constructor | app/Controllers/CollectorController.php:14-21 | the controller works on the given session and tables |
| Collector.CollectorController.Dashboard | app/Controllers/CollectorController.php:23-32 | guard failure: redirect to `/login`; otherwise the session user's requests, unfiltered and newest first, and the user's profile |
| Collector.CollectorController.UpdateStatus | app/Controllers/CollectorController.php:34-43 | guard failure: nothing changes. Otherwise the posted status is written verbatim to the posted id when both are truthy, nothing changes when either is missing or falsy, and the answer is a redirect to `/collector/dashboard` |
| Collector.CollectorController.UpdateProfile | app/Controllers/CollectorController.php:45-59 | guard failure: nothing changes; otherwise the session user's profile is upserted with the form data and the answer is a redirect to `/collector/dashboard` |

## Left out

- Views, `render`, `json` and `redirect`: these are output and `exit`. An action's answer is a `Response` value. A redirect target leaves out the APP_URL prefix that `redirect` puts in front of it.
- `showLogin` and `showRegister`: each renders a view without data, with no decision to model.
- `session_start`, `session_destroy`, Dotenv and the PDO connection: the session and the tables are objects given to the controllers.
- Routing.RequestPath: `parse_url` is modelled only as the cut at the first '?' or '#'. Network-path (`//host`) and absolute-URI request targets are not modelled.
- Routing.Router.Dispatch: `class_exists` and `method_exists` are case-insensitive in PHP; in the model they are exact membership tests. The model also does not capture that `new $controllerClass()` runs a guarded constructor, which may redirect, before `method_exists` is consulted.
- Users.FindByEmail: compares emails exactly. MySQL's default collation compares them case-insensitively.
- Users.PasswordHash: `password_hash` is an ideal digest that verifies exactly its own password. Real bcrypt is not modelled. Its "no other password verifies" is stronger than PHP's default bcrypt promises: bcrypt ignores bytes after the 72nd, so a longer password also verifies any password that shares its first 72 bytes. The digest also keeps the password itself inside the row, so the model cannot say that hashing is one-way: nothing in it stops the password being recovered from the stored hash.
- Auth.AuthController.Register: the "Registration failed." branch is in the model. It cannot be reached, because an insert always yields an id of at least 1. A failing database is not modelled.
- Auth.AuthController.Register: the race between the email check and the insert is not modelled. Each request runs alone.
- ServiceRequests.DecimalValue: only a string of digits matches a request id. MySQL's conversion of other strings, such as a leading-number prefix (`12abc`) or leading spaces, is not modelled, so such strings match nothing.
- Collector.FormData: latitude, longitude and service radius arrive as numbers already, with None for a field that was not posted. The form posts them as text. MySQL turns a blank `""` into 0, or rejects the insert in strict mode. The DECIMAL columns round the stored value. None of this is modelled.
- CollectorProfiles.Inserted: a new profile's `rating_avg` is NULL. The INSERT does not name that column, so it takes the column's default, and the schema is not part of this model. NULL is an assumed default.
- Collector.UpdatedProfileShown: the values read back equal the posted ones only because no DECIMAL rounding is modelled.
- CollectorProfiles.Selected: `u.status = 'active'` is an exact comparison here; under the database's utf8mb4_unicode_ci collation MySQL compares it case-insensitively (and ignores trailing spaces).
- ServiceRequests.Listed: `sr.status = ?` is an exact comparison here; the database's collation makes it case-insensitive.
- Client.GetNearbyCollectors: each query parameter arrives as the number MySQL makes of it. MySQL's string-to-number conversion itself is left out.
- CollectorProfiles.GetNearby: the distance expression (`acos`, `cos`, `sin`, `radians`, earth radius 6371) is an abstract function that returns NULL or a real. Floating point is not modelled.
- CollectorProfiles.GetNearby: rows with equal distance keep table order. SQL leaves the order of ties unspecified.
- ServiceRequests.FindByCollector: rows with equal `created_at` keep table order. SQL leaves the order of ties unspecified.
- `json_encode` is an abstract, lossless `Json` value.
- `NOW()` and the column default of `created_at` are a time parameter.
- The boolean that `execute` returns is not modelled. Ids are numbers, not the strings `lastInsertId` returns.
- AdminController, NotificationService, FileUploadService, the bin/ scripts and the rest of public/index.php are not part of this model. Only the route table is taken from public/index.php.
