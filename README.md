# Tourist safety net: live-location core in Dafny

This project models the live-location core of a tourist safety monitoring service. Tourists
report GPS positions. Each position is judged against the safe zone (geofence) of the
tourist's assigned point of interest. The tourist's status becomes Safe or Critical, and an
incident is logged each time the tourist enters Critical. Updates are then fanned out over
live connections to the admins and to the tourist who reported.

The model has these parts, one module each:

- `Geo` (`geo.dfy`): the fixed table of seven points of interest, the lookup by id that
  falls back to the first entry, and the geofence test (distance ≤ radius). The haversine
  distance is a parameter `dist`. The predicate `Geo.IsDistance` states the two facts the
  proofs use: the distance is never negative, and it is zero between a point and itself.
- `Coordinates` (`coordinates.dfy`): the latitude-then-longitude range check.
- `Ledger` (`ledger.dfy`): tourist records and the incident log. A class `TouristLedger`
  updates them in place. The pure functions `Report` and `Reassign` specify the two
  ingest operations.
- `LedgerProperties` (`ledger_properties.dfy`): properties that span several reports.
- `Registry` (`registry.dfy`): the `ConnectionManager` class, which holds the ordered list
  of authenticated connections. It covers connect, disconnect and the role-filtered
  fan-outs. A fan-out sends over a snapshot and removes the failed connections afterwards.
  Whether a send fails is an oracle: the set `broken` of broken sockets.
- `RegistryProperties` (`registry_properties.dfy`): disconnect, failure isolation and the
  privacy of location updates.
- `Admission` (`admission.dfy`): the origin allow-list and the authentication gate of the
  live-location channel.
- `Guide` (`guide.dfy`): the guide-position upsert and the guide dashboard's trip filter.
- `Ingest` (`ingest.dfy`): the end-to-end position report (ledger, then fan-out) and the
  opening of a channel.
- `Wrappers`, `Accounts`: `Option`/`Result`/`Outcome`, and the caller (`User`: id and role string).

The older single-file layout (`app.py`) and the split layout (`services.py`, `config.py`,
`schemas.py`, `routers/`, `websocket_manager.py`) duplicate part of the logic: the place
table and its lookup, the geofence test, the coordinate check, the allowed origins, the
tourist position report and the registry's connect, disconnect, admin,
tourist, location and general fan-outs. For those parts one member models both copies, and
the table cites one of them. Only `app.py` has `broadcast_to_admins_and_guides`, the
reassignment endpoint and the channel admission. The two guide dashboards are different
operations: the modelled one is the active-trip listing in `routers/guide.py`. The two copies of the guide-position
update differ: the modelled upsert is the one in `routers/guide.py` (see "Left out").

Repository lookups (the tourist row, the user behind a trip, the tourist profile of a
connecting user, the account behind a cookie token) become parameters or map lookups.
The clock becomes a `now: int` parameter. The haversine distance becomes `dist`.
Sending on a socket becomes the `broken` oracle.

## Model

| member | source | states |
|---|---|---|
| Coordinates.ValidateCoordinates | schemas.py:31-35 | passes iff latitude is in [-90, 90] and longitude is in [-180, 180]; the latitude error is reported whenever latitude is out of range, and the longitude error only when latitude is in range |
| Coordinates.BoundariesAccepted | app.py:141-145 | the boundary values ±90 and ±180 are accepted |
| Coordinates.LatitudeReportedFirst | schemas.py:32-35 | when both are out of range the latitude error is the one raised |
| Geo.FirstIndexWithId | services.py:37-39 | the index found holds the id, and no earlier entry does; |places| means there is no match |
| Geo.TouristPlaceById | app.py:299-301 | the result is always a listed place; it has the requested id when one is listed, and is the first entry otherwise |
| Geo.PlaceIdsAreOneToSeven | config.py:4-12 | seven places with ids 1..7 in order, pairwise distinct |
| Geo.LookupOfListedId | config.py:4-12 | looking up each listed id returns that very entry |
| Geo.PlaceIdRange | app.py:631-632 | an id is a place id exactly when it is between 1 and 7 |
| Geo.RadiiBounds | config.py:4-12 | every radius is between 300 and 500 metres |
| Geo.DefaultGeofenceIsFirstPlace | config.py:15-16 | the legacy geofence centre and radius are place 1's, and the default location id 1 looks up place 1 |
| Geo.IsPlaceId | app.py:631 | an id passes the membership test exactly when the lookup finds a table entry with it |
| Geo.IsInsideGeofence | services.py:26-35 | for ids 1..7, inside iff within entry id-1's radius of its centre; for any other id, inside iff within the legacy 500 m geofence around (27.1751, 78.0421) |
| Geo.PlaceOfId | services.py:37-39 | id k+1 looks up table entry k, and every other id falls back to entry 0 |
| Geo.GeofenceBoundary | services.py:26-35 | for every listed place, inside its fence iff within its radius of its centre, and a point exactly on the circle is inside |
| Geo.UnknownIdUsesFirstPlace | app.py:288-297 | an unknown location id is judged against place 1's fence |
| Geo.CentreIsInside | app.py:654-663 | a place's own centre is inside its fence (distance zero) |
| Ledger.StatusFor | app.py:594 | the new status is Safe iff inside the fence |
| Ledger.EntersCritical | app.py:597-598 | the incident edge is exactly Safe to Critical, so it always changes the status |
| Ledger.Authorize | app.py:569-582 | passes iff the role is "tourist" and the caller owns the record; every refusal is 403, and a non-tourist role is refused as such before ownership is looked at |
| Ledger.UpdateCheck | app.py:558-582 | the report checks in order: 400 iff coordinates are invalid; 404 iff they are valid and the tourist is missing; 403 iff both pass and the caller is not the owning tourist; pass iff all four pass |
| Ledger.Report | routers/tourist.py:98-143 | any error leaves tourists and incidents unchanged; on success the stored position is the reported one, status is Safe iff inside the tourist's own fence, the reply matches, and exactly one Critical incident for this tourist is appended iff the old status was not Critical and the point is outside |
| Ledger.ReassignCheck | app.py:631-651 | the reassignment checks in order: unknown place id 400 (before the lookup), missing tourist 404, non-tourist or non-owner 403 |
| Ledger.Reassign | app.py:623-672 | errors change nothing; on success location_id is set, the position is set to the new place's centre, the status comes from that place's fence, the reply carries the place name; the incident log never changes |
| Ledger.TouristLedger.UpdateLocation | app.py:551-603 | the in-place update leaves the reply and the new table/log exactly as `Report` specifies |
| Ledger.TouristLedger.ChangeTouristLocation | app.py:629-663 | the in-place reassignment leaves the reply and the new state exactly as `Reassign` specifies |
| LedgerProperties.ReportIsIdempotent | app.py:596-602 | repeating a report gives the same reply and changes nothing more, so a second Critical report logs no incident |
| LedgerProperties.StayingOutsideLogsOnce | routers/tourist.py:136-142 | any run of outside-fence reports by the owner logs exactly one incident if the tourist was not Critical (none if it was), and leaves it Critical |
| LedgerProperties.RecoveryIsSilent | app.py:597-602 | a Critical tourist reporting from inside becomes Safe with no incident |
| LedgerProperties.ForeignCallerChangesNothing | routers/tourist.py:109-122 | a non-tourist or non-owner caller gets 403 and the state is unchanged |
| LedgerProperties.ReassignmentIsSafe | app.py:654-663 | a successful reassignment always ends Safe and inside, with no incident |
| LedgerProperties.TajMahalScenario | app.py:588-602 | the worked example at place 1: Safe at the centre, Critical with one incident about 2.8 km away, Safe again about 40 m away with still one incident |
| Registry.Targets | websocket_manager.py:41-42 | a connection is a target iff it is in the snapshot and the audience reaches it |
| Registry.FailedSends | websocket_manager.py:43-46 | exactly the attempted connections on broken sockets |
| Registry.Without | websocket_manager.py:48-51 | exactly the connections not in the removal list remain, and no duplicates appear |
| Registry.WithoutSocket | websocket_manager.py:26-31 | exactly the connections on other sockets remain |
| Registry.Reaches | app.py:197-230 | the admin audience is exactly role "admin"; admins and guides is exactly "admin" or "tourist_guide"; a tourist audience is exactly the connections whose profile has that id; the general broadcast reaches everyone |
| Registry.RemoveFirst | websocket_manager.py:50-51 | `list.remove` drops one occurrence: an absent connection leaves the list unchanged, a present one shortens it by one, and the multiset loses exactly one copy |
| Registry.RemoveFirstIsWithout | websocket_manager.py:50-51 | on a list without duplicates, `list.remove` of one connection is the same as filtering it out |
| Registry.SendRound | websocket_manager.py:41-46 | delivery is attempted on exactly the audience's connections of the snapshot, in list order, and a failure does not stop later sends; the failed ones are collected |
| Registry.ConnectionManager.Connect | websocket_manager.py:19-24 | appends exactly one fresh connection at the end, existing ones unchanged, no deduplication |
| Registry.ConnectionManager.Disconnect | websocket_manager.py:26-31 | removes every connection on the socket, keeps the others in order |
| Registry.ConnectionManager.RemoveConnections | websocket_manager.py:94-97 | removes exactly the listed connections that are still present |
| Registry.ConnectionManager.FanOut | app.py:255-268 | attempts the audience's targets of the snapshot; afterwards exactly the failed targets are gone |
| Registry.ConnectionManager.BroadcastToAdmins | websocket_manager.py:37-51 | sends to exactly the admin connections; failed ones are removed afterwards |
| Registry.ConnectionManager.BroadcastToAdminsAndGuides | app.py:208-222 | sends to exactly the admin and tourist_guide connections; failed ones are removed afterwards |
| Registry.ConnectionManager.SendToTourist | websocket_manager.py:53-68 | sends only to connections whose tourist profile has that id |
| Registry.ConnectionManager.Broadcast | websocket_manager.py:84-97 | attempts every connection of the snapshot and removes exactly the failed ones |
| Registry.ConnectionManager.BroadcastLocationUpdate | websocket_manager.py:70-82 | the admins first, then the tourist's own connections among those left; the final list drops both rounds' failures |
| RegistryProperties.DisconnectIsIdempotent | websocket_manager.py:26-31 | disconnecting twice is the same as once |
| RegistryProperties.DisconnectUnknownSocketIsNoOp | app.py:181-186 | disconnecting an unknown socket changes nothing |
| RegistryProperties.FanOutDropsExactlyTheFailed | app.py:192-206 | after a fan-out a connection remains iff it was not both targeted and broken |
| RegistryProperties.NoFailureKeepsEverything | app.py:224-239 | with no broken socket a fan-out removes nothing |
| RegistryProperties.LocationUpdatePrivacy | app.py:241-253 | a location update about a tourist reaches only admins and that tourist's own connections |
| RegistryProperties.SecondOfThreeAdminsFails | websocket_manager.py:41-51 | of three admins where the second one's send fails, all three are attempted and only the second is removed |
| Admission.AllowedOrigins | config.py:19-26 | four origins: the host over http and https, then localhost:5000 over http and https |
| Admission.HostText | app.py:900-901 | a present host header is used verbatim, and a missing one renders as the text "None" |
| Admission.OriginRefused | app.py:899-906 | a missing or empty origin passes; a present one is refused iff it is none of the two host origins and the two localhost:5000 origins |
| Admission.MissingHostAdmitsNoneOrigin | app.py:900-906 | without a host header, the literal origin "http://None" passes and another origin is refused |
| Admission.Admit | app.py:898-936 | refused for the origin iff an origin is present, non-empty and not allowed; refused for authentication iff the origin passes and no user resolves; otherwise the user is accepted, and only a tourist carries the tourist profile found for it |
| Admission.ServingHostPasses | app.py:899-906 | the serving host and the local address always pass the origin check |
| Admission.NonTouristHasNoProfile | app.py:929-936 | a non-tourist account is registered without a tourist profile |
| Ingest.UpdateLocationEndpoint | routers/tourist.py:91-157 | the ledger changes as `Report` says; on error nothing is sent; on success the event's status and inside_fence equal the reply, it names this tourist, and it goes to admins then to this tourist's connections |
| Ingest.OpenChannel | app.py:893-936 | the decision is `Admit`'s; a refused channel is closed with code 1008 and nothing is registered; only an accepted channel is appended to the registry, with the accepted user and tourist profile |
| Guide.GuideRowIndex | routers/guide.py:84-87 | the row found belongs to the caller, and there is none iff no row has the caller's id |
| Guide.Upsert | routers/guide.py:89-101 | an existing row of the guide is overwritten in place (lat, lon, updated_at) with no row added; otherwise exactly one row is added; other guides' rows are untouched; at most one row per guide is kept |
| Guide.SameIdsSameIndex | routers/guide.py:84-87 | the lookup depends only on the guide ids of the rows |
| Guide.GuideLocationTable.UpdateGuideLocation | routers/guide.py:72-126 | invalid coordinates give 400 with nothing read or written; otherwise the table becomes `Upsert` of the old one, and the reply and the broadcast event carry the new position |
| Guide.AssignedTo | routers/guide.py:31 | a trip matches iff it is active and its guide is the caller; an unassigned or inactive trip never matches |
| Guide.EntryFor | routers/guide.py:42-60 | an entry carries the trip's fields and the traveller's account fields, and its destination name is always a listed place's name (entry id-1 for ids 1..7) |
| Guide.ActiveTripsOf | routers/guide.py:30-33 | exactly the active trips whose guide is the caller |
| Guide.Entries | routers/guide.py:35-62 | at most one entry per selected trip, and exactly one each when every user exists |
| Guide.EntriesComplete | routers/guide.py:36-41 | every selected trip whose user exists yields its entry |
| Guide.GuideDashboard | routers/guide.py:23-68 | the listing is `Entries` of the caller's active trips, with the guide's name and email, and total_assigned equals the number listed |
| Guide.EntryOrigin | routers/guide.py:36-41 | every entry comes from a selected trip whose user exists |
| Guide.DashboardListsOnlyOwnActiveTrips | routers/guide.py:30-41 | every listed entry is an active trip assigned to the caller whose user exists |
| Guide.DashboardListsEveryOwnActiveTrip | routers/guide.py:30-41 | conversely, every active trip assigned to the caller whose user exists is listed |

## Left out

- The haversine arithmetic (app.py:272-286, services.py:10-24) is floating-point trigonometry. It is replaced by the `dist` parameter and the `Geo.IsDistance` facts. Floats are modelled as `real`, so there is no NaN, infinity or rounding.
- Tourist status is `Safe | Critical`. The source stores a string and compares it with "Critical". Only those two values are ever written. Any other stored string would count as "not Critical", which is how `Safe` behaves here.
- Roles stay strings, because the source compares strings. Every string other than the ones checked is refused, which is the default-deny rule.
- JWT verification, the bearer-or-cookie fallback and password hashing are out of scope. The caller arrives as an already resolved `User` (or `None` on the channel).
- Database mechanics are out of scope: sessions, commits, ORM rows and the query order of `select(Trip)`, which stands in a `seq` in table order. The `TouristGuide` and `Tourist` tables are not part of this model, so their record shapes are inferred from how they are used.
- `Guide.Upsert` keeps at most one row per guide, because the upsert is the only way rows are added here. A table that already held two rows for one guide would make the source's `scalar_one_or_none` raise. That case is not modelled.
- Async interleaving is not modelled. A fan-out's snapshot is the list as it stands when the call starts, and nothing else runs during the sends.
- Message contents are not modelled. Every target of one fan-out gets the same JSON text. A fan-out returns the connections it attempted, and the caller returns the event it built. `send_personal_message` (websocket_manager.py:33-35) is a bare send with no registry logic.
- The guide broadcast `broadcast_guide_location_update` (routers/guide.py:118) and `require_guide` do not exist in the source. `UpdateGuideLocation` returns the event it would hand over, and the caller is taken to be a guide. The guide's coordinate check is the same range check as the tourist's.
- `GuideLocationTable.UpdateGuideLocation` reads the clock once (`now`). The source reads it again for the event's timestamp.
- Entries of the guide dashboard leave out `created_at`, which is a timestamp formatted as text.
- The app.py variant of `update_guide_location` (app.py:684-719) is left out. It updates a `TouristGuide` row, which is not part of this model, and then calls `broadcast_to_admins_and_guides`, which is modelled.
- The close code 1011 for unexpected errors on the channel is left out, and so are the keepalive receive loop (app.py:938-944) and the socket accept. Disconnect is `ConnectionManager.Disconnect`.
- Error detail texts are not modelled; errors are the `ApiError` and `CoordinateError` values and their status codes. The texts differ between the two copies of the endpoints.
- The `app.py` guide dashboard (app.py:743-805) lists every tourist and every guide with no filter. It reads the `TouristGuide` table, which is not part of this model.
- Registration, login, HTML pages, the admin listing, the seed scripts and blockchain id generation are left out as plumbing.
