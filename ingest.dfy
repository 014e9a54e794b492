/** The two workflows that tie the parts together: a position report that updates the
    ledger and then fans the update out, and the opening of a live-location channel. */
module Ingest {
  import opened Wrappers
  import opened Accounts
  import opened Ledger
  import opened Registry
  import opened Admission
  import Geo

  /** The `location_update` event. */
  datatype LocationMessage = LocationMessage(touristId: int, name: string, latitude: real, longitude: real, status: Status, insideFence: bool)

  /** `update_location` end to end: the ledger step, then, only on success, the event built
      from the reply is sent to the admins and to the tourist's own connections. */
  method UpdateLocationEndpoint(
    ledger: TouristLedger, manager: ConnectionManager, dist: Geo.Distance,
    touristId: int, lat: real, lon: real, caller: User, broken: set<Socket>)
    returns (r: Result<LocationReply, ApiError>, message: Option<LocationMessage>,
             toAdmins: seq<AuthenticatedConnection>, toTourist: seq<AuthenticatedConnection>)
    requires manager.Valid()
    modifies ledger, manager
    ensures manager.Valid()
    ensures Step(r, ledger.State()) == Report(old(ledger.State()), dist, touristId, lat, lon, caller)
    ensures r.Failure? ==>
      message.None? && toAdmins == [] && toTourist == [] && manager.activeConnections == old(manager.activeConnections)
    ensures r.Success? ==>
      && touristId in old(ledger.tourists)
      && message == Some(LocationMessage(touristId, old(ledger.tourists[touristId].name), lat, lon, r.value.status, r.value.insideFence))
      && toAdmins == Targets(old(manager.activeConnections), Admins)
      && toTourist == Targets(Without(old(manager.activeConnections), FailedSends(toAdmins, broken)), OwnTourist(touristId))
      && manager.activeConnections ==
           Without(Without(old(manager.activeConnections), FailedSends(toAdmins, broken)), FailedSends(toTourist, broken))
  {
    ghost var before := ledger.State();
    var name := if touristId in ledger.tourists then ledger.tourists[touristId].name else "";
    r := ledger.UpdateLocation(dist, touristId, lat, lon, caller);
    if r.Failure? {
      return r, None, [], [];
    }
    assert touristId in before.tourists;
    var m := LocationMessage(touristId, name, lat, lon, r.value.status, r.value.insideFence);
    toAdmins, toTourist := manager.BroadcastLocationUpdate(m.touristId, broken);
    message := Some(m);
  }

  /** The live-location channel: origin check, authentication gate, then registration. */
  method OpenChannel(
    manager: ConnectionManager, websocket: Socket,
    origin: Option<string>, host: Option<string>, user: Option<User>, ownTourist: Option<int>)
    returns (d: Decision, c: Option<AuthenticatedConnection>, close: Option<int>)
    requires manager.Valid()
    modifies manager
    ensures manager.Valid()
    ensures d == Admit(origin, host, user, ownTourist)
    ensures !d.Accept? ==> c.None? && close == Some(PolicyViolation) && manager.activeConnections == old(manager.activeConnections)
    ensures d.Accept? ==> close.None?
    ensures d.Accept? ==>
      && c.Some? && fresh(c.value)
      && c.value.websocket == websocket && c.value.user == d.user && c.value.touristId == d.touristId
      && manager.activeConnections == old(manager.activeConnections) + [c.value]
  {
    d := Admit(origin, host, user, ownTourist);
    if !d.Accept? {
      return d, None, Some(d.CloseCode());
    }
    var conn := manager.Connect(websocket, d.user, d.touristId);
    c, close := Some(conn), None;
  }
}
