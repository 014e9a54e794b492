/** The location ledger: tourist records with their last position and Safe/Critical status,
    and the incident log that grows by one entry on every entry into Critical. */
module Ledger {
  import opened Wrappers
  import opened Accounts
  import opened Coordinates
  import Geo

  datatype Status = Safe | Critical

  /** A tourist profile as the ingest operations see it. */
  datatype Tourist = Tourist(userId: int, name: string, locationId: int, lastLat: real, lastLon: real, status: Status)

  /** An incident row; only geofence exits are created here, always with severity "Critical". */
  datatype Incident = Incident(touristId: int, severity: string)

  const CriticalSeverity: string := "Critical"

  /** The errors of the two ingest operations, in the order they are checked. */
  datatype ApiError = InvalidCoordinates(reason: CoordinateError) | InvalidLocationId | TouristNotFound | NotATourist | NotOwner
  {
    function StatusCode(): int {
      match this
      case InvalidCoordinates(_) => 400
      case InvalidLocationId => 400
      case TouristNotFound => 404
      case NotATourist => 403
      case NotOwner => 403
    }
  }

  /** The reply of a position report: `{status, inside_fence}`. */
  datatype LocationReply = LocationReply(status: Status, insideFence: bool)

  /** The reply of a reassignment: the new place's name, the new status and fence membership. */
  datatype ReassignReply = ReassignReply(newLocation: string, status: Status, insideFence: bool)

  /** Everything the two operations read and write: the tourist table, keyed by tourist id, and the incident log. */
  datatype LedgerState = LedgerState(tourists: map<int, Tourist>, incidents: seq<Incident>)

  /** The reply of one operation together with the state it leaves behind. */
  datatype Step<R> = Step(result: Result<R, ApiError>, state: LedgerState)

  function StatusFor(inside: bool): (s: Status)
    ensures s == Safe <==> inside
  {
    if inside then Safe else Critical
  }

  /** The edge that logs an incident: from anything but Critical into Critical. */
  predicate EntersCritical(before: Status, after: Status): (edge: bool)
    ensures edge <==> before == Safe && after == Critical
    ensures edge ==> before != after
  {
    before != Critical && after == Critical
  }

  /** Default-deny: only the role "tourist", and only on the caller's own profile. */
  function Authorize(t: Tourist, caller: User): (r: Outcome<ApiError>)
    ensures r == Pass <==> caller.role == TouristRole && t.userId == caller.id
    ensures r.Fail? ==> r.error.StatusCode() == 403
    ensures r.Fail? && caller.role != TouristRole ==> r.error == NotATourist
  {
    if caller.role != TouristRole then Fail(NotATourist)
    else if t.userId != caller.id then Fail(NotOwner)
    else Pass
  }

  /** The checks of a position report, in order: coordinates (400), lookup (404), role and ownership (403). */
  function UpdateCheck(tourists: map<int, Tourist>, touristId: int, lat: real, lon: real, caller: User): (r: Outcome<ApiError>)
    ensures r == Pass <==>
      && ValidateCoordinates(lat, lon) == Pass
      && touristId in tourists
      && caller.role == TouristRole
      && tourists[touristId].userId == caller.id
    ensures r.Fail? && r.error.StatusCode() == 400 <==> ValidateCoordinates(lat, lon).Fail?
    ensures ValidateCoordinates(lat, lon).Fail? ==> r == Fail(InvalidCoordinates(ValidateCoordinates(lat, lon).error))
    ensures r.Fail? && r.error.StatusCode() == 404 <==> ValidateCoordinates(lat, lon) == Pass && touristId !in tourists
    ensures r.Fail? && r.error.StatusCode() == 403 <==>
      ValidateCoordinates(lat, lon) == Pass && touristId in tourists && Authorize(tourists[touristId], caller).Fail?
  {
    match ValidateCoordinates(lat, lon)
    case Fail(e) => Fail(InvalidCoordinates(e))
    case Pass =>
      if touristId !in tourists then Fail(TouristNotFound)
      else Authorize(tourists[touristId], caller)
  }

  /** A position report (`update_location`): on any error nothing changes; otherwise the
      stored position becomes the reported one, the status becomes Safe exactly when the
      point is inside the tourist's own fence, and one incident is logged exactly on entry
      into Critical. */
  function Report(s: LedgerState, dist: Geo.Distance, touristId: int, lat: real, lon: real, caller: User): (out: Step<LocationReply>)
    ensures out.result.Failure? <==> UpdateCheck(s.tourists, touristId, lat, lon, caller).Fail?
    ensures out.result.Failure? ==> out.state == s && out.result.error == UpdateCheck(s.tourists, touristId, lat, lon, caller).error
    ensures out.result.Success? ==>
      && touristId in s.tourists
      && var before := s.tourists[touristId];
         var inside := Geo.IsInsideGeofence(dist, lat, lon, before.locationId);
         var after := before.(lastLat := lat, lastLon := lon, status := out.result.value.status);
         && out.result.value.insideFence == inside
         && (out.result.value.status == Safe <==> inside)
         && out.state.tourists == s.tourists[touristId := after]
         && out.state.incidents == s.incidents + (if before.status != Critical && !inside then [Incident(touristId, CriticalSeverity)] else [])
  {
    match UpdateCheck(s.tourists, touristId, lat, lon, caller)
    case Fail(e) => Step(Failure(e), s)
    case Pass =>
      var before := s.tourists[touristId];
      var inside := Geo.IsInsideGeofence(dist, lat, lon, before.locationId);
      var newStatus := StatusFor(inside);
      var log := if EntersCritical(before.status, newStatus) then s.incidents + [Incident(touristId, CriticalSeverity)] else s.incidents;
      var after := before.(lastLat := lat, lastLon := lon, status := newStatus);
      Step(Success(LocationReply(newStatus, inside)), LedgerState(s.tourists[touristId := after], log))
  }

  /** The checks of a reassignment, in order: known place id (400), lookup (404), role and ownership (403). */
  function ReassignCheck(tourists: map<int, Tourist>, touristId: int, locationId: int, caller: User): (r: Outcome<ApiError>)
    ensures r == Pass <==>
      && Geo.IsPlaceId(locationId)
      && touristId in tourists
      && caller.role == TouristRole
      && tourists[touristId].userId == caller.id
    ensures !Geo.IsPlaceId(locationId) ==> r == Fail(InvalidLocationId)
    ensures r.Fail? && r.error.StatusCode() == 404 <==> Geo.IsPlaceId(locationId) && touristId !in tourists
    ensures r.Fail? && r.error.StatusCode() == 403 <==>
      Geo.IsPlaceId(locationId) && touristId in tourists && Authorize(tourists[touristId], caller).Fail?
  {
    if !Geo.IsPlaceId(locationId) then Fail(InvalidLocationId)
    else if touristId !in tourists then Fail(TouristNotFound)
    else Authorize(tourists[touristId], caller)
  }

  /** A reassignment (`change_tourist_location`): the tourist is moved to the centre of the
      new place, its status is recomputed from that place's fence, and no incident is logged. */
  function Reassign(s: LedgerState, dist: Geo.Distance, touristId: int, locationId: int, caller: User): (out: Step<ReassignReply>)
    ensures out.result.Failure? <==> ReassignCheck(s.tourists, touristId, locationId, caller).Fail?
    ensures out.result.Failure? ==> out.state == s && out.result.error == ReassignCheck(s.tourists, touristId, locationId, caller).error
    ensures out.state.incidents == s.incidents
    ensures out.result.Success? ==>
      && touristId in s.tourists
      && var place := Geo.TouristPlaceById(locationId);
         var inside := Geo.IsInsideGeofence(dist, place.lat, place.lon, locationId);
         && place.id == locationId
         && out.result.value == ReassignReply(place.name, StatusFor(inside), inside)
         && out.state.tourists == s.tourists[touristId := s.tourists[touristId].(locationId := locationId, lastLat := place.lat, lastLon := place.lon, status := StatusFor(inside))]
  {
    match ReassignCheck(s.tourists, touristId, locationId, caller)
    case Fail(e) => Step(Failure(e), s)
    case Pass =>
      var place := Geo.TouristPlaceById(locationId);
      var moved := s.tourists[touristId].(locationId := locationId, lastLat := place.lat, lastLon := place.lon);
      var inside := Geo.IsInsideGeofence(dist, place.lat, place.lon, locationId);
      var after := moved.(status := StatusFor(inside));
      Step(Success(ReassignReply(place.name, after.status, inside)), LedgerState(s.tourists[touristId := after], s.incidents))
  }

  /** The tourist table and incident log, updated in place. */
  class TouristLedger {
    var tourists: map<int, Tourist>
    var incidents: seq<Incident>

    function State(): LedgerState
      reads this
    {
      LedgerState(tourists, incidents)
    }

    constructor (initial: map<int, Tourist>)
      ensures State() == LedgerState(initial, [])
    {
      tourists := initial;
      incidents := [];
    }

    /** `update_location`: every check before any write, then position, incident and status. */
    method UpdateLocation(dist: Geo.Distance, touristId: int, lat: real, lon: real, caller: User) returns (r: Result<LocationReply, ApiError>)
      modifies this
      ensures Step(r, State()) == Report(old(State()), dist, touristId, lat, lon, caller)
    {
      var valid := ValidateCoordinates(lat, lon);
      if valid.Fail? {
        return Failure(InvalidCoordinates(valid.error));
      }
      if touristId !in tourists {
        return Failure(TouristNotFound);
      }
      var tourist := tourists[touristId];
      if caller.role != TouristRole {
        return Failure(NotATourist);
      }
      if tourist.userId != caller.id {
        return Failure(NotOwner);
      }
      tourist := tourist.(lastLat := lat, lastLon := lon);
      var inside := Geo.IsInsideGeofence(dist, lat, lon, tourist.locationId);
      var newStatus := if inside then Safe else Critical;
      if tourist.status != Critical && newStatus == Critical {
        incidents := incidents + [Incident(touristId, CriticalSeverity)];
      }
      tourist := tourist.(status := newStatus);
      tourists := tourists[touristId := tourist];
      r := Success(LocationReply(newStatus, inside));
    }

    /** `change_tourist_location`: validate the place id first, then look up and authorize, then teleport. */
    method ChangeTouristLocation(dist: Geo.Distance, touristId: int, locationId: int, caller: User) returns (r: Result<ReassignReply, ApiError>)
      modifies this
      ensures Step(r, State()) == Reassign(old(State()), dist, touristId, locationId, caller)
    {
      if !Geo.IsPlaceId(locationId) {
        return Failure(InvalidLocationId);
      }
      if touristId !in tourists {
        return Failure(TouristNotFound);
      }
      var tourist := tourists[touristId];
      if caller.role != TouristRole {
        return Failure(NotATourist);
      }
      if tourist.userId != caller.id {
        return Failure(NotOwner);
      }
      var place := Geo.TouristPlaceById(locationId);
      tourist := tourist.(locationId := locationId, lastLat := place.lat, lastLon := place.lon);
      var inside := Geo.IsInsideGeofence(dist, place.lat, place.lon, locationId);
      tourist := tourist.(status := if inside then Safe else Critical);
      tourists := tourists[touristId := tourist];
      r := Success(ReassignReply(place.name, tourist.status, inside));
    }
  }
}
