/** Properties of the location ledger that relate several operations: idempotence of a
    repeated report, one incident per stay outside the fence, silent recovery, the
    reassignment baseline and the worked scenario of the Taj Mahal zone. */
module LedgerProperties {
  import opened Wrappers
  import opened Accounts
  import opened Coordinates
  import opened Ledger
  import Geo

  datatype Point = Point(lat: real, lon: real)

  /** The owner reports each point of `points` in turn. */
  function ReportAll(s: LedgerState, dist: Geo.Distance, touristId: int, caller: User, points: seq<Point>): LedgerState
    decreases |points|
  {
    if points == [] then s
    else ReportAll(Report(s, dist, touristId, points[0].lat, points[0].lon, caller).state, dist, touristId, caller, points[1..])
  }

  /** Reporting the same thing twice in a row changes nothing the second time and gives the same reply. */
  lemma ReportIsIdempotent(s: LedgerState, dist: Geo.Distance, touristId: int, lat: real, lon: real, caller: User)
    ensures var first := Report(s, dist, touristId, lat, lon, caller);
            Report(first.state, dist, touristId, lat, lon, caller) == Step(first.result, first.state)
  {
    var first := Report(s, dist, touristId, lat, lon, caller);
    if first.result.Success? {
      var second := Report(first.state, dist, touristId, lat, lon, caller);
      assert UpdateCheck(first.state.tourists, touristId, lat, lon, caller) == Pass;
      assert second.state.tourists == first.state.tourists;
    }
  }

  /** A tourist who is Safe, leaves the fence and stays outside for any number of further
      reports gets exactly one incident, and ends Critical. */
  lemma {:induction false} StayingOutsideLogsOnce(s: LedgerState, dist: Geo.Distance, touristId: int, caller: User, points: seq<Point>)
    requires touristId in s.tourists
    requires Authorize(s.tourists[touristId], caller) == Pass
    requires forall k :: 0 <= k < |points| ==>
      ValidateCoordinates(points[k].lat, points[k].lon) == Pass &&
      !Geo.IsInsideGeofence(dist, points[k].lat, points[k].lon, s.tourists[touristId].locationId)
    ensures var final := ReportAll(s, dist, touristId, caller, points);
      && touristId in final.tourists
      && final.incidents == s.incidents +
           (if points != [] && s.tourists[touristId].status != Critical then [Incident(touristId, CriticalSeverity)] else [])
      && (points != [] ==> final.tourists[touristId].status == Critical)
    decreases |points|
  {
    if points != [] {
      var next := Report(s, dist, touristId, points[0].lat, points[0].lon, caller).state;
      assert next.tourists[touristId].status == Critical;
      assert next.tourists[touristId].locationId == s.tourists[touristId].locationId;
      StayingOutsideLogsOnce(next, dist, touristId, caller, points[1..]);
      var rest := points[1..];
      if rest == [] {
        assert ReportAll(next, dist, touristId, caller, rest) == next;
      }
    }
  }

  /** Coming back inside the fence is silent: Safe again, and the incident log is untouched. */
  lemma RecoveryIsSilent(s: LedgerState, dist: Geo.Distance, touristId: int, lat: real, lon: real, caller: User)
    requires touristId in s.tourists && s.tourists[touristId].status == Critical
    requires Report(s, dist, touristId, lat, lon, caller).result.Success?
    requires Geo.IsInsideGeofence(dist, lat, lon, s.tourists[touristId].locationId)
    ensures var out := Report(s, dist, touristId, lat, lon, caller);
            out.result.value == LocationReply(Safe, true) && out.state.incidents == s.incidents
  {
  }

  /** A caller who is not the owning tourist is refused with 403 and nothing changes. */
  lemma ForeignCallerChangesNothing(s: LedgerState, dist: Geo.Distance, touristId: int, lat: real, lon: real, caller: User)
    requires ValidateCoordinates(lat, lon) == Pass && touristId in s.tourists
    requires caller.role != TouristRole || s.tourists[touristId].userId != caller.id
    ensures var out := Report(s, dist, touristId, lat, lon, caller);
            out.result.Failure? && out.result.error.StatusCode() == 403 && out.state == s
  {
  }

  /** A reassignment always lands the tourist Safe, inside the new fence: its centre is
      at distance zero from itself. A Critical tourist is thereby cleared without an incident. */
  lemma ReassignmentIsSafe(s: LedgerState, dist: Geo.Distance, touristId: int, locationId: int, caller: User)
    requires Geo.IsDistance(dist)
    requires Reassign(s, dist, touristId, locationId, caller).result.Success?
    ensures var out := Reassign(s, dist, touristId, locationId, caller);
      && out.result.value.status == Safe && out.result.value.insideFence
      && out.state.tourists[touristId].status == Safe
      && out.state.incidents == s.incidents
  {
    Geo.CentreIsInside(dist, locationId);
  }

  /** The worked scenario of the Taj Mahal zone (place 1, radius 500 m). The three haversine
      distances are the assumptions: about 2.8 km for the second point, about 40 m for the third. */
  lemma TajMahalScenario(dist: Geo.Distance, touristId: int, owner: int, name: string)
    requires Geo.IsDistance(dist)
    requires dist(27.2000, 78.0421, 27.1751, 78.0421) > 500.0
    requires dist(27.1751, 78.0425, 27.1751, 78.0421) <= 500.0
    ensures
      var caller := User(owner, TouristRole);
      var s0 := LedgerState(map[touristId := Tourist(owner, name, 1, 27.1751, 78.0421, Safe)], []);
      var r1 := Report(s0, dist, touristId, 27.1751, 78.0421, caller);
      var r2 := Report(r1.state, dist, touristId, 27.2000, 78.0421, caller);
      var r3 := Report(r2.state, dist, touristId, 27.1751, 78.0425, caller);
      && r1.result == Success(LocationReply(Safe, true)) && r1.state.incidents == []
      && r2.result == Success(LocationReply(Critical, false)) && r2.state.incidents == [Incident(touristId, CriticalSeverity)]
      && r3.result == Success(LocationReply(Safe, true)) && r3.state.incidents == [Incident(touristId, CriticalSeverity)]
  {
    Geo.LookupOfListedId(0);
    assert dist(27.1751, 78.0421, 27.1751, 78.0421) == 0.0;
  }
}
