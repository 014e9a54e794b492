/** The guide side: the per-guide position record that a report overwrites or creates,
    and the dashboard listing the active trips assigned to a guide. */
module Guide {
  import opened Wrappers
  import opened Accounts
  import opened Coordinates
  import Geo

  /** A guide position row. Timestamps are clock readings taken as parameters. */
  datatype GuideLocation = GuideLocation(guideId: int, latitude: real, longitude: real, updatedAt: int, createdAt: int)

  predicate UniqueGuides(rows: seq<GuideLocation>)
  {
    forall i, j :: 0 <= i < j < |rows| ==> rows[i].guideId != rows[j].guideId
  }

  /** The row of `guideId`, found by a lookup keyed by that id: the first match, or none. */
  function GuideRowIndex(rows: seq<GuideLocation>, guideId: int): (r: Option<nat>)
    ensures r.Some? ==> r.value < |rows| && rows[r.value].guideId == guideId
    ensures r.Some? ==> forall j :: 0 <= j < r.value ==> rows[j].guideId != guideId
    ensures r.None? <==> forall j :: 0 <= j < |rows| ==> rows[j].guideId != guideId
  {
    if rows == [] then None
    else if rows[0].guideId == guideId then Some(0)
    else match GuideRowIndex(rows[1..], guideId)
      case None => None
      case Some(k) => Some(k + 1)
  }

  /** Overwrite the guide's row in place if there is one, otherwise add exactly one row for the guide. */
  function Upsert(rows: seq<GuideLocation>, guideId: int, lat: real, lon: real, now: int): (r: seq<GuideLocation>)
    ensures UniqueGuides(rows) ==> UniqueGuides(r)
    ensures |r| == |rows| + (if GuideRowIndex(rows, guideId).None? then 1 else 0)
    ensures GuideRowIndex(r, guideId).Some?
    ensures var row := r[GuideRowIndex(r, guideId).value];
            row.latitude == lat && row.longitude == lon && row.updatedAt == now
    ensures forall i :: 0 <= i < |rows| && rows[i].guideId != guideId ==> r[i] == rows[i]
    ensures forall i :: 0 <= i < |rows| && rows[i].guideId == guideId && UniqueGuides(rows) ==>
              r[i] == rows[i].(latitude := lat, longitude := lon, updatedAt := now)
  {
    match GuideRowIndex(rows, guideId)
    case Some(i) =>
      var r := rows[i := rows[i].(latitude := lat, longitude := lon, updatedAt := now)];
      SameIdsSameIndex(rows, r, guideId);
      r
    case None =>
      var r := rows + [GuideLocation(guideId, lat, lon, now, now)];
      assert r[|rows|].guideId == guideId;
      r
  }

  /** The lookup only sees the guide ids of the rows. */
  lemma {:induction false} SameIdsSameIndex(a: seq<GuideLocation>, b: seq<GuideLocation>, guideId: int)
    requires |a| == |b| && forall i :: 0 <= i < |a| ==> a[i].guideId == b[i].guideId
    ensures GuideRowIndex(a, guideId) == GuideRowIndex(b, guideId)
  {
    if a != [] {
      SameIdsSameIndex(a[1..], b[1..], guideId);
    }
  }

  /** The reply of a guide position report. */
  datatype GuideReply = GuideReply(latitude: real, longitude: real, updatedAt: int)

  /** The event handed to the broadcast for a guide position. */
  datatype GuideLocationMessage = GuideLocationMessage(guideId: int, guideName: string, latitude: real, longitude: real, timestamp: int)

  /** The guide position table, written in place. */
  class GuideLocationTable {
    var rows: seq<GuideLocation>

    /** Rows are only added by the upsert, so each guide has at most one. */
    ghost predicate Valid()
      reads this
    {
      UniqueGuides(rows)
    }

    constructor ()
      ensures Valid() && rows == []
    {
      rows := [];
    }

    /** `update_guide_location`: coordinates first (400, nothing read or written), then the upsert
        keyed by the caller's id, then the event for the broadcast. */
    method UpdateGuideLocation(caller: User, guideName: string, lat: real, lon: real, now: int)
      returns (r: Result<GuideReply, CoordinateError>, message: Option<GuideLocationMessage>)
      requires Valid()
      modifies this
      ensures Valid()
      ensures r.Failure? <==> ValidateCoordinates(lat, lon).Fail?
      ensures r.Failure? ==> r.error == ValidateCoordinates(lat, lon).error && rows == old(rows) && message.None?
      ensures r.Success? ==>
        && rows == Upsert(old(rows), caller.id, lat, lon, now)
        && r.value == GuideReply(lat, lon, now)
        && message == Some(GuideLocationMessage(caller.id, guideName, lat, lon, now))
    {
      var valid := ValidateCoordinates(lat, lon);
      if valid.Fail? {
        return Failure(valid.error), None;
      }
      var found := GuideRowIndex(rows, caller.id);
      var row: GuideLocation;
      if found.Some? {
        row := rows[found.value].(latitude := lat, longitude := lon, updatedAt := now);
        rows := rows[found.value := row];
      } else {
        row := GuideLocation(caller.id, lat, lon, now, now);
        rows := rows + [row];
      }
      message := Some(GuideLocationMessage(caller.id, guideName, lat, lon, now));
      r := Success(GuideReply(lat, lon, row.updatedAt));
    }
  }

  /** A trip as the dashboard reads it. */
  datatype Trip = Trip(
    id: int, userId: int, guideId: Option<int>, blockchainId: string, startingLocation: string,
    destinationId: int, hotels: Option<string>, modeOfTravel: string,
    lastLat: Option<real>, lastLon: Option<real>, status: string, isActive: bool)

  /** The account fields the dashboard shows. */
  datatype Account = Account(fullName: string, email: string, contactNumber: string, age: int, gender: string)

  /** One dashboard entry: the trip, its traveller and the destination's name. */
  datatype AssignedTrip = AssignedTrip(
    tripId: int, userName: string, userEmail: string, userContact: string, userAge: int, userGender: string,
    blockchainId: string, startingLocation: string, lastLat: Option<real>, lastLon: Option<real>, status: string,
    destinationId: int, destinationName: string, hotels: Option<string>, modeOfTravel: string, isActive: bool)

  datatype Dashboard = Dashboard(guideName: string, guideEmail: string, assignedTourists: seq<AssignedTrip>, totalAssigned: int)

  /** The query's filter: the trip is active and its guide is `guideId`; an unassigned trip never matches. */
  predicate AssignedTo(t: Trip, guideId: int): (matched: bool)
    ensures t.guideId.None? || !t.isActive ==> !matched
    ensures matched <==> t.isActive && t.guideId.Some? && t.guideId.value == guideId
  {
    t.guideId == Some(guideId) && t.isActive
  }

  /** The query: the active trips whose guide is `guideId`, in table order. */
  function ActiveTripsOf(trips: seq<Trip>, guideId: int): (r: seq<Trip>)
    ensures forall i :: 0 <= i < |r| ==> r[i] in trips && AssignedTo(r[i], guideId)
    ensures forall t :: t in trips && AssignedTo(t, guideId) ==> t in r
    ensures |r| <= |trips|
  {
    if trips == [] then []
    else (if AssignedTo(trips[0], guideId) then [trips[0]] else []) + ActiveTripsOf(trips[1..], guideId)
  }

  function DestinationName(t: Trip): string
  {
    Geo.TouristPlaceById(t.destinationId).name
  }

  /** One entry: the trip's own fields, the traveller's account fields and the destination's name,
      which is always a listed place's name (the lookup falls back to the first place). */
  function EntryFor(t: Trip, u: Account): (e: AssignedTrip)
    ensures e.tripId == t.id && e.destinationId == t.destinationId && e.status == t.status && e.isActive == t.isActive
    ensures e.userName == u.fullName && e.userEmail == u.email && e.userContact == u.contactNumber
    ensures e.userAge == u.age && e.userGender == u.gender
    ensures e.lastLat == t.lastLat && e.lastLon == t.lastLon
    ensures exists k :: 0 <= k < |Geo.TouristPlaces| && e.destinationName == Geo.TouristPlaces[k].name
    ensures 1 <= t.destinationId <= |Geo.TouristPlaces| ==> e.destinationName == Geo.TouristPlaces[t.destinationId - 1].name
  {
    AssignedTrip(t.id, u.fullName, u.email, u.contactNumber, u.age, u.gender, t.blockchainId, t.startingLocation,
                 t.lastLat, t.lastLon, t.status, t.destinationId, DestinationName(t),
                 t.hotels, t.modeOfTravel, t.isActive)
  }

  /** The entries for `selected`, skipping the trips whose user is missing. */
  function Entries(selected: seq<Trip>, users: map<int, Account>): (r: seq<AssignedTrip>)
    ensures |r| <= |selected|
    ensures (forall t :: t in selected ==> t.userId in users) ==> |r| == |selected|
    decreases |selected|
  {
    if selected == [] then []
    else
      var last := selected[|selected| - 1];
      var before := Entries(selected[..|selected| - 1], users);
      if last.userId in users then before + [EntryFor(last, users[last.userId])] else before
  }

  lemma EntriesStep(selected: seq<Trip>, i: nat, users: map<int, Account>)
    requires i < |selected|
    ensures Entries(selected[..i + 1], users) ==
      Entries(selected[..i], users) + (if selected[i].userId in users then [EntryFor(selected[i], users[selected[i].userId])] else [])
  {
    assert selected[..i + 1][..i] == selected[..i];
  }

  /** `get_guide_dashboard_data`: one entry per active trip assigned to the caller whose user exists. */
  method GuideDashboard(guide: User, account: Account, trips: seq<Trip>, users: map<int, Account>) returns (d: Dashboard)
    ensures d.guideName == account.fullName && d.guideEmail == account.email
    ensures d.assignedTourists == Entries(ActiveTripsOf(trips, guide.id), users)
    ensures d.totalAssigned == |d.assignedTourists|
  {
    var selected := ActiveTripsOf(trips, guide.id);
    var tripData: seq<AssignedTrip> := [];
    for i := 0 to |selected|
      invariant tripData == Entries(selected[..i], users)
    {
      var trip := selected[i];
      EntriesStep(selected, i, users);
      if trip.userId in users {
        tripData := tripData + [EntryFor(trip, users[trip.userId])];
      }
    }
    assert selected[..|selected|] == selected;
    d := Dashboard(account.fullName, account.email, tripData, |tripData|);
  }

  /** Every listed entry is for an active trip assigned to the caller whose user exists. */
  lemma DashboardListsOnlyOwnActiveTrips(guide: User, trips: seq<Trip>, users: map<int, Account>, e: AssignedTrip)
    requires e in Entries(ActiveTripsOf(trips, guide.id), users)
    ensures exists t :: t in trips && AssignedTo(t, guide.id) && t.userId in users && e == EntryFor(t, users[t.userId])
  {
    var selected := ActiveTripsOf(trips, guide.id);
    EntryOrigin(selected, users, e);
    var t :| t in selected && t.userId in users && e == EntryFor(t, users[t.userId]);
    assert t in trips && AssignedTo(t, guide.id);
  }

  /** Every active trip assigned to the caller whose user exists is listed on the dashboard. */
  lemma DashboardListsEveryOwnActiveTrip(guide: User, trips: seq<Trip>, users: map<int, Account>, t: Trip)
    requires t in trips && AssignedTo(t, guide.id) && t.userId in users
    ensures EntryFor(t, users[t.userId]) in Entries(ActiveTripsOf(trips, guide.id), users)
  {
    EntriesComplete(ActiveTripsOf(trips, guide.id), users, t);
  }

  /** Every selected trip whose user exists yields its entry. */
  lemma {:induction false} EntriesComplete(selected: seq<Trip>, users: map<int, Account>, t: Trip)
    requires t in selected && t.userId in users
    ensures EntryFor(t, users[t.userId]) in Entries(selected, users)
    decreases |selected|
  {
    var last := selected[|selected| - 1];
    var init := selected[..|selected| - 1];
    assert selected == init + [last];
    if t != last {
      assert t in init;
      EntriesComplete(init, users, t);
    }
  }

  /** Every entry comes from a selected trip whose user exists. */
  lemma {:induction false} EntryOrigin(selected: seq<Trip>, users: map<int, Account>, e: AssignedTrip)
    requires e in Entries(selected, users)
    ensures exists t :: t in selected && t.userId in users && e == EntryFor(t, users[t.userId])
    decreases |selected|
  {
    var last := selected[|selected| - 1];
    var init := selected[..|selected| - 1];
    if e in Entries(init, users) {
      EntryOrigin(init, users, e);
      var t :| t in init && t.userId in users && e == EntryFor(t, users[t.userId]);
      assert t in selected;
    } else {
      assert last in selected;
    }
  }
}
