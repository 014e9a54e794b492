/** The fixed table of points of interest, the lookup by id with its fallback,
    and the geofence membership test. */
module Geo {

  /** A point of interest: a circular safe zone of `radius` metres around (lat, lon). */
  datatype Place = Place(id: int, name: string, lat: real, lon: real, radius: int)

  const TouristPlaces: seq<Place> := [
    Place(1, "Taj Mahal, Agra", 27.1751, 78.0421, 500),
    Place(2, "Red Fort, Delhi", 28.6562, 77.2410, 400),
    Place(3, "Gateway of India, Mumbai", 18.9220, 72.8347, 300),
    Place(4, "Hawa Mahal, Jaipur", 26.9239, 75.8267, 300),
    Place(5, "Golden Temple, Amritsar", 31.6200, 74.8765, 400),
    Place(6, "India Gate, New Delhi", 28.6129, 77.2295, 400),
    Place(7, "Mysore Palace, Mysore", 12.3051, 76.6551, 400)
  ]

  /** The single geofence of the older layout, kept for backwards compatibility. */
  const GeofenceCenterLat: real := 27.1751
  const GeofenceCenterLon: real := 78.0421
  const GeofenceRadius: int := 500

  /** The location id a tourist gets when none is given. */
  const DefaultLocationId: int := 1

  /** Great-circle distance in metres between (lat1, lon1) and (lat2, lon2). The haversine
      arithmetic itself is not modelled: every operation takes the distance as a parameter. */
  type Distance = (real, real, real, real) -> real

  /** The facts about the haversine distance the model relies on: it is never negative,
      and it is zero from a point to itself. */
  ghost predicate IsDistance(dist: Distance)
  {
    && (forall lat, lon :: dist(lat, lon, lat, lon) == 0.0)
    && (forall lat1, lon1, lat2, lon2 :: dist(lat1, lon1, lat2, lon2) >= 0.0)
  }

  /** The index of the first place in `places` whose id is `id`, or |places| if there is none. */
  function FirstIndexWithId(places: seq<Place>, id: int): (i: nat)
    ensures i <= |places|
    ensures i < |places| ==> places[i].id == id
    ensures forall j :: 0 <= j < i ==> places[j].id != id
  {
    if places == [] then 0
    else if places[0].id == id then 0
    else 1 + FirstIndexWithId(places[1..], id)
  }

  /** The membership test over the table's ids; it holds exactly when the lookup finds a match. */
  predicate IsPlaceId(id: int): (listed: bool)
    ensures listed <==> FirstIndexWithId(TouristPlaces, id) < |TouristPlaces|
  {
    exists k :: 0 <= k < |TouristPlaces| && TouristPlaces[k].id == id
  }

  /** The first listed place with the given id; an unknown id silently yields the first place. */
  function TouristPlaceById(id: int): (p: Place)
    ensures p in TouristPlaces
    ensures IsPlaceId(id) ==> p.id == id
    ensures !IsPlaceId(id) ==> p == TouristPlaces[0]
  {
    var i := FirstIndexWithId(TouristPlaces, id);
    if i < |TouristPlaces| then TouristPlaces[i] else TouristPlaces[0]
  }

  /** Inside the fence of place `locationId` (after the fallback lookup): the boundary counts as inside.
      Place k + 1 is entry k of the table; any other id is judged against the legacy single geofence. */
  predicate IsInsideGeofence(dist: Distance, lat: real, lon: real, locationId: int): (inside: bool)
    ensures 1 <= locationId <= |TouristPlaces| ==>
      (inside <==> dist(lat, lon, TouristPlaces[locationId - 1].lat, TouristPlaces[locationId - 1].lon)
                   <= TouristPlaces[locationId - 1].radius as real)
    ensures !(1 <= locationId <= |TouristPlaces|) ==>
      (inside <==> dist(lat, lon, GeofenceCenterLat, GeofenceCenterLon) <= GeofenceRadius as real)
  {
    PlaceOfId(locationId);
    var place := TouristPlaceById(locationId);
    dist(lat, lon, place.lat, place.lon) <= place.radius as real
  }

  /** Id k + 1 looks up entry k; any other id falls back to entry 0. */
  lemma PlaceOfId(id: int)
    ensures 1 <= id <= |TouristPlaces| ==> TouristPlaceById(id) == TouristPlaces[id - 1]
    ensures !(1 <= id <= |TouristPlaces|) ==> TouristPlaceById(id) == TouristPlaces[0]
  {
    PlaceIdRange(id);
    if 1 <= id <= |TouristPlaces| {
      PlaceIdsAreOneToSeven();
      LookupOfListedId(id - 1);
    }
  }

  /** The ids of the table are 1 to 7 in order, so they are pairwise distinct. */
  lemma PlaceIdsAreOneToSeven()
    ensures |TouristPlaces| == 7
    ensures forall k :: 0 <= k < |TouristPlaces| ==> TouristPlaces[k].id == k + 1
    ensures forall j, k :: 0 <= j < k < |TouristPlaces| ==> TouristPlaces[j].id != TouristPlaces[k].id
  {
  }

  /** Looking up a listed id returns that very entry. */
  lemma {:induction false} LookupOfListedId(k: nat)
    requires k < |TouristPlaces|
    ensures TouristPlaceById(TouristPlaces[k].id) == TouristPlaces[k]
  {
    PlaceIdsAreOneToSeven();
    var i := FirstIndexWithId(TouristPlaces, TouristPlaces[k].id);
    assert i <= k;
  }

  /** An id is listed exactly when it is one of 1..7. */
  lemma PlaceIdRange(id: int)
    ensures IsPlaceId(id) <==> 1 <= id <= 7
  {
    PlaceIdsAreOneToSeven();
    if 1 <= id <= 7 {
      assert TouristPlaces[id - 1].id == id;
    }
  }

  /** Every safe-zone radius lies between 300 and 500 metres, so every zone is non-empty. */
  lemma RadiiBounds()
    ensures forall p :: p in TouristPlaces ==> 300 <= p.radius <= 500
  {
  }

  /** The legacy single geofence is place 1's zone. */
  lemma DefaultGeofenceIsFirstPlace()
    ensures TouristPlaceById(DefaultLocationId) == TouristPlaces[0]
    ensures GeofenceCenterLat == TouristPlaces[0].lat && GeofenceCenterLon == TouristPlaces[0].lon
    ensures GeofenceRadius == TouristPlaces[0].radius
  {
    LookupOfListedId(0);
  }

  /** Each listed place's own fence: a point is inside exactly when it is within that entry's
      radius of that entry's centre, and a point exactly on the circle is inside. */
  lemma GeofenceBoundary(dist: Distance, lat: real, lon: real, k: nat)
    requires k < |TouristPlaces|
    ensures IsInsideGeofence(dist, lat, lon, TouristPlaces[k].id) <==>
            dist(lat, lon, TouristPlaces[k].lat, TouristPlaces[k].lon) <= TouristPlaces[k].radius as real
    ensures dist(lat, lon, TouristPlaces[k].lat, TouristPlaces[k].lon) == TouristPlaces[k].radius as real ==>
            IsInsideGeofence(dist, lat, lon, TouristPlaces[k].id)
  {
    LookupOfListedId(k);
  }

  /** An unknown id is judged against the fence of place 1. */
  lemma UnknownIdUsesFirstPlace(dist: Distance, lat: real, lon: real, locationId: int)
    requires !IsPlaceId(locationId)
    ensures IsInsideGeofence(dist, lat, lon, locationId) == IsInsideGeofence(dist, lat, lon, 1)
  {
    LookupOfListedId(0);
  }

  /** The centre of any place (after the fallback) is inside its own fence. */
  lemma CentreIsInside(dist: Distance, locationId: int)
    requires IsDistance(dist)
    ensures var place := TouristPlaceById(locationId);
            IsInsideGeofence(dist, place.lat, place.lon, locationId)
  {
    var place := TouristPlaceById(locationId);
    assert dist(place.lat, place.lon, place.lat, place.lon) == 0.0;
  }
}
