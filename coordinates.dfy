/** The range check that every reported position goes through before anything is looked up. */
module Coordinates {
  import opened Wrappers

  /** Which of the two range checks failed. */
  datatype CoordinateError = LatitudeOutOfRange | LongitudeOutOfRange

  predicate LatitudeInRange(lat: real) { -90.0 <= lat <= 90.0 }
  predicate LongitudeInRange(lon: real) { -180.0 <= lon <= 180.0 }

  /** Latitude is checked first, then longitude; the first failing check is the error. */
  function ValidateCoordinates(lat: real, lon: real): (r: Outcome<CoordinateError>)
    ensures r == Pass <==> -90.0 <= lat <= 90.0 && -180.0 <= lon <= 180.0
    ensures r == Fail(LatitudeOutOfRange) <==> lat < -90.0 || 90.0 < lat
    ensures r == Fail(LongitudeOutOfRange) <==> -90.0 <= lat <= 90.0 && (lon < -180.0 || 180.0 < lon)
  {
    if !LatitudeInRange(lat) then Fail(LatitudeOutOfRange)
    else if !LongitudeInRange(lon) then Fail(LongitudeOutOfRange)
    else Pass
  }

  /** The four boundary values are accepted, in every combination. */
  lemma BoundariesAccepted(lat: real, lon: real)
    requires lat == -90.0 || lat == 90.0
    requires lon == -180.0 || lon == 180.0
    ensures ValidateCoordinates(lat, lon) == Pass
  {
  }

  /** When both coordinates are out of range, the latitude error is the one reported. */
  lemma LatitudeReportedFirst(lat: real, lon: real)
    requires !LatitudeInRange(lat) && !LongitudeInRange(lon)
    ensures ValidateCoordinates(lat, lon) == Fail(LatitudeOutOfRange)
  {
  }
}
