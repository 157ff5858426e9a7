/** Geographic points and the distance primitive shared by the resampler and
    the slope classifier.

    The great-circle distance of the service comes from a geodesy library whose
    formula is not part of this model. It is passed around as a total function
    value; the only fact the proofs may use about it is `NonNegative`, and only
    where a contract says so.
 */
module Geo {

  /** A point as (latitude, longitude) in decimal degrees. */
  datatype GeoPoint = GeoPoint(lat: real, lon: real)

  /** A coordinate pair as the routing provider delivers it: (longitude, latitude). */
  type LonLat = (real, real)

  /** Distance in kilometres between two points. */
  type Distance = (GeoPoint, GeoPoint) -> real

  /** The one property of the geodesic distance the model relies on. */
  ghost predicate NonNegative(dist: Distance)
  {
    forall a, b :: dist(a, b) >= 0.0
  }

  /** Turns the provider's (longitude, latitude) pairs into (latitude, longitude) points. */
  function FromLonLat(coords: seq<LonLat>): (pts: seq<GeoPoint>)
    ensures |pts| == |coords|
    ensures forall k :: 0 <= k < |pts| ==> pts[k].lat == coords[k].1 && pts[k].lon == coords[k].0
  {
    seq(|coords|, k requires 0 <= k < |coords| => GeoPoint(coords[k].1, coords[k].0))
  }

  /** The reverse flip, the order in which the response writes a point back ("lon,lat"). */
  function ToLonLat(pts: seq<GeoPoint>): (coords: seq<LonLat>)
    ensures |coords| == |pts|
  {
    seq(|pts|, k requires 0 <= k < |pts| => (pts[k].lon, pts[k].lat))
  }

  /** Flipping provider coordinates and flipping them back gives the provider's list. */
  lemma FlipRoundTrip(coords: seq<LonLat>)
    ensures ToLonLat(FromLonLat(coords)) == coords
  {
  }

  /** Every point list is the flip of its own (longitude, latitude) rendering. */
  lemma FlipSurjective(pts: seq<GeoPoint>)
    ensures FromLonLat(ToLonLat(pts)) == pts
  {
  }
}
