// Route geometry shared by the backend and the frontend: a route is a sequence
// of (latitude, longitude, elevation) points, and distances between points come
// from a great-circle function that the model takes as a parameter.

module Geometry {

  /** A route point: degrees of latitude and longitude, elevation in meters. */
  datatype Coord = Coord(lat: real, lon: real, ele: real)

  /** Distance and elevation change of a leg, in meters. */
  datatype LegMetrics = LegMetrics(distance: real, elevationGain: real, elevationLoss: real)

  /**
   * Great-circle distance in meters between (lat1, lon1) and (lat2, lon2).
   * The trigonometric formula is not modelled; only its non-negativity is.
   */
  type GreatCircle = f: (real, real, real, real) -> real
    | forall lat1, lon1, lat2, lon2 :: f(lat1, lon1, lat2, lon2) >= 0.0
    witness (lat1: real, lon1: real, lat2: real, lon2: real) => 0.0

  /** Straight-line distance between two route points including the elevation difference. */
  type Distance3d = f: (Coord, Coord) -> real
    | forall a, b :: f(a, b) >= 0.0
    witness (a: Coord, b: Coord) => 0.0

  /** Great-circle length of the segment that ends at point i. */
  function SegmentLength(coords: seq<Coord>, i: nat, hav: GreatCircle): (d: real)
    requires 1 <= i < |coords|
    ensures d >= 0.0
  {
    hav(coords[i - 1].lat, coords[i - 1].lon, coords[i].lat, coords[i].lon)
  }

  /** Great-circle distance along the route from point 0 to point i. */
  function AlongRoute(coords: seq<Coord>, i: nat, hav: GreatCircle): (d: real)
    requires i < |coords|
    ensures d >= 0.0
  {
    if i == 0 then 0.0 else AlongRoute(coords, i - 1, hav) + SegmentLength(coords, i, hav)
  }

  /** The along-route distance never decreases with the point index. */
  lemma {:induction false} AlongRouteMonotone(coords: seq<Coord>, i: nat, j: nat, hav: GreatCircle)
    requires i <= j < |coords|
    ensures AlongRoute(coords, i, hav) <= AlongRoute(coords, j, hav)
    decreases j - i
  {
    if i < j {
      AlongRouteMonotone(coords, i, j - 1, hav);
    }
  }

  /** Along-route distance depends only on the points up to i. */
  lemma {:induction false} AlongRoutePrefix(coords: seq<Coord>, i: nat, m: nat, hav: GreatCircle)
    requires i < m <= |coords|
    ensures AlongRoute(coords[..m], i, hav) == AlongRoute(coords, i, hav)
    decreases i
  {
    if i > 0 {
      AlongRoutePrefix(coords, i - 1, m, hav);
    }
  }
}
