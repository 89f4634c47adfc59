// Route processing (backend/utils/gpx_processor.py): statistics gathered while
// reading the track points of a GPX file, mapping a simplified polyline back to
// the original points, the closest-point search that places a waypoint on the
// route, metrics of a leg between two route indices, and unit conversions.
// The GPX parser, the Ramer-Douglas-Peucker simplifier, the great-circle
// distance and the 3-D distance are parameters of the model.

module GpxProcessor {
  import opened Numbers
  import opened Wrappers
  import opened Geometry

  // ---------------------------------------------------------------- legs

  /** Elevation climbed on the step into point i. */
  function StepGain(coords: seq<Coord>, i: nat): (g: real)
    requires 1 <= i < |coords|
    ensures g >= 0.0
  {
    var diff := coords[i].ele - coords[i - 1].ele;
    if diff > 0.0 then diff else 0.0
  }

  /** Elevation descended on the step into point i (a level step counts as a descent of 0). */
  function StepLoss(coords: seq<Coord>, i: nat): (l: real)
    requires 1 <= i < |coords|
    ensures l >= 0.0
  {
    var diff := coords[i].ele - coords[i - 1].ele;
    if diff > 0.0 then 0.0 else -diff
  }

  /** 3-D length of the route between indices a and b. */
  function RangeDistance(coords: seq<Coord>, a: nat, b: nat, d3: Distance3d): (d: real)
    requires a <= b < |coords|
    ensures d >= 0.0
    decreases b
  {
    if b == a then 0.0 else RangeDistance(coords, a, b - 1, d3) + d3(coords[b - 1], coords[b])
  }

  function RangeGain(coords: seq<Coord>, a: nat, b: nat): (g: real)
    requires a <= b < |coords|
    ensures g >= 0.0
    decreases b
  {
    if b == a then 0.0 else RangeGain(coords, a, b - 1) + StepGain(coords, b)
  }

  function RangeLoss(coords: seq<Coord>, a: nat, b: nat): (l: real)
    requires a <= b < |coords|
    ensures l >= 0.0
    decreases b
  {
    if b == a then 0.0 else RangeLoss(coords, a, b - 1) + StepLoss(coords, b)
  }

  /** The metrics of the leg from index a to index b, as defined step by step. */
  function RangeMetrics(coords: seq<Coord>, a: nat, b: nat, d3: Distance3d): LegMetrics
    requires a <= b < |coords|
  {
    LegMetrics(RangeDistance(coords, a, b, d3), RangeGain(coords, a, b), RangeLoss(coords, a, b))
  }

  /**
   * calculate_leg_metrics: all zeros for an empty, reversed or out-of-range
   * index pair; otherwise distance, gain and loss summed over the steps
   * start+1 .. end.
   */
  method CalculateLegMetrics(coords: seq<Coord>, start: nat, end: int, d3: Distance3d) returns (m: LegMetrics)
    ensures start >= end || end >= |coords| ==> m == LegMetrics(0.0, 0.0, 0.0)
    ensures start < end < |coords| ==> m == RangeMetrics(coords, start, end, d3)
  {
    if start >= end || end >= |coords| {
      return LegMetrics(0.0, 0.0, 0.0);
    }
    var total := 0.0;
    var gain := 0.0;
    var loss := 0.0;
    for i := start + 1 to end + 1
      invariant total == RangeDistance(coords, start, i - 1, d3)
      invariant gain == RangeGain(coords, start, i - 1)
      invariant loss == RangeLoss(coords, start, i - 1)
    {
      var prev := coords[i - 1];
      var curr := coords[i];
      total := total + d3(prev, curr);
      var diff := curr.ele - prev.ele;
      if diff > 0.0 {
        gain := gain + diff;
      } else {
        loss := loss + (if diff >= 0.0 then diff else -diff);
      }
    }
    return LegMetrics(total, gain, loss);
  }

  /** Gain minus loss telescopes to the net elevation change between the endpoints. */
  lemma {:induction false} GainMinusLoss(coords: seq<Coord>, a: nat, b: nat)
    requires a <= b < |coords|
    ensures RangeGain(coords, a, b) - RangeLoss(coords, a, b) == coords[b].ele - coords[a].ele
    decreases b
  {
    if b > a {
      GainMinusLoss(coords, a, b - 1);
    }
  }

  /** Metrics over [a, b] and over [b, c] add up to the metrics over [a, c]. */
  lemma {:induction false} MetricsAdditive(coords: seq<Coord>, a: nat, b: nat, c: nat, d3: Distance3d)
    requires a <= b <= c < |coords|
    ensures RangeDistance(coords, a, c, d3) == RangeDistance(coords, a, b, d3) + RangeDistance(coords, b, c, d3)
    ensures RangeGain(coords, a, c) == RangeGain(coords, a, b) + RangeGain(coords, b, c)
    ensures RangeLoss(coords, a, c) == RangeLoss(coords, a, b) + RangeLoss(coords, b, c)
    decreases c
  {
    if c > b {
      MetricsAdditive(coords, a, b, c - 1, d3);
    }
  }

  // ------------------------------------------------------- closest point

  /** Great-circle distance from the target to route point i. */
  function DistanceTo(coords: seq<Coord>, i: nat, lat: real, lon: real, hav: GreatCircle): real
    requires i < |coords|
  {
    hav(lat, lon, coords[i].lat, coords[i].lon)
  }

  /** Point i is nearest to the target and no earlier point is as near. */
  predicate IsFirstNearest(coords: seq<Coord>, i: nat, lat: real, lon: real, hav: GreatCircle)
  {
    && i < |coords|
    && (forall j :: 0 <= j < |coords| ==> DistanceTo(coords, i, lat, lon, hav) <= DistanceTo(coords, j, lat, lon, hav))
    && (forall j :: 0 <= j < i ==> DistanceTo(coords, i, lat, lon, hav) < DistanceTo(coords, j, lat, lon, hav))
  }

  /** There is only one first nearest point. */
  lemma FirstNearestUnique(coords: seq<Coord>, i: nat, j: nat, lat: real, lon: real, hav: GreatCircle)
    requires IsFirstNearest(coords, i, lat, lon, hav) && IsFirstNearest(coords, j, lat, lon, hav)
    ensures i == j
  {
    NearestNotAfter(coords, i, j, lat, lon, hav);
    NearestNotAfter(coords, j, i, lat, lon, hav);
  }

  /** A first nearest point comes no later than any point at most as far away. */
  lemma NearestNotAfter(coords: seq<Coord>, i: nat, j: nat, lat: real, lon: real, hav: GreatCircle)
    requires IsFirstNearest(coords, i, lat, lon, hav) && j < |coords|
    requires DistanceTo(coords, j, lat, lon, hav) <= DistanceTo(coords, i, lat, lon, hav)
    ensures i <= j
  {
  }

  /**
   * The distance find_closest_point_on_route reports for point i: the running
   * total before the segment into point i is added, that is the along-route
   * distance to point i - 1 (0 for point 0).
   */
  function ReportedDistance(coords: seq<Coord>, i: nat, hav: GreatCircle): real
    requires i < |coords|
  {
    if i == 0 then 0.0 else AlongRoute(coords, i - 1, hav)
  }

  /**
   * find_closest_point_on_route as written: the first index of minimal
   * distance to the target (0 for an empty route) and the running along-route
   * total at the moment that index was chosen, which has not yet counted the
   * segment into the chosen point.
   */
  method FindClosestPoint(coords: seq<Coord>, lat: real, lon: real, hav: GreatCircle)
    returns (index: nat, distanceFromStart: real)
    ensures |coords| == 0 ==> index == 0 && distanceFromStart == 0.0
    ensures |coords| > 0 ==> IsFirstNearest(coords, index, lat, lon, hav)
    ensures |coords| > 0 ==> distanceFromStart == ReportedDistance(coords, index, hav)
  {
    var minDistance: Option<real> := None;   // None stands for float('inf')
    index := 0;
    distanceFromStart := 0.0;
    var cumulative := 0.0;
    for i := 0 to |coords|
      invariant i == 0 ==> minDistance == None && index == 0 && distanceFromStart == 0.0 && cumulative == 0.0
      invariant i > 0 ==> cumulative == AlongRoute(coords, i - 1, hav)
      invariant i > 0 ==> index < i && minDistance == Some(DistanceTo(coords, index, lat, lon, hav))
      invariant i > 0 ==> forall j :: 0 <= j < i ==> DistanceTo(coords, index, lat, lon, hav) <= DistanceTo(coords, j, lat, lon, hav)
      invariant forall j :: 0 <= j < index ==> DistanceTo(coords, index, lat, lon, hav) < DistanceTo(coords, j, lat, lon, hav)
      invariant i > 0 ==> distanceFromStart == (if index == 0 then 0.0 else AlongRoute(coords, index - 1, hav))
    {
      var dist := hav(lat, lon, coords[i].lat, coords[i].lon);
      if minDistance.None? || dist < minDistance.value {
        minDistance := Some(dist);
        index := i;
        distanceFromStart := cumulative;
      }
      if i > 0 {
        cumulative := cumulative + hav(coords[i - 1].lat, coords[i - 1].lon, coords[i].lat, coords[i].lon);
      }
    }
  }

  /** A two-point route, one unit long, used to exhibit the shortfall. */
  const TwoPointRoute: seq<Coord> := [Coord(0.0, 0.0, 0.0), Coord(0.0, 1.0, 0.0)]

  /** A distance function that puts distinct positions one unit apart. */
  const UnitApart: GreatCircle := (lat1: real, lon1: real, lat2: real, lon2: real) =>
    if lat1 == lat2 && lon1 == lon2 then 0.0 else 1.0

  /**
   * A waypoint placed exactly on the last point of the two-point route is
   * found at that point, yet reported at distance 0 rather than at the
   * route's length of 1.
   */
  lemma FinishReportedAtStart()
    ensures IsFirstNearest(TwoPointRoute, 1, 0.0, 1.0, UnitApart)
    ensures ReportedDistance(TwoPointRoute, 1, UnitApart) == 0.0
    ensures AlongRoute(TwoPointRoute, 1, UnitApart) == 1.0
  {
    assert DistanceTo(TwoPointRoute, 0, 0.0, 1.0, UnitApart) == 1.0;
    assert DistanceTo(TwoPointRoute, 1, 0.0, 1.0, UnitApart) == 0.0;
    assert SegmentLength(TwoPointRoute, 1, UnitApart) == 1.0;
  }

  /**
   * Whenever the segment into the chosen point has positive length, the
   * distance reported as written falls short of the chosen point's own
   * along-route distance by exactly that segment.
   */
  lemma ReportedDistanceFallsShort(coords: seq<Coord>, i: nat, hav: GreatCircle)
    requires 1 <= i < |coords|
    ensures ReportedDistance(coords, i, hav) + SegmentLength(coords, i, hav) == AlongRoute(coords, i, hav)
    ensures SegmentLength(coords, i, hav) > 0.0 ==> ReportedDistance(coords, i, hav) < AlongRoute(coords, i, hav)
  {
  }

  /**
   * The closest-point search as intended: the segment into each point is
   * counted before the point is compared, so the distance reported is the
   * chosen point's own along-route distance from the start.
   */
  method FindClosestPointCorrected(coords: seq<Coord>, lat: real, lon: real, hav: GreatCircle)
    returns (index: nat, distanceFromStart: real)
    ensures |coords| == 0 ==> index == 0 && distanceFromStart == 0.0
    ensures |coords| > 0 ==> IsFirstNearest(coords, index, lat, lon, hav)
    ensures |coords| > 0 ==> distanceFromStart == AlongRoute(coords, index, hav)
  {
    var minDistance: Option<real> := None;
    index := 0;
    distanceFromStart := 0.0;
    var cumulative := 0.0;
    for i := 0 to |coords|
      invariant i == 0 ==> minDistance == None && index == 0 && distanceFromStart == 0.0 && cumulative == 0.0
      invariant i > 0 ==> cumulative == AlongRoute(coords, i - 1, hav)
      invariant i > 0 ==> index < i && minDistance == Some(DistanceTo(coords, index, lat, lon, hav))
      invariant i > 0 ==> forall j :: 0 <= j < i ==> DistanceTo(coords, index, lat, lon, hav) <= DistanceTo(coords, j, lat, lon, hav)
      invariant forall j :: 0 <= j < index ==> DistanceTo(coords, index, lat, lon, hav) < DistanceTo(coords, j, lat, lon, hav)
      invariant i > 0 ==> distanceFromStart == AlongRoute(coords, index, hav)
    {
      if i > 0 {
        cumulative := cumulative + hav(coords[i - 1].lat, coords[i - 1].lon, coords[i].lat, coords[i].lon);
      }
      var dist := hav(lat, lon, coords[i].lat, coords[i].lon);
      if minDistance.None? || dist < minDistance.value {
        minDistance := Some(dist);
        index := i;
        distanceFromStart := cumulative;
      }
    }
  }

  // -------------------------------------------------------- simplification

  /** The first route point with the given latitude and longitude, if any. */
  function FirstWithPosition(coords: seq<Coord>, lat: real, lon: real): (r: Option<Coord>)
    ensures r.Some? ==> r.value in coords && r.value.lat == lat && r.value.lon == lon
    ensures r.None? <==> forall c :: c in coords ==> !(c.lat == lat && c.lon == lon)
  {
    if |coords| == 0 then None
    else if coords[0].lat == lat && coords[0].lon == lon then Some(coords[0])
    else FirstWithPosition(coords[1..], lat, lon)
  }

  /** Each simplified position mapped back to the first original point at that position; positions with none are dropped. */
  function MapBack(simplified: seq<(real, real)>, coords: seq<Coord>): (r: seq<Coord>)
    ensures |r| <= |simplified|
    ensures forall c :: c in r ==> c in coords
  {
    if |simplified| == 0 then []
    else
      var head := FirstWithPosition(coords, simplified[0].0, simplified[0].1);
      (if head.Some? then [head.value] else []) + MapBack(simplified[1..], coords)
  }

  /** When every simplified position occurs in the route, nothing is dropped and positions are kept in order. */
  lemma {:induction false} MapBackKeepsPositions(simplified: seq<(real, real)>, coords: seq<Coord>)
    requires forall k :: 0 <= k < |simplified| ==> exists c :: c in coords && c.lat == simplified[k].0 && c.lon == simplified[k].1
    ensures |MapBack(simplified, coords)| == |simplified|
    ensures forall k :: 0 <= k < |simplified| ==>
      MapBack(simplified, coords)[k].lat == simplified[k].0 && MapBack(simplified, coords)[k].lon == simplified[k].1
  {
    if |simplified| > 0 {
      var first := simplified[0];
      assert exists c :: c in coords && c.lat == first.0 && c.lon == first.1;
      var c :| c in coords && c.lat == first.0 && c.lon == first.1;
      assert FirstWithPosition(coords, simplified[0].0, simplified[0].1).Some?;
      MapBackKeepsPositions(simplified[1..], coords);
    }
  }

  /** The 2-D positions handed to the simplifier. */
  function Positions(coords: seq<Coord>): (p: seq<(real, real)>)
    ensures |p| == |coords| && forall i :: 0 <= i < |coords| ==> p[i] == (coords[i].lat, coords[i].lon)
  {
    seq(|coords|, i requires 0 <= i < |coords| => (coords[i].lat, coords[i].lon))
  }

  /**
   * simplify_coordinates: fewer than three points are returned as they are;
   * otherwise the simplifier's output positions are mapped back to original
   * points (with their elevations) by a search that stops at the first match.
   */
  method SimplifyCoordinates(coords: seq<Coord>, rdp: seq<(real, real)> -> seq<(real, real)>) returns (result: seq<Coord>)
    ensures |coords| < 3 ==> result == coords
    ensures |coords| >= 3 ==> result == MapBack(rdp(Positions(coords)), coords)
    ensures forall c :: c in result ==> c in coords
  {
    if |coords| < 3 {
      return coords;
    }
    var simplified := rdp(Positions(coords));
    result := [];
    for s := 0 to |simplified|
      invariant result + MapBack(simplified[s..], coords) == MapBack(simplified, coords)
    {
      var sp := simplified[s];
      var found := FindPosition(coords, sp.0, sp.1);
      MapBackStep(simplified, s, coords);
      if found.Some? {
        result := result + [found.value];
      }
    }
    assert simplified[|simplified|..] == [];
  }

  /** The inner search of simplify_coordinates: the first original point at a position, if any. */
  method FindPosition(coords: seq<Coord>, lat: real, lon: real) returns (found: Option<Coord>)
    ensures found == FirstWithPosition(coords, lat, lon)
  {
    var j := 0;
    while j < |coords|
      invariant 0 <= j <= |coords|
      invariant FirstWithPosition(coords, lat, lon) == FirstWithPosition(coords[j..], lat, lon)
    {
      if coords[j].lat == lat && coords[j].lon == lon {
        return Some(coords[j]);
      }
      assert coords[j..][1..] == coords[j + 1..];
      j := j + 1;
    }
    assert coords[j..] == [];
    return None;
  }

  /** Mapping back from position s on is the match for position s followed by the rest. */
  lemma MapBackStep(simplified: seq<(real, real)>, s: nat, coords: seq<Coord>)
    requires s < |simplified|
    ensures var head := FirstWithPosition(coords, simplified[s].0, simplified[s].1);
            MapBack(simplified[s..], coords) == (if head.Some? then [head.value] else []) + MapBack(simplified[s + 1..], coords)
  {
    assert simplified[s..][1..] == simplified[s + 1..];
  }

  // -------------------------------------------------------------- parsing

  /** A track point as the GPX parser delivers it; times are seconds on a common clock. */
  datatype TrackPoint = TrackPoint(lat: real, lon: real, elevation: Option<real>, time: Option<real>)

  /** The elevation stored for a point: a missing or zero elevation is stored as 0. */
  function StoredElevation(p: TrackPoint): real
  {
    if p.elevation.Some? then p.elevation.value else 0.0
  }

  function ToCoord(p: TrackPoint): Coord
  {
    Coord(p.lat, p.lon, StoredElevation(p))
  }

  /** The route points in file order (tracks and segments already flattened in order). */
  function RouteOf(points: seq<TrackPoint>): (coords: seq<Coord>)
    ensures |coords| == |points| && forall i :: 0 <= i < |points| ==> coords[i] == ToCoord(points[i])
  {
    seq(|points|, i requires 0 <= i < |points| => ToCoord(points[i]))
  }

  /** Total 3-D length over the first n points. */
  function TrackDistance(points: seq<TrackPoint>, n: nat, d3: Distance3d): (d: real)
    requires n <= |points|
    ensures d >= 0.0
  {
    if n <= 1 then 0.0 else TrackDistance(points, n - 1, d3) + d3(ToCoord(points[n - 2]), ToCoord(points[n - 1]))
  }

  /** The raw elevation change into point i, counted only when both ends carry an elevation. */
  function RawStep(points: seq<TrackPoint>, i: nat): Option<real>
    requires 1 <= i < |points|
  {
    if points[i - 1].elevation.Some? && points[i].elevation.Some?
    then Some(points[i].elevation.value - points[i - 1].elevation.value)
    else None
  }

  function TrackGain(points: seq<TrackPoint>, n: nat): (g: real)
    requires n <= |points|
    ensures g >= 0.0
  {
    if n <= 1 then 0.0
    else
      var step := RawStep(points, n - 1);
      TrackGain(points, n - 1) + (if step.Some? && step.value > 0.0 then step.value else 0.0)
  }

  function TrackLoss(points: seq<TrackPoint>, n: nat): (l: real)
    requires n <= |points|
    ensures l >= 0.0
  {
    if n <= 1 then 0.0
    else
      var step := RawStep(points, n - 1);
      TrackLoss(points, n - 1) + (if step.Some? && step.value <= 0.0 then -step.value else 0.0)
  }

  /** Number of points among the first n that carry a time. */
  function TimedCount(points: seq<TrackPoint>, n: nat): (c: nat)
    requires n <= |points|
    ensures c <= n
  {
    if n == 0 then 0 else TimedCount(points, n - 1) + (if points[n - 1].time.Some? then 1 else 0)
  }

  /** The first time carried by any of the first n points. */
  function FirstTime(points: seq<TrackPoint>, n: nat): (t: Option<real>)
    requires n <= |points|
    ensures t.Some? <==> TimedCount(points, n) > 0
  {
    if n == 0 then None
    else if FirstTime(points, n - 1).Some? then FirstTime(points, n - 1)
    else points[n - 1].time
  }

  /** The last time carried by any of the first n points. */
  function LastTime(points: seq<TrackPoint>, n: nat): (t: Option<real>)
    requires n <= |points|
    ensures t.Some? <==> TimedCount(points, n) > 0
  {
    if n == 0 then None
    else if points[n - 1].time.Some? then points[n - 1].time
    else LastTime(points, n - 1)
  }

  /** Lowest stored elevation among the first n points (None for no points). */
  function MinElevation(points: seq<TrackPoint>, n: nat): (m: Option<real>)
    requires n <= |points|
    ensures m.Some? <==> n > 0
  {
    if n == 0 then None
    else
      var rest := MinElevation(points, n - 1);
      var e := StoredElevation(points[n - 1]);
      if rest.None? || e < rest.value then Some(e) else rest
  }

  /** Highest stored elevation among the first n points (None for no points). */
  function MaxElevation(points: seq<TrackPoint>, n: nat): (m: Option<real>)
    requires n <= |points|
    ensures m.Some? <==> n > 0
  {
    if n == 0 then None
    else
      var rest := MaxElevation(points, n - 1);
      var e := StoredElevation(points[n - 1]);
      if rest.None? || e > rest.value then Some(e) else rest
  }

  /** The running minimum and maximum bound every stored elevation and are attained by some point. */
  lemma {:induction false} ElevationRange(points: seq<TrackPoint>, n: nat)
    requires 0 < n <= |points|
    ensures forall i :: 0 <= i < n ==> MinElevation(points, n).value <= StoredElevation(points[i]) <= MaxElevation(points, n).value
    ensures exists i :: 0 <= i < n && MinElevation(points, n).value == StoredElevation(points[i])
    ensures exists i :: 0 <= i < n && MaxElevation(points, n).value == StoredElevation(points[i])
  {
    if n > 1 {
      ElevationRange(points, n - 1);
    }
  }

  /** At least 80% of the points carry a time, and there is at least one point. */
  predicate HasTimestamps(points: seq<TrackPoint>)
  {
    |points| > 0 && (TimedCount(points, |points|) as real / |points| as real) >= 0.8
  }

  /** The 80% rule without division: five timed points for every four points. */
  lemma HasTimestampsRatio(points: seq<TrackPoint>)
    ensures HasTimestamps(points) <==> |points| > 0 && 5 * TimedCount(points, |points|) >= 4 * |points|
  {
    if |points| > 0 {
      RatioAtLeast(TimedCount(points, |points|) as real, |points| as real, 0.8);
    }
  }

  /** A route that passes the 80% rule has a first and a last time. */
  lemma TimedRouteHasEnds(points: seq<TrackPoint>)
    ensures HasTimestamps(points) ==> FirstTime(points, |points|).Some? && LastTime(points, |points|).Some?
  {
    HasTimestampsRatio(points);
  }

  lemma RatioAtLeast(w: real, n: real, c: real)
    requires n > 0.0
    ensures w / n >= c <==> w >= c * n
  {
    var q := w / n;
    assert q * n == w;
    assert (q - c) * n == q * n - c * n;
    if q >= c {
      assert (q - c) * n >= 0.0;
    } else {
      assert (c - q) * n > 0.0;
    }
  }

  /** Statistics gathered in the single pass over the track points. */
  datatype TrackStats = TrackStats(
    coordinates: seq<Coord>,
    totalDistance: real,
    elevationGain: real,
    elevationLoss: real,
    minElevation: Option<real>,
    maxElevation: Option<real>,
    timedPoints: nat,
    firstTime: Option<real>,
    lastTime: Option<real>)

  /** The pass over the points of every segment of every track, in order. */
  method ScanTrack(points: seq<TrackPoint>, d3: Distance3d) returns (st: TrackStats)
    ensures st.coordinates == RouteOf(points)
    ensures st.totalDistance == TrackDistance(points, |points|, d3)
    ensures st.elevationGain == TrackGain(points, |points|)
    ensures st.elevationLoss == TrackLoss(points, |points|)
    ensures st.minElevation == MinElevation(points, |points|)
    ensures st.maxElevation == MaxElevation(points, |points|)
    ensures st.timedPoints == TimedCount(points, |points|)
    ensures st.firstTime == FirstTime(points, |points|)
    ensures st.lastTime == LastTime(points, |points|)
  {
    var coordinates: seq<Coord> := [];
    var total := 0.0;
    var gain := 0.0;
    var loss := 0.0;
    var minEle: Option<real> := None;   // None stands for float('inf')
    var maxEle: Option<real> := None;   // None stands for float('-inf')
    var timed := 0;
    var first: Option<real> := None;
    var last: Option<real> := None;
    for i := 0 to |points|
      invariant coordinates == RouteOf(points)[..i]
      invariant total == TrackDistance(points, i, d3)
      invariant gain == TrackGain(points, i) && loss == TrackLoss(points, i)
      invariant minEle == MinElevation(points, i) && maxEle == MaxElevation(points, i)
      invariant timed == TimedCount(points, i)
      invariant first == FirstTime(points, i) && last == LastTime(points, i)
    {
      var p := points[i];
      var ele := if p.elevation.Some? then p.elevation.value else 0.0;
      assert RouteOf(points)[..i + 1] == RouteOf(points)[..i] + [ToCoord(p)];
      coordinates := coordinates + [Coord(p.lat, p.lon, ele)];
      if p.time.Some? {
        timed := timed + 1;
        if first.None? {
          first := p.time;
        }
        last := p.time;
      }
      if minEle.None? || ele < minEle.value {
        minEle := Some(ele);
      }
      if maxEle.None? || ele > maxEle.value {
        maxEle := Some(ele);
      }
      if i > 0 {
        var prev := points[i - 1];
        ElevationStep(points, i);
        total := total + d3(Coord(prev.lat, prev.lon, StoredElevation(prev)), Coord(p.lat, p.lon, ele));
        if prev.elevation.Some? && p.elevation.Some? {
          var diff := p.elevation.value - prev.elevation.value;
          if diff > 0.0 {
            gain := gain + diff;
          } else {
            loss := loss + (if diff >= 0.0 then diff else -diff);
          }
        }
      }
    }
    st := TrackStats(coordinates, total, gain, loss, minEle, maxEle, timed, first, last);
  }

  /** Climbing and descending into point i, when both ends carry an elevation; nothing otherwise. */
  lemma ElevationStep(points: seq<TrackPoint>, i: nat)
    requires 0 < i < |points|
    ensures var prev, p := points[i - 1], points[i];
            if prev.elevation.Some? && p.elevation.Some? then
              var diff := p.elevation.value - prev.elevation.value;
              && TrackGain(points, i + 1) == TrackGain(points, i) + (if diff > 0.0 then diff else 0.0)
              && TrackLoss(points, i + 1) == TrackLoss(points, i) + (if diff > 0.0 then 0.0 else -diff)
            else
              TrackGain(points, i + 1) == TrackGain(points, i) && TrackLoss(points, i + 1) == TrackLoss(points, i)
  {
    assert RawStep(points, i) == (if points[i - 1].elevation.Some? && points[i].elevation.Some?
      then Some(points[i].elevation.value - points[i - 1].elevation.value) else None);
  }

  /** A latitude/longitude pair. */
  datatype Corner = Corner(lat: real, lon: real)

  /** Everything parse_gpx_file returns. */
  datatype ParsedGpx = ParsedGpx(
    coordinates: seq<Coord>,
    totalDistance: real,
    elevationGain: real,
    elevationLoss: real,
    minElevation: real,
    maxElevation: real,
    boundingBox: (Corner, Corner),
    originalPoints: nat,
    simplifiedPoints: nat,
    hasTimestamps: bool,
    durationMinutes: Option<real>,
    firstTimestamp: Option<real>,
    lastTimestamp: Option<real>)

  /** Reasons parse_gpx_file raises: the parser rejects the file with a message, or there is no point to bound. */
  datatype GpxError = Unparseable(message: string) | EmptyRoute

  /** The ValueError message of min() over an empty list. */
  const EmptyMinMessage: string := "min() arg is an empty sequence"

  /** str(e) of the exception behind a GPX error. */
  function GpxErrorText(e: GpxError): string
  {
    match e
    case Unparseable(m) => m
    case EmptyRoute => EmptyMinMessage
  }

  /** Smallest and largest latitude and longitude of a non-empty route. */
  function BoundingBox(coords: seq<Coord>): (box: (Corner, Corner))
    requires |coords| > 0
    ensures forall c :: c in coords ==> box.0.lat <= c.lat <= box.1.lat && box.0.lon <= c.lon <= box.1.lon
    ensures exists c :: c in coords && c.lat == box.0.lat
    ensures exists c :: c in coords && c.lon == box.0.lon
    ensures exists c :: c in coords && c.lat == box.1.lat
    ensures exists c :: c in coords && c.lon == box.1.lon
  {
    if |coords| == 1 then
      assert coords[0] in coords;
      (Corner(coords[0].lat, coords[0].lon), Corner(coords[0].lat, coords[0].lon))
    else
      var rest := BoundingBox(coords[1..]);
      var c := coords[0];
      assert c in coords;
      assert forall x :: x in coords ==> x == c || x in coords[1..];
      assert forall x :: x in coords[1..] ==> x in coords;
      (Corner(if c.lat < rest.0.lat then c.lat else rest.0.lat, if c.lon < rest.0.lon then c.lon else rest.0.lon),
       Corner(if c.lat > rest.1.lat then c.lat else rest.1.lat, if c.lon > rest.1.lon then c.lon else rest.1.lon))
  }

  /**
   * parse_gpx_file, after the GPX parser: the single pass, the 80% timestamp
   * rule, the duration between first and last time in minutes, the simplified
   * route, and its bounding box, which raises when the simplified route is empty.
   */
  method ParseGpxFile(parsed: Result<seq<TrackPoint>, string>, d3: Distance3d, rdp: seq<(real, real)> -> seq<(real, real)>)
    returns (r: Result<ParsedGpx, GpxError>)
    ensures parsed.Failure? ==> r == Failure(Unparseable(parsed.error))
    ensures parsed.Success? && |SimplifiedRoute(parsed.value, rdp)| == 0 ==> r == Failure(EmptyRoute)
    ensures parsed.Success? && |parsed.value| == 0 ==> r == Failure(EmptyRoute)
    ensures parsed.Success? && |SimplifiedRoute(parsed.value, rdp)| > 0 ==> r.Success?
    ensures r.Success? ==> parsed.Success? && ParsedFrom(r.value, parsed.value, d3, rdp)
  {
    if parsed.Failure? {
      return Failure(Unparseable(parsed.error));
    }
    var points := parsed.value;
    var st := ScanTrack(points, d3);
    var hasTimestamps := if |points| > 0 then (st.timedPoints as real / |points| as real) >= 0.8 else false;
    var duration := TimedDuration(hasTimestamps, st.firstTime, st.lastTime);
    var simplified := SimplifyCoordinates(st.coordinates, rdp);
    assert simplified == SimplifiedRoute(points, rdp);
    NoPointsNoRoute(points, rdp);
    if |simplified| == 0 {
      return Failure(EmptyRoute);
    }
    assert hasTimestamps == HasTimestamps(points);
    var g := ParsedGpx(
      simplified, st.totalDistance, st.elevationGain, st.elevationLoss,
      if st.minElevation.Some? then st.minElevation.value else 0.0,
      if st.maxElevation.Some? then st.maxElevation.value else 0.0,
      BoundingBox(simplified), |st.coordinates|, |simplified|,
      hasTimestamps, duration, st.firstTime, st.lastTime);
    assert g == ParsedGpxOf(points, d3, rdp);
    r := Success(g);
  }

  /** A track without points has an empty route, and a non-empty route comes from some points. */
  lemma NoPointsNoRoute(points: seq<TrackPoint>, rdp: seq<(real, real)> -> seq<(real, real)>)
    ensures |points| == 0 <==> |RouteOf(points)| == 0
    ensures |points| == 0 ==> |SimplifiedRoute(points, rdp)| == 0
  {
  }

  /** The simplified route parse_gpx_file keeps for a list of points. */
  function SimplifiedRoute(points: seq<TrackPoint>, rdp: seq<(real, real)> -> seq<(real, real)>): seq<Coord>
  {
    var coords := RouteOf(points);
    if |coords| < 3 then coords else MapBack(rdp(Positions(coords)), coords)
  }

  /**
   * What parse_gpx_file returns for a list of points whose simplified route
   * is not empty: every statistic by its definition over the points, the
   * duration only under the 80% rule, and the bounding box of the
   * simplified route.
   */
  function ParsedGpxOf(points: seq<TrackPoint>, d3: Distance3d, rdp: seq<(real, real)> -> seq<(real, real)>): ParsedGpx
    requires |SimplifiedRoute(points, rdp)| > 0
  {
    var route := SimplifiedRoute(points, rdp);
    var n := |points|;
    var first := FirstTime(points, n);
    var last := LastTime(points, n);
    ParsedGpx(
      route, TrackDistance(points, n, d3), TrackGain(points, n), TrackLoss(points, n),
      if MinElevation(points, n).Some? then MinElevation(points, n).value else 0.0,
      if MaxElevation(points, n).Some? then MaxElevation(points, n).value else 0.0,
      BoundingBox(route), n, |route|, HasTimestamps(points),
      TimedDuration(HasTimestamps(points), first, last), first, last)
  }

  /** The minutes between the first and last timestamps, when the track counts as timed and has both. */
  function TimedDuration(timed: bool, first: Option<real>, last: Option<real>): (d: Option<real>)
    ensures d.Some? <==> timed && first.Some? && last.Some?
    ensures d.Some? ==> d.value * 60.0 == last.value - first.value
  {
    if timed && first.Some? && last.Some? then Some((last.value - first.value) / 60.0) else None
  }

  /** g is what a successful parse of the points returns. */
  predicate ParsedFrom(g: ParsedGpx, points: seq<TrackPoint>, d3: Distance3d, rdp: seq<(real, real)> -> seq<(real, real)>)
  {
    |SimplifiedRoute(points, rdp)| > 0 && g == ParsedGpxOf(points, d3, rdp)
  }

  /** A successful parse has a duration exactly when at least 80% of the points are timed, and its elevation range is ordered. */
  lemma ParsedStatistics(g: ParsedGpx, points: seq<TrackPoint>, d3: Distance3d, rdp: seq<(real, real)> -> seq<(real, real)>)
    requires ParsedFrom(g, points, d3, rdp)
    ensures g.durationMinutes.Some? <==> 5 * TimedCount(points, |points|) >= 4 * |points|
    ensures g.minElevation <= g.maxElevation
    ensures g.totalDistance >= 0.0 && g.elevationGain >= 0.0 && g.elevationLoss >= 0.0
    ensures |points| < 3 ==> g.simplifiedPoints == g.originalPoints
  {
    NoPointsNoRoute(points, rdp);
    TimedRouteHasEnds(points);
    HasTimestampsRatio(points);
    ElevationRange(points, |points|);
  }

  // ----------------------------------------------------------- conversions

  const MetersPerMile: real := 1609.34
  const MetersPerKilometer: real := 1000.0

  function MetersToMiles(meters: real): (miles: real)
    ensures miles * MetersPerMile == meters
  {
    meters / MetersPerMile
  }

  function MetersToKilometers(meters: real): (km: real)
    ensures km * MetersPerKilometer == meters
  {
    meters / MetersPerKilometer
  }

  function MilesToMeters(miles: real): real
  {
    miles * MetersPerMile
  }

  function KilometersToMeters(km: real): real
  {
    km * MetersPerKilometer
  }

  /** Over exact reals each conversion is undone by its inverse. */
  lemma ConversionRoundTrips(meters: real, miles: real, km: real)
    ensures MilesToMeters(MetersToMiles(meters)) == meters
    ensures KilometersToMeters(MetersToKilometers(meters)) == meters
    ensures MetersToMiles(MilesToMeters(miles)) == miles
    ensures MetersToKilometers(KilometersToMeters(km)) == km
  {
  }
}
