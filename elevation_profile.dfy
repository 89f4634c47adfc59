// The elevation profile chart (frontend/src/components/ElevationProfile.tsx):
// the cumulative-distance profile of the route in miles and feet, the
// sampling down to at most 500 points, and the waypoint markers placed on
// the sampled point closest in distance. The chart drawing itself is not
// part of the model.

module ElevationProfile {
  import opened Wrappers
  import opened Strings
  import opened Geometry
  import opened UiTypes
  import Store

  const MetersPerMile: real := 1609.34
  const FeetPerMeter: real := 3.28084
  const MaxPoints: nat := 500

  /** A profile point: miles from the start and elevation in feet. */
  datatype ProfilePoint = ProfilePoint(distance: real, elevation: real)

  /** The profile of a route: one point per coordinate. */
  function ProfileOf(coords: seq<Coord>, hav: GreatCircle): seq<ProfilePoint>
  {
    seq(|coords|, i requires 0 <= i < |coords| =>
      ProfilePoint(AlongRoute(coords, i, hav) / MetersPerMile, coords[i].ele * FeetPerMeter))
  }

  /** The forEach that accumulates segment lengths and pushes one point per coordinate. */
  method BuildProfile(coords: seq<Coord>, hav: GreatCircle) returns (data: seq<ProfilePoint>)
    ensures data == ProfileOf(coords, hav)
  {
    data := [];
    var cumulative := 0.0;
    var index := 0;
    while index < |coords|
      invariant 0 <= index <= |coords| && |data| == index
      invariant index > 0 ==> cumulative == AlongRoute(coords, index - 1, hav)
      invariant index == 0 ==> cumulative == 0.0
      invariant forall k :: 0 <= k < index ==> data[k] == ProfileOf(coords, hav)[k]
    {
      if index > 0 {
        var prev := coords[index - 1];
        var distance := hav(prev.lat, prev.lon, coords[index].lat, coords[index].lon);
        cumulative := cumulative + distance;
      }
      data := data + [ProfilePoint(cumulative / MetersPerMile, coords[index].ele * FeetPerMeter)];
      index := index + 1;
    }
  }

  /** Profile distances start at 0 and never decrease. */
  lemma ProfileStartsAtZeroAndGrows(coords: seq<Coord>, hav: GreatCircle)
    ensures |coords| > 0 ==> ProfileOf(coords, hav)[0].distance == 0.0
    ensures forall i, j :: 0 <= i <= j < |coords| ==>
              ProfileOf(coords, hav)[i].distance <= ProfileOf(coords, hav)[j].distance
  {
    var p := ProfileOf(coords, hav);
    forall i, j | 0 <= i <= j < |coords|
      ensures p[i].distance <= p[j].distance
    {
      AlongRouteMonotone(coords, i, j, hav);
    }
  }

  // ------------------------------------------------------------------ sampling

  /** `Math.ceil(n / 500)` */
  function SampleRate(n: nat): (rate: nat)
    requires n > 0
    ensures rate >= 1 && n <= rate * MaxPoints && (rate - 1) * MaxPoints < n
  {
    (n + MaxPoints - 1) / MaxPoints
  }

  /** The indices from i on that `index % rate === 0` keeps, in order. */
  function KeptIndices(n: nat, rate: nat, i: nat): (ks: seq<nat>)
    requires rate > 0
    ensures forall k :: 0 <= k < |ks| ==> i <= ks[k] < n && ks[k] % rate == 0
    ensures forall k, l :: 0 <= k < l < |ks| ==> ks[k] < ks[l]
    ensures forall m :: i <= m < n && m % rate == 0 ==> m in ks
    decreases n - i
  {
    if i >= n then []
    else (if i % rate == 0 then [i] else []) + KeptIndices(n, rate, i + 1)
  }

  /** `data.filter((_, index) => index % rate === 0)` */
  function Sample(data: seq<ProfilePoint>, rate: nat): seq<ProfilePoint>
    requires rate > 0
  {
    var ks := KeptIndices(|data|, rate, 0);
    seq(|ks|, k requires 0 <= k < |ks| => data[ks[k]])
  }

  /** Distinct multiples of r are at least r apart. */
  lemma MultiplesApart(a: nat, b: nat, r: nat)
    requires r > 0 && a % r == 0 && b % r == 0 && a < b
    ensures a + r <= b
  {
    var qa, qb := a / r, b / r;
    assert a == r * qa && b == r * qb;
    assert qa < qb by {
      if qb <= qa {
        MulMonotone(r, qb, qa);
      }
    }
    MulMonotone(r, qa + 1, qb);
  }

  lemma MulMonotone(r: nat, x: int, y: int)
    requires x <= y
    ensures r * x <= r * y
  {
    assert r * y - r * x == r * (y - x);
  }

  /** The k-th kept index is at least k times the rate. */
  lemma {:induction false} KeptIndicesSpread(ks: seq<nat>, rate: nat, k: nat)
    requires rate > 0 && k < |ks|
    requires forall j :: 0 <= j < |ks| ==> ks[j] % rate == 0
    requires forall j, l :: 0 <= j < l < |ks| ==> ks[j] < ks[l]
    ensures ks[k] >= k * rate
  {
    if k > 0 {
      KeptIndicesSpread(ks, rate, k - 1);
      MultiplesApart(ks[k - 1], ks[k], rate);
    }
  }

  /**
   * Sampling a profile of n > 0 points keeps the first point and at most
   * 500 points, each one whose index is a multiple of the rate.
   */
  lemma SampleKeepsFirstAndAtMost500(n: nat)
    requires n > 0
    ensures var ks := KeptIndices(n, SampleRate(n), 0);
            && 1 <= |ks| <= MaxPoints && ks[0] == 0
  {
    var rate := SampleRate(n);
    var ks := KeptIndices(n, rate, 0);
    assert 0 in ks;
    var z :| 0 <= z < |ks| && ks[z] == 0;
    assert z > 0 ==> ks[0] < ks[z];
    var last := |ks| - 1;
    KeptIndicesSpread(ks, rate, last);
    assert last * rate < MaxPoints * rate;
    assert last < MaxPoints by {
      if last >= MaxPoints {
        MulMonotone(rate, MaxPoints, last);
      }
    }
  }

  // ---------------------------------------------------------- waypoint markers

  function Abs(x: real): real
  {
    if x < 0.0 then -x else x
  }

  function Gap(p: ProfilePoint, target: real): real
  {
    Abs(p.distance - target)
  }

  /**
   * The reduce that keeps the running closest point, replacing it only when
   * a later point is strictly closer.
   */
  function ClosestFrom(samples: seq<ProfilePoint>, target: real, best: nat, i: nat): (r: nat)
    requires best <= i <= |samples| && best < |samples|
    requires forall j :: 0 <= j < i ==> Gap(samples[best], target) <= Gap(samples[j], target)
    requires forall j :: 0 <= j < best ==> Gap(samples[j], target) > Gap(samples[best], target)
    ensures r < |samples|
    ensures forall j :: 0 <= j < |samples| ==> Gap(samples[r], target) <= Gap(samples[j], target)
    ensures forall j :: 0 <= j < r ==> Gap(samples[j], target) > Gap(samples[r], target)
    decreases |samples| - i
  {
    if i == |samples| then best
    else if Gap(samples[i], target) < Gap(samples[best], target) then ClosestFrom(samples, target, i, i + 1)
    else ClosestFrom(samples, target, best, i + 1)
  }

  /** `samples.reduce(..., samples[0])`: the earliest of the points closest to the target. */
  function Closest(samples: seq<ProfilePoint>, target: real): (r: nat)
    requires |samples| > 0
    ensures r < |samples|
    ensures forall j :: 0 <= j < |samples| ==> Gap(samples[r], target) <= Gap(samples[j], target)
    ensures forall j :: 0 <= j < r ==> Gap(samples[j], target) > Gap(samples[r], target)
  {
    ClosestFrom(samples, target, 0, 0)
  }

  datatype Marker = Marker(x: real, y: real, caption: string, kind: Store.WaypointType)

  /**
   * `wp.name || `WP${wp.order_index}``. The backend gives every waypoint an
   * order index (create_waypoint and the START and FINISH of an upload), so
   * a missing one does not come from the API; the model prints it as the
   * template prints an absent field, "undefined".
   */
  function MarkerLabel(w: UiWaypoint): (caption: string)
    ensures w.name.Some? && w.name.value != "" ==> caption == w.name.value
    ensures (w.name.None? || w.name.value == "") && w.orderIndex.Some? ==>
              caption == "WP" + IntToString(w.orderIndex.value)
    ensures (w.name.None? || w.name.value == "") && w.orderIndex.None? ==> caption == "WPundefined"
  {
    if w.name.Some? && w.name.value != "" then w.name.value
    else "WP" + (if w.orderIndex.Some? then IntToString(w.orderIndex.value) else "undefined")
  }

  /** An unnamed waypoint's label reads back to its order index after the "WP". */
  lemma UnnamedLabelShowsOrder(w: UiWaypoint)
    requires w.name.None? || w.name.value == ""
    requires w.orderIndex.Some?
    ensures |MarkerLabel(w)| >= 2 && MarkerLabel(w)[..2] == "WP"
    ensures JsParseInt(MarkerLabel(w)[2..]) == w.orderIndex
  {
    assert MarkerLabel(w)[2..] == IntToString(w.orderIndex.value);
    ParseIntOfIntToString(w.orderIndex.value);
  }

  /**
   * A waypoint's marker: at its distance in miles, at the elevation of the
   * closest sampled point, or, when that elevation is 0, at its own
   * elevation in feet (0 when it has none).
   */
  function MarkerFor(samples: seq<ProfilePoint>, w: UiWaypoint): (m: Marker)
    requires |samples| > 0
    ensures m.x == OrZero(w.distanceFromStart) / MetersPerMile
    ensures var p := samples[Closest(samples, m.x)];
            && (p.elevation != 0.0 ==> m.y == p.elevation)
            && (p.elevation == 0.0 && !Falsy(w.elevation) ==> m.y == w.elevation.value * FeetPerMeter)
            && (p.elevation == 0.0 && Falsy(w.elevation) ==> m.y == 0.0)
  {
    var x := OrZero(w.distanceFromStart) / MetersPerMile;
    var p := samples[Closest(samples, x)];
    var fallback := if Falsy(w.elevation) then 0.0 else w.elevation.value * FeetPerMeter;
    Marker(x, if p.elevation != 0.0 then p.elevation else fallback, MarkerLabel(w), w.kind)
  }

  // ------------------------------------------------------------------- the chart

  /** A placeholder without a chart, or the sampled profile, the markers and the x-axis maximum. */
  datatype Profile = Placeholder | Chart(points: seq<ProfilePoint>, markers: seq<Marker>, totalDistance: real)

  /** The sampled profile of a non-empty route. */
  function SampledProfile(coords: seq<Coord>, hav: GreatCircle): (s: seq<ProfilePoint>)
    requires |coords| > 0
    ensures 1 <= |s| <= MaxPoints
  {
    SampleKeepsFirstAndAtMost500(|coords|);
    Sample(ProfileOf(coords, hav), SampleRate(|coords|))
  }

  /** `waypoints.map(...)`: one marker per waypoint, in order. */
  function Markers(samples: seq<ProfilePoint>, waypoints: seq<UiWaypoint>): seq<Marker>
    requires |samples| > 0
  {
    seq(|waypoints|, i requires 0 <= i < |waypoints| => MarkerFor(samples, waypoints[i]))
  }

  /**
   * The component: a placeholder when the route has no coordinates;
   * otherwise the sampled profile, one marker per waypoint and, as the total
   * distance, the distance of the last sampled point.
   */
  method RenderProfile(route: Option<RouteData>, waypoints: seq<UiWaypoint>, hav: GreatCircle) returns (p: Profile)
    ensures route.None? || route.value.coordinates.None? || |route.value.coordinates.value| == 0 <==> p == Placeholder
    ensures p.Chart? ==>
              var samples := SampledProfile(route.value.coordinates.value, hav);
              && p.points == samples
              && p.markers == Markers(samples, waypoints)
              && p.totalDistance == samples[|samples| - 1].distance
  {
    if route.None? || route.value.coordinates.None? || |route.value.coordinates.value| == 0 {
      return Placeholder;
    }
    var coords := route.value.coordinates.value;
    var data := BuildProfile(coords, hav);
    var samples := Sample(data, SampleRate(|data|));
    assert samples == SampledProfile(coords, hav);
    var last := samples[|samples| - 1].distance;
    p := Chart(samples, Markers(samples, waypoints), if last != 0.0 then last else 0.0);
  }

  /**
   * The sampled profile starts at distance 0, never decreases, has at most
   * 500 points, and its last distance, the chart's total, is at most the
   * length of the route in miles.
   */
  lemma SampledProfileShape(coords: seq<Coord>, hav: GreatCircle)
    requires |coords| > 0
    ensures var s := SampledProfile(coords, hav);
            && 1 <= |s| <= MaxPoints
            && s[0] == ProfilePoint(0.0, coords[0].ele * FeetPerMeter)
            && (forall i, j :: 0 <= i <= j < |s| ==> s[i].distance <= s[j].distance)
            && s[|s| - 1].distance <= AlongRoute(coords, |coords| - 1, hav) / MetersPerMile
  {
    var n := |coords|;
    var rate := SampleRate(n);
    var ks := KeptIndices(n, rate, 0);
    var p := ProfileOf(coords, hav);
    var s := SampledProfile(coords, hav);
    SampleKeepsFirstAndAtMost500(n);
    ProfileStartsAtZeroAndGrows(coords, hav);
    forall i, j | 0 <= i <= j < |s|
      ensures s[i].distance <= s[j].distance
    {
      assert ks[i] <= ks[j];
      assert s[i] == p[ks[i]] && s[j] == p[ks[j]];
    }
    assert s[|s| - 1] == p[ks[|s| - 1]];
    assert p[ks[|s| - 1]].distance <= p[n - 1].distance;
  }
}
