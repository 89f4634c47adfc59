// The leg table's waypoint editing (frontend/src/components/LegsTable.tsx):
// locating the route point at a distance along the route, the guards and the
// order-index rule of adding a waypoint at a distance, the guards of moving
// a waypoint, and the guard on deleting one. The handlers' effects on React
// state and their alerts are modelled as the outcome they return.

module LegsTable {
  import opened Wrappers
  import opened Numbers
  import opened Strings
  import opened Geometry
  import opened UiTypes
  import Store
  import WaypointRoutes

  const MetersPerMile: real := 1609.34

  // ------------------------------------------------- findCoordinatesAtDistance

  /** What findCoordinatesAtDistance yields. */
  datatype Located =
    | NoCoordinates       // null: the route has no coordinate list
    | EmptyCoordinates    // an empty list: reading the last point throws a TypeError
    | NonNumeric          // a zero-length segment was divided by: the fields are NaN or infinite
    | Located(point: Coord)

  /** The point a fraction `ratio` of the way from a to b. */
  function Interpolate(a: Coord, b: Coord, ratio: real): Coord
  {
    Coord(a.lat + (b.lat - a.lat) * ratio, a.lon + (b.lon - a.lon) * ratio, a.ele + (b.ele - a.ele) * ratio)
  }

  /** Segment i (from point i - 1 to point i) is the first whose end is at least `target` along the route. */
  predicate IsFirstReaching(coords: seq<Coord>, i: nat, target: real, hav: GreatCircle)
  {
    && 1 <= i < |coords|
    && AlongRoute(coords, i, hav) >= target
    && forall j :: 1 <= j < i ==> AlongRoute(coords, j, hav) < target
  }

  /** The point at `target` within segment i, by linear interpolation. */
  function PointAt(coords: seq<Coord>, i: nat, target: real, hav: GreatCircle): Located
    requires 1 <= i < |coords|
  {
    var segment := SegmentLength(coords, i, hav);
    if segment == 0.0 then NonNumeric
    else Located(Interpolate(coords[i - 1], coords[i], (target - AlongRoute(coords, i - 1, hav)) / segment))
  }

  /** The scan from segment i on: the first segment reaching the target, or the last point. */
  function LocateFrom(coords: seq<Coord>, target: real, hav: GreatCircle, i: nat): Located
    requires 1 <= i <= |coords|
    decreases |coords| - i
  {
    if i == |coords| then Located(coords[|coords| - 1])
    else if AlongRoute(coords, i, hav) >= target then PointAt(coords, i, target, hav)
    else LocateFrom(coords, target, hav, i + 1)
  }

  /** findCoordinatesAtDistance as a function of the route and the target distance in meters. */
  function Locate(route: Option<RouteData>, target: real, hav: GreatCircle): Located
  {
    if route.None? || route.value.coordinates.None? then NoCoordinates
    else if |route.value.coordinates.value| == 0 then EmptyCoordinates
    else LocateFrom(route.value.coordinates.value, target, hav, 1)
  }

  /**
   * findCoordinatesAtDistance: walks the segments accumulating their
   * great-circle lengths and interpolates within the first one that reaches
   * the target; past the end of the route, the last point.
   */
  method FindCoordinatesAtDistance(route: Option<RouteData>, target: real, hav: GreatCircle) returns (r: Located)
    ensures r == Locate(route, target, hav)
  {
    if route.None? || route.value.coordinates.None? {
      return NoCoordinates;
    }
    var coords := route.value.coordinates.value;
    if |coords| == 0 {
      return EmptyCoordinates;
    }
    var cumulative := 0.0;
    var i := 1;
    while i < |coords|
      invariant 1 <= i <= |coords|
      invariant cumulative == AlongRoute(coords, i - 1, hav)
      invariant LocateFrom(coords, target, hav, 1) == LocateFrom(coords, target, hav, i)
    {
      var segment := hav(coords[i - 1].lat, coords[i - 1].lon, coords[i].lat, coords[i].lon);
      if cumulative + segment >= target {
        if segment == 0.0 {
          return NonNumeric;
        }
        var ratio := (target - cumulative) / segment;
        return Located(Interpolate(coords[i - 1], coords[i], ratio));
      }
      cumulative := cumulative + segment;
      i := i + 1;
    }
    r := Located(coords[|coords| - 1]);
  }

  /**
   * The scan picks the first segment whose end reaches the target, and the
   * last point when no segment does.
   */
  lemma {:induction false} LocateChoosesFirstReaching(coords: seq<Coord>, target: real, hav: GreatCircle, k: nat)
    requires 1 <= k <= |coords|
    requires forall j :: 1 <= j < k ==> AlongRoute(coords, j, hav) < target
    ensures forall i :: k <= i && IsFirstReaching(coords, i, target, hav) ==>
              LocateFrom(coords, target, hav, 1) == PointAt(coords, i, target, hav)
    ensures (forall j :: 1 <= j < |coords| ==> AlongRoute(coords, j, hav) < target) ==>
              LocateFrom(coords, target, hav, 1) == Located(coords[|coords| - 1])
    decreases |coords| - k
  {
    LocateFromSkips(coords, target, hav, k);
    if k < |coords| && AlongRoute(coords, k, hav) < target {
      LocateChoosesFirstReaching(coords, target, hav, k + 1);
    }
  }

  /** Segments that fall short of the target are skipped. */
  lemma {:induction false} LocateFromSkips(coords: seq<Coord>, target: real, hav: GreatCircle, k: nat)
    requires 1 <= k <= |coords|
    requires forall j :: 1 <= j < k ==> AlongRoute(coords, j, hav) < target
    ensures LocateFrom(coords, target, hav, 1) == LocateFrom(coords, target, hav, k)
    decreases k
  {
    if k > 1 {
      LocateFromSkips(coords, target, hav, k - 1);
      assert AlongRoute(coords, k - 1, hav) < target;
    }
  }

  /** Between a and b, in either order. */
  predicate Between(x: real, a: real, b: real)
  {
    (a <= x <= b) || (b <= x <= a)
  }

  /** A fraction in [0, 1] of a difference lies between 0 and the difference. */
  lemma ScaleWithin(d: real, t: real)
    requires 0.0 <= t <= 1.0
    ensures d >= 0.0 ==> 0.0 <= d * t <= d
    ensures d < 0.0 ==> d <= d * t <= 0.0
  {
    assert d * t + d * (1.0 - t) == d;
    if d >= 0.0 {
      assert d * (1.0 - t) >= 0.0;
    } else {
      assert (-d) * t >= 0.0;
      assert (-d) * (1.0 - t) >= 0.0;
    }
  }

  lemma LerpBetween(a: real, b: real, t: real)
    requires 0.0 <= t <= 1.0
    ensures Between(a + (b - a) * t, a, b)
  {
    var d := b - a;
    ScaleWithin(d, t);
    var x := a + d * t;
    if d >= 0.0 {
      assert a <= x <= b;
    } else {
      assert b <= x <= a;
    }
  }

  /**
   * For a target that is not negative, the interpolation ratio lies in
   * [0, 1], so the point lies between the segment's endpoints in latitude,
   * longitude and elevation; a target exactly at the segment's end gives
   * that end point.
   */
  lemma InterpolationWithinSegment(coords: seq<Coord>, i: nat, target: real, hav: GreatCircle)
    requires target >= 0.0 && IsFirstReaching(coords, i, target, hav) && SegmentLength(coords, i, hav) > 0.0
    ensures PointAt(coords, i, target, hav).Located?
    ensures var p := PointAt(coords, i, target, hav).point;
            && Between(p.lat, coords[i - 1].lat, coords[i].lat)
            && Between(p.lon, coords[i - 1].lon, coords[i].lon)
            && Between(p.ele, coords[i - 1].ele, coords[i].ele)
    ensures target == AlongRoute(coords, i, hav) ==> PointAt(coords, i, target, hav) == Located(coords[i])
  {
    var segment := SegmentLength(coords, i, hav);
    var before := AlongRoute(coords, i - 1, hav);
    assert i > 1 ==> before < target;
    var ratio := (target - before) / segment;
    assert 0.0 <= target - before <= segment;
    UnitRatio(target - before, segment);
    LerpBetween(coords[i - 1].lat, coords[i].lat, ratio);
    LerpBetween(coords[i - 1].lon, coords[i].lon, ratio);
    LerpBetween(coords[i - 1].ele, coords[i].ele, ratio);
    if target == AlongRoute(coords, i, hav) {
      assert ratio == 1.0;
    }
  }

  /**
   * A non-numeric result needs a zero-length first segment and a target of
   * at most 0: any later segment chosen is preceded by one falling short of
   * the target, so it has positive length.
   */
  lemma NonNumericOnlyAtStart(coords: seq<Coord>, i: nat, target: real, hav: GreatCircle)
    requires IsFirstReaching(coords, i, target, hav)
    ensures PointAt(coords, i, target, hav).NonNumeric? ==> i == 1 && target <= 0.0
  {
    assert i > 1 ==> AlongRoute(coords, i - 1, hav) < target;
  }

  // ----------------------------------------------------- handleAddWaypoint

  /** The add-waypoint form: every field is the text typed in. */
  datatype AddForm = AddForm(distance: string, name: string, kind: Store.WaypointType, stopTime: string, comments: string)

  /** The waypoint handed to onWaypointCreate; a None position stands for NaN coordinates. */
  datatype NewWaypoint = NewWaypoint(
    name: string,
    kind: Store.WaypointType,
    position: Option<Coord>,
    distanceFromStart: real,
    orderIndex: int,
    stopTime: int,
    comments: string)

  /** An alert and no call, an uncaught TypeError, or a call of onWaypointCreate. */
  datatype AddOutcome = AddRejected(message: string) | AddCrashed | Create(waypoint: NewWaypoint)

  /** `routeData?.metadata?.total_distance_meters || 0` */
  function RouteLength(route: Option<RouteData>): (total: real)
    ensures route.None? ==> total == 0.0
    ensures route.Some? ==> total == OrZero(route.value.totalDistance)
  {
    if route.None? then 0.0 else OrZero(route.value.totalDistance)
  }

  function ExceedsMessage(total: real, fixed: ToFixed): string
  {
    "Distance cannot exceed route length (" + fixed(total / MetersPerMile, 2) + " mi)"
  }

  const NoCoordinatesMessage := "Could not find coordinates at this distance"

  /** The sort key: the distance from start, 0 when missing. */
  function Key(w: UiWaypoint): real
  {
    OrZero(w.distanceFromStart)
  }

  predicate SortedByKey(ws: seq<UiWaypoint>)
  {
    forall i, j :: 0 <= i < j < |ws| ==> Key(ws[i]) <= Key(ws[j])
  }

  /** Inserting after every waypoint that does not come later, as a stable sort does. */
  function InsertStable(w: UiWaypoint, ws: seq<UiWaypoint>): (r: seq<UiWaypoint>)
    ensures multiset(r) == multiset(ws) + multiset{w}
  {
    if |ws| == 0 then [w]
    else if Key(w) < Key(ws[0]) then [w] + ws
    else
      assert ws == [ws[0]] + ws[1..];
      [ws[0]] + InsertStable(w, ws[1..])
  }

  lemma {:induction false} InsertStableSorted(w: UiWaypoint, ws: seq<UiWaypoint>)
    requires SortedByKey(ws)
    ensures SortedByKey(InsertStable(w, ws))
    decreases |ws|
  {
    if |ws| > 0 && Key(w) >= Key(ws[0]) {
      var rest := InsertStable(w, ws[1..]);
      InsertStableSorted(w, ws[1..]);
      var r := InsertStable(w, ws);
      assert r == [ws[0]] + rest;
      forall j | 0 < j < |r|
        ensures Key(ws[0]) <= Key(r[j])
      {
        assert r[j] == rest[j - 1];
        assert r[j] in multiset(rest);
        if r[j] != w {
          assert r[j] in multiset(ws[1..]);
          var k :| 0 <= k < |ws[1..]| && ws[1..][k] == r[j];
          assert ws[k + 1] == r[j];
        }
      }
    }
  }

  /** The waypoints of s whose sort key is x, in their order in s. */
  function WithKey(s: seq<UiWaypoint>, x: real): seq<UiWaypoint>
  {
    if |s| == 0 then []
    else WithKey(s[..|s| - 1], x) + (if Key(s[|s| - 1]) == x then [s[|s| - 1]] else [])
  }

  lemma {:induction false} WithKeyAppend(a: seq<UiWaypoint>, b: seq<UiWaypoint>, x: real)
    ensures WithKey(a + b, x) == WithKey(a, x) + WithKey(b, x)
    decreases |b|
  {
    if |b| == 0 {
      assert a + b == a;
    } else {
      var c := a + b;
      assert c[..|c| - 1] == a + b[..|b| - 1] && c[|c| - 1] == b[|b| - 1];
      WithKeyAppend(a, b[..|b| - 1], x);
    }
  }

  lemma {:induction false} WithKeyNone(s: seq<UiWaypoint>, x: real)
    requires forall i :: 0 <= i < |s| ==> Key(s[i]) != x
    ensures WithKey(s, x) == []
    decreases |s|
  {
    if |s| > 0 {
      WithKeyNone(s[..|s| - 1], x);
    }
  }

  /** A one-waypoint sequence keeps its waypoint exactly for its own key. */
  lemma WithKeySingle(w: UiWaypoint, x: real)
    ensures WithKey([w], x) == if Key(w) == x then [w] else []
  {
    assert [w][..0] == [];
  }

  /** Putting w before a sorted sequence whose keys all exceed its own adds it after the waypoints of its key. */
  lemma InsertBeforeAll(w: UiWaypoint, ws: seq<UiWaypoint>, x: real)
    requires forall i :: 0 <= i < |ws| ==> Key(w) < Key(ws[i])
    ensures WithKey([w] + ws, x) == WithKey(ws, x) + WithKey([w], x)
  {
    WithKeyAppend([w], ws, x);
    WithKeySingle(w, x);
    if Key(w) == x {
      WithKeyNone(ws, x);
    }
  }

  /** Inserting into a sorted sequence places w after every waypoint of its own key. */
  lemma {:induction false} InsertStableWithKey(w: UiWaypoint, ws: seq<UiWaypoint>, x: real)
    requires SortedByKey(ws)
    ensures WithKey(InsertStable(w, ws), x) == WithKey(ws, x) + WithKey([w], x)
    decreases |ws|
  {
    if |ws| == 0 {
      assert InsertStable(w, ws) == [w];
    } else if Key(w) < Key(ws[0]) {
      InsertBeforeAll(w, ws, x);
    } else {
      var rest := ws[1..];
      var tail := InsertStable(w, rest);
      assert InsertStable(w, ws) == [ws[0]] + tail;
      assert WithKey(tail, x) == WithKey(rest, x) + WithKey([w], x) by {
        InsertStableWithKey(w, rest, x);
      }
      assert WithKey(ws, x) == WithKey([ws[0]], x) + WithKey(rest, x) by {
        assert ws == [ws[0]] + rest;
        WithKeyAppend([ws[0]], rest, x);
      }
      WithKeyAppend([ws[0]], tail, x);
      Regroup(WithKey([ws[0]], x), WithKey(rest, x), WithKey([w], x));
    }
  }

  /** The stability step of SortByDistance, for every key at once. */
  lemma InsertLastKeepsOrder(init: seq<UiWaypoint>, last: UiWaypoint, sorted: seq<UiWaypoint>)
    requires SortedByKey(sorted)
    requires forall x :: WithKey(sorted, x) == WithKey(init, x)
    ensures forall x :: WithKey(InsertStable(last, sorted), x) == WithKey(init + [last], x)
  {
    forall x
      ensures WithKey(InsertStable(last, sorted), x) == WithKey(init + [last], x)
    {
      InsertStableWithKey(last, sorted, x);
      WithKeyAppend(init, [last], x);
    }
  }

  /** One step of SortByDistance: inserting the last waypoint into the sorted rest sorts the whole. */
  lemma InsertLastStep(ws: seq<UiWaypoint>, sorted: seq<UiWaypoint>)
    requires |ws| > 0
    requires SortedByKey(sorted) && multiset(sorted) == multiset(ws[..|ws| - 1])
    requires forall x :: WithKey(sorted, x) == WithKey(ws[..|ws| - 1], x)
    ensures multiset(InsertStable(ws[|ws| - 1], sorted)) == multiset(ws)
    ensures SortedByKey(InsertStable(ws[|ws| - 1], sorted))
    ensures forall x :: WithKey(InsertStable(ws[|ws| - 1], sorted), x) == WithKey(ws, x)
  {
    var init, last := ws[..|ws| - 1], ws[|ws| - 1];
    assert ws == init + [last];
    InsertStableSorted(last, sorted);
    InsertLastKeepsOrder(init, last, sorted);
  }

  /**
   * `[...waypoints].sort((a, b) => (a.distance_from_start || 0) - (b.distance_from_start || 0))`:
   * the same waypoints in ascending distance; Array.prototype.sort is
   * stable, so waypoints of equal distance keep their order.
   */
  function SortByDistance(ws: seq<UiWaypoint>): (r: seq<UiWaypoint>)
    ensures multiset(r) == multiset(ws)
    ensures SortedByKey(r)
    ensures forall x :: WithKey(r, x) == WithKey(ws, x)
  {
    if |ws| == 0 then []
    else
      var sorted := SortByDistance(ws[..|ws| - 1]);
      InsertLastStep(ws, sorted);
      InsertStable(ws[|ws| - 1], sorted)
  }

  /** `(wp.order_index || 0)` */
  function OrderOrZero(w: UiWaypoint): int
  {
    if w.orderIndex.Some? then w.orderIndex.value else 0
  }

  /** The position of the last waypoint below the target distance, if any. */
  function LastBelow(ws: seq<UiWaypoint>, target: real): (r: Option<nat>)
    ensures r.None? <==> forall i :: 0 <= i < |ws| ==> Key(ws[i]) >= target
    ensures r.Some? ==> && r.value < |ws| && Key(ws[r.value]) < target
                        && forall j :: r.value < j < |ws| ==> Key(ws[j]) >= target
  {
    if |ws| == 0 then None
    else if Key(ws[|ws| - 1]) < target then Some(|ws| - 1)
    else
      var r := LastBelow(ws[..|ws| - 1], target);
      assert forall i :: 0 <= i < |ws| - 1 ==> ws[..|ws| - 1][i] == ws[i];
      r
  }

  /** One more than the order index of the last waypoint below the target, or 1 when there is none. */
  function LastBelowOrder(ws: seq<UiWaypoint>, target: real): int
  {
    var k := LastBelow(ws, target);
    if k.None? then 1 else OrderOrZero(ws[k.value]) + 1
  }

  /** The order-index loop over the sorted waypoints. */
  method NextOrderIndex(sorted: seq<UiWaypoint>, target: real) returns (orderIndex: int)
    ensures orderIndex == LastBelowOrder(sorted, target)
  {
    orderIndex := 1;
    var i := 0;
    while i < |sorted|
      invariant 0 <= i <= |sorted|
      invariant orderIndex == LastBelowOrder(sorted[..i], target)
    {
      assert sorted[..i + 1][..i] == sorted[..i];
      if Key(sorted[i]) < target {
        orderIndex := OrderOrZero(sorted[i]) + 1;
      }
      i := i + 1;
    }
    assert sorted[..|sorted|] == sorted;
  }

  /** Membership is the same in two sequences with the same multiset. */
  lemma SameElements(a: seq<UiWaypoint>, b: seq<UiWaypoint>, w: UiWaypoint)
    requires multiset(a) == multiset(b)
    ensures w in a <==> w in b
  {
    assert w in a <==> w in multiset(a);
    assert w in b <==> w in multiset(b);
  }

  /**
   * The new waypoint's order index is 1 when no existing waypoint lies below
   * the target distance, and otherwise one more than the order index of an
   * existing waypoint with the greatest distance below the target.
   */
  lemma OrderIndexAfterNearestBelow(ws: seq<UiWaypoint>, target: real)
    ensures (forall w :: w in ws ==> Key(w) >= target) ==> LastBelowOrder(SortByDistance(ws), target) == 1
    ensures (exists w :: w in ws && Key(w) < target) ==>
              exists w :: && w in ws && Key(w) < target
                          && (forall v :: v in ws && Key(v) < target ==> Key(v) <= Key(w))
                          && LastBelowOrder(SortByDistance(ws), target) == OrderOrZero(w) + 1
  {
    var s := SortByDistance(ws);
    var k := LastBelow(s, target);
    if k.None? {
      NoneBelow(ws, s, target);
    } else {
      var top := s[k.value];
      NearestBelow(ws, s, target, k.value);
      assert LastBelowOrder(s, target) == OrderOrZero(top) + 1;
    }
  }

  /** When the sorted copy has nothing below the target, neither has the original. */
  lemma NoneBelow(ws: seq<UiWaypoint>, s: seq<UiWaypoint>, target: real)
    requires multiset(s) == multiset(ws)
    requires LastBelow(s, target).None?
    ensures forall w :: w in ws ==> Key(w) >= target
  {
    forall w | w in ws
      ensures Key(w) >= target
    {
      SameElements(ws, s, w);
      var j :| 0 <= j < |s| && s[j] == w;
    }
  }

  /** The last waypoint of the sorted copy below the target is a nearest one below it in the original. */
  lemma NearestBelow(ws: seq<UiWaypoint>, s: seq<UiWaypoint>, target: real, k: nat)
    requires multiset(s) == multiset(ws) && SortedByKey(s)
    requires LastBelow(s, target) == Some(k)
    ensures k < |s| && s[k] in ws && Key(s[k]) < target
    ensures forall v :: v in ws && Key(v) < target ==> Key(v) <= Key(s[k])
  {
    SameElements(ws, s, s[k]);
    forall v | v in ws && Key(v) < target
      ensures Key(v) <= Key(s[k])
    {
      SameElements(ws, s, v);
      var j :| 0 <= j < |s| && s[j] == v;
      assert j <= k;
    }
  }

  /** When nothing after position k shares its key, s[k] is the last waypoint of that key. */
  lemma {:induction false} LastOfWithKey(s: seq<UiWaypoint>, k: nat)
    requires k < |s|
    requires forall j :: k < j < |s| ==> Key(s[j]) != Key(s[k])
    ensures |WithKey(s, Key(s[k]))| > 0 && WithKey(s, Key(s[k]))[|WithKey(s, Key(s[k]))| - 1] == s[k]
    decreases |s|
  {
    if k < |s| - 1 {
      var p := s[..|s| - 1];
      assert p[k] == s[k];
      forall j | k < j < |p|
        ensures Key(p[j]) != Key(p[k])
      {
        assert p[j] == s[j];
      }
      LastOfWithKey(p, k);
      assert WithKey(s, Key(s[k])) == WithKey(p, Key(s[k])) + [];
    }
  }

  /**
   * Ties among the nearest waypoints below the target go to the last of
   * them in the order the waypoints were given: the new order index follows
   * the last waypoint, in input order, at the greatest distance below the
   * target.
   */
  lemma TieGoesToLastInInput(ws: seq<UiWaypoint>, target: real)
    ensures (exists w :: w in ws && Key(w) < target) ==>
              exists m :: && m < target
                          && (forall v :: v in ws && Key(v) < target ==> Key(v) <= m)
                          && |WithKey(ws, m)| > 0
                          && LastBelowOrder(SortByDistance(ws), target)
                             == OrderOrZero(WithKey(ws, m)[|WithKey(ws, m)| - 1]) + 1
  {
    var s := SortByDistance(ws);
    var k := LastBelow(s, target);
    if k.None? {
      NoneBelow(ws, s, target);
    } else {
      NearestBelow(ws, s, target, k.value);
      var m := Key(s[k.value]);
      LastOfWithKey(s, k.value);
      assert WithKey(s, m) == WithKey(ws, m);
      assert LastBelowOrder(s, target) == OrderOrZero(WithKey(ws, m)[|WithKey(ws, m)| - 1]) + 1;
    }
  }

  /** `name || `Waypoint at ${distanceMiles.toFixed(1)} mi`` */
  function DefaultName(name: string, miles: real, fixed: ToFixed): (r: string)
    ensures name != "" ==> r == name
    ensures name == "" ==> r == "Waypoint at " + fixed(miles, 1) + " mi"
  {
    if name != "" then name else "Waypoint at " + fixed(miles, 1) + " mi"
  }

  /** `parseInt(stopTime) || 0` */
  function StopOrZero(text: string): int
  {
    var n := JsParseInt(text);
    if n.None? then 0 else n.value
  }

  /**
   * handleAddWaypoint: rejects a distance that is not a number or is
   * negative, one beyond the route length and a route without coordinates;
   * otherwise hands onWaypointCreate the located point, the distance in
   * meters and the order index after the nearest waypoint below it.
   */
  method HandleAddWaypoint(form: AddForm, waypoints: seq<UiWaypoint>, route: Option<RouteData>,
                           parseFloat: string -> Option<real>, fixed: ToFixed, hav: GreatCircle)
    returns (r: AddOutcome)
    ensures r.Create? ==> 0.0 <= r.waypoint.distanceFromStart <= RouteLength(route)
    ensures var miles := parseFloat(form.distance);
            miles.None? || miles.value < 0.0 ==> r == AddRejected("Please enter a valid distance")
    ensures var miles := parseFloat(form.distance);
            miles.Some? && miles.value >= 0.0 ==>
              var meters := miles.value * MetersPerMile;
              var loc := Locate(route, meters, hav);
              && (meters > RouteLength(route) ==> r == AddRejected(ExceedsMessage(RouteLength(route), fixed)))
              && (meters <= RouteLength(route) && loc.NoCoordinates? ==> r == AddRejected(NoCoordinatesMessage))
              && (meters <= RouteLength(route) && loc.EmptyCoordinates? ==> r == AddCrashed)
              && (meters <= RouteLength(route) && (loc.Located? || loc.NonNumeric?) ==>
                    r == Create(NewWaypoint(
                           DefaultName(form.name, miles.value, fixed), form.kind,
                           if loc.Located? then Some(loc.point) else None,
                           meters, LastBelowOrder(SortByDistance(waypoints), meters),
                           StopOrZero(form.stopTime), form.comments)))
  {
    var miles := parseFloat(form.distance);
    if miles.None? || miles.value < 0.0 {
      return AddRejected("Please enter a valid distance");
    }
    var meters := miles.value * MetersPerMile;
    var total := RouteLength(route);
    if meters > total {
      return AddRejected(ExceedsMessage(total, fixed));
    }
    var loc := FindCoordinatesAtDistance(route, meters, hav);
    if loc.NoCoordinates? {
      return AddRejected(NoCoordinatesMessage);
    }
    if loc.EmptyCoordinates? {
      return AddCrashed;
    }
    var existing := SortByDistance(waypoints);
    var orderIndex := NextOrderIndex(existing, meters);
    var position := if loc.Located? then Some(loc.point) else None;
    r := Create(NewWaypoint(DefaultName(form.name, miles.value, fixed), form.kind, position, meters,
                            orderIndex, StopOrZero(form.stopTime), form.comments));
  }

  // ------------------------------------------------------------ handleSave

  /** The edit form: the distance is the text typed in, in miles. */
  datatype EditForm = EditForm(name: string, kind: Store.WaypointType, stopTime: int, comments: string, distance: string)

  /** A new position and distance; a None position stands for NaN coordinates. */
  datatype Relocation = Relocation(position: Option<Coord>, distanceFromStart: real)

  /** The updates handed to onWaypointUpdate. */
  datatype WaypointEdit = WaypointEdit(name: string, kind: Store.WaypointType, stopTime: int, comments: string,
                                       moveTo: Option<Relocation>)

  datatype SaveOutcome = SaveIgnored | SaveRejected(message: string) | SaveCrashed | Update(id: string, edit: WaypointEdit)

  function Abs(x: real): real
  {
    if x < 0.0 then -x else x
  }

  /** The typed distance differs from the stored one by more than 0.01 mile. */
  predicate DistanceChanged(miles: Option<real>, w: UiWaypoint)
  {
    miles.Some? && Abs(miles.value - OrZero(w.distanceFromStart) / MetersPerMile) > 0.01
  }

  /**
   * handleSave: nothing for an unknown waypoint. An unchanged distance (or
   * one that is not a number) saves the other fields only; a changed one
   * is rejected when negative, beyond the route length or without
   * coordinates, and otherwise moves the waypoint to the located point.
   */
  method HandleSave(id: string, waypoints: seq<UiWaypoint>, edit: EditForm, route: Option<RouteData>,
                    parseFloat: string -> Option<real>, fixed: ToFixed, hav: GreatCircle)
    returns (r: SaveOutcome)
    ensures r.Update? && r.edit.moveTo.Some? ==> 0.0 <= r.edit.moveTo.value.distanceFromStart <= RouteLength(route)
    ensures FindWaypoint(waypoints, id).None? ==> r == SaveIgnored
    ensures FindWaypoint(waypoints, id).Some? ==>
              var w := waypoints[FindWaypoint(waypoints, id).value];
              var miles := parseFloat(edit.distance);
              var base := WaypointEdit(edit.name, edit.kind, edit.stopTime, edit.comments, None);
              && (!DistanceChanged(miles, w) ==> r == Update(id, base))
              && (DistanceChanged(miles, w) ==>
                    var meters := miles.value * MetersPerMile;
                    var loc := Locate(route, meters, hav);
                    && (meters < 0.0 ==> r == SaveRejected("Distance cannot be negative"))
                    && (0.0 <= meters && meters > RouteLength(route) ==>
                          r == SaveRejected(ExceedsMessage(RouteLength(route), fixed)))
                    && (0.0 <= meters <= RouteLength(route) && loc.NoCoordinates? ==> r == SaveRejected(NoCoordinatesMessage))
                    && (0.0 <= meters <= RouteLength(route) && loc.EmptyCoordinates? ==> r == SaveCrashed)
                    && (0.0 <= meters <= RouteLength(route) && (loc.Located? || loc.NonNumeric?) ==>
                          r == Update(id, base.(moveTo := Some(Relocation(
                                 if loc.Located? then Some(loc.point) else None, meters))))))
  {
    var found := FindWaypoint(waypoints, id);
    if found.None? {
      return SaveIgnored;
    }
    var w := waypoints[found.value];
    var updates := WaypointEdit(edit.name, edit.kind, edit.stopTime, edit.comments, None);
    var miles := parseFloat(edit.distance);
    if miles.Some? && Abs(miles.value - OrZero(w.distanceFromStart) / MetersPerMile) > 0.01 {
      var meters := miles.value * MetersPerMile;
      var total := RouteLength(route);
      if meters < 0.0 {
        return SaveRejected("Distance cannot be negative");
      }
      if meters > total {
        return SaveRejected(ExceedsMessage(total, fixed));
      }
      var loc := FindCoordinatesAtDistance(route, meters, hav);
      if loc.NoCoordinates? {
        return SaveRejected(NoCoordinatesMessage);
      }
      if loc.EmptyCoordinates? {
        return SaveCrashed;
      }
      var position := if loc.Located? then Some(loc.point) else None;
      updates := updates.(moveTo := Some(Relocation(position, meters)));
    }
    r := Update(id, updates);
  }

  // ---------------------------------------------------------- handleDelete

  datatype DeleteOutcome = DeleteRefused(message: string) | DeleteCancelled | Delete(id: string)

  /**
   * handleDelete: START and FINISH are refused before asking; any other
   * waypoint is deleted exactly when the user confirms.
   */
  function HandleDelete(id: string, name: string, confirmed: bool): (r: DeleteOutcome)
    ensures r.DeleteRefused? <==> name == "START" || name == "FINISH"
    ensures r.Delete? <==> name != "START" && name != "FINISH" && confirmed
    ensures r.Delete? ==> r.id == id
  {
    if name == "START" || name == "FINISH" then DeleteRefused("Cannot delete START or FINISH waypoints")
    else if confirmed then Delete(id)
    else DeleteCancelled
  }

  /** `waypoint?.name || ''` */
  function NameOrEmpty(name: Option<string>): string
  {
    if name.Some? then name.value else ""
  }

  /** The client refuses to delete exactly the waypoints the server refuses to delete. */
  lemma ClientGuardMatchesServer(id: string, w: Store.Waypoint, confirmed: bool)
    ensures HandleDelete(id, NameOrEmpty(w.name), confirmed).DeleteRefused? <==> WaypointRoutes.IsEndpoint(w)
  {
    if w.name.Some? && WaypointRoutes.IsEndpoint(w) {
      assert w.name.value == "START" || w.name.value == "FINISH";
    }
  }
}
