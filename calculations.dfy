// Leg calculation and planned-versus-actual comparison
// (backend/routes/calculations.py). The calculation places every waypoint of
// an event on the route, in distance order, measures the route between
// consecutive placements, runs the pace engine and replaces the event's
// stored legs. The comparison scales the planned leg times by the ratio of
// the actual duration to the planned one.

module Calculations {
  import opened Numbers
  import opened Wrappers
  import opened Strings
  import opened Geometry
  import opened GpxProcessor
  import opened PaceCalculator
  import opened Store

  // ------------------------------------------------------------ leg ranges

  /** What calculate_leg_metrics returns for the index pair (start, end). */
  function LegMetricsBetween(coords: seq<Coord>, start: nat, end: nat, d3: Distance3d): LegMetrics
  {
    if start >= end || end >= |coords| then LegMetrics(0.0, 0.0, 0.0) else RangeMetrics(coords, start, end, d3)
  }

  /** What find_closest_point_on_route picks: the first nearest point, or 0 on an empty route. */
  predicate IsClosestIndex(coords: seq<Coord>, i: nat, lat: real, lon: real, hav: GreatCircle)
  {
    if |coords| == 0 then i == 0 else IsFirstNearest(coords, i, lat, lon, hav)
  }

  /**
   * indices[k] is where waypoint k sits on the route, and leg k is measured
   * from the previous waypoint's index (index 0 for the first leg) to it.
   */
  predicate ChainedRanges(coords: seq<Coord>, rows: seq<Waypoint>, indices: seq<nat>, metrics: seq<LegMetrics>,
                          hav: GreatCircle, d3: Distance3d)
  {
    && |indices| == |rows| && |metrics| == |rows|
    && forall k :: 0 <= k < |rows| ==>
         && IsClosestIndex(coords, indices[k], rows[k].lat, rows[k].lon, hav)
         && metrics[k] == LegMetricsBetween(coords, if k == 0 then 0 else indices[k - 1], indices[k], d3)
  }

  /** The loop over the ordered waypoints that threads the previous index into each leg. */
  method LegRanges(coords: seq<Coord>, rows: seq<Waypoint>, hav: GreatCircle, d3: Distance3d)
    returns (indices: seq<nat>, metrics: seq<LegMetrics>)
    ensures ChainedRanges(coords, rows, indices, metrics, hav, d3)
  {
    indices := [];
    metrics := [];
    var prevIndex: nat := 0;
    for k := 0 to |rows|
      invariant ChainedRanges(coords, rows[..k], indices, metrics, hav, d3)
      invariant |indices| == k
      invariant prevIndex == if k == 0 then 0 else indices[k - 1]
    {
      var closest, _ := FindClosestPointCorrected(coords, rows[k].lat, rows[k].lon, hav);
      var m := CalculateLegMetrics(coords, prevIndex, closest, d3);
      assert IsClosestIndex(coords, closest, rows[k].lat, rows[k].lon, hav);
      assert m == LegMetricsBetween(coords, prevIndex, closest, d3);
      ExtendChain(coords, rows, k, indices, metrics, closest, m, hav, d3);
      indices := indices + [closest];
      metrics := metrics + [m];
      prevIndex := closest;
    }
    assert rows[..|rows|] == rows;
  }

  /** One more waypoint placed on the route extends the chain of legs by one. */
  lemma ExtendChain(coords: seq<Coord>, rows: seq<Waypoint>, k: nat, indices: seq<nat>, metrics: seq<LegMetrics>,
                    closest: nat, m: LegMetrics, hav: GreatCircle, d3: Distance3d)
    requires k < |rows| && ChainedRanges(coords, rows[..k], indices, metrics, hav, d3)
    requires IsClosestIndex(coords, closest, rows[k].lat, rows[k].lon, hav)
    requires m == LegMetricsBetween(coords, if k == 0 then 0 else indices[k - 1], closest, d3)
    ensures ChainedRanges(coords, rows[..k + 1], indices + [closest], metrics + [m], hav, d3)
  {
    var rows', indices', metrics' := rows[..k + 1], indices + [closest], metrics + [m];
    forall j | 0 <= j < k + 1
      ensures IsClosestIndex(coords, indices'[j], rows'[j].lat, rows'[j].lon, hav)
      ensures metrics'[j] == LegMetricsBetween(coords, if j == 0 then 0 else indices'[j - 1], indices'[j], d3)
    {
      if j < k {
        assert rows'[j] == rows[..k][j];
        assert IsClosestIndex(coords, indices[j], rows[..k][j].lat, rows[..k][j].lon, hav);
        assert metrics[j] == LegMetricsBetween(coords, if j == 0 then 0 else indices[j - 1], indices[j], d3);
        assert metrics'[j] == metrics[j] && indices'[j] == indices[j];
        assert j > 0 ==> indices'[j - 1] == indices[j - 1];
      } else {
        assert metrics'[j] == m && indices'[j] == closest && rows'[j] == rows[k];
        assert j > 0 ==> indices'[j - 1] == indices[k - 1];
      }
    }
    assert |indices'| == |rows'| && |metrics'| == |rows'|;
    assert ChainedRanges(coords, rows', indices', metrics', hav, d3);
  }

  /** Component-wise sum of leg metrics. */
  function TotalMetrics(ms: seq<LegMetrics>): LegMetrics
  {
    if |ms| == 0 then LegMetrics(0.0, 0.0, 0.0)
    else
      var t := TotalMetrics(ms[..|ms| - 1]);
      var m := ms[|ms| - 1];
      LegMetrics(t.distance + m.distance, t.elevationGain + m.elevationGain, t.elevationLoss + m.elevationLoss)
  }

  /**
   * When the waypoints sit on the route in non-decreasing index order, the
   * legs tile the route: the first k + 1 legs together measure exactly the
   * route from its first point to waypoint k.
   */
  lemma {:induction false} LegsTileRoute(coords: seq<Coord>, rows: seq<Waypoint>, indices: seq<nat>, metrics: seq<LegMetrics>,
                                         hav: GreatCircle, d3: Distance3d, k: nat)
    requires ChainedRanges(coords, rows, indices, metrics, hav, d3)
    requires |coords| > 0 && k < |rows|
    requires forall i :: 0 < i <= k ==> indices[i - 1] <= indices[i]
    ensures TotalMetrics(metrics[..k + 1]) == RangeMetrics(coords, 0, indices[k], d3)
    decreases k
  {
    assert metrics[..k + 1][..k] == metrics[..k];
    var a := if k == 0 then 0 else indices[k - 1];
    if k > 0 {
      LegsTileRoute(coords, rows, indices, metrics, hav, d3, k - 1);
    }
    MetricsAdditive(coords, 0, a, indices[k], d3);
  }

  // ------------------------------------------------------ the calculation

  /** The target duration is truthy: set and non-zero. */
  predicate HasTarget(ev: Event)
  {
    ev.targetDuration.Some? && ev.targetDuration.value != 0
  }

  /** The rows of the ordered waypoint identifiers. */
  function Rows(order: seq<Id>, wps: map<Id, Waypoint>): (rows: seq<Waypoint>)
    requires forall k :: 0 <= k < |order| ==> order[k] in wps
    ensures |rows| == |order| && forall k :: 0 <= k < |order| ==> rows[k] == wps[order[k]]
  {
    seq(|order|, k requires 0 <= k < |order| => wps[order[k]])
  }

  predicate AllStopsSet(rows: seq<Waypoint>)
  {
    forall k :: 0 <= k < |rows| ==> rows[k].stopTime.Some?
  }

  /** The waypoints as handed to the pace engine. */
  function LegWaypoints(order: seq<Id>, rows: seq<Waypoint>): (lw: seq<LegWaypoint>)
    requires |rows| == |order| && AllStopsSet(rows)
    ensures |lw| == |order|
    ensures forall k :: 0 <= k < |order| ==> lw[k] == LegWaypoint(order[k], rows[k].name, rows[k].stopTime.value)
  {
    seq(|order|, k requires 0 <= k < |order| => LegWaypoint(order[k], rows[k].name, rows[k].stopTime.value))
  }

  /**
   * The distance handed to the pace engine: the event's own distance when it
   * is truthy, otherwise the route length in miles; None where the source
   * reads the metadata of an event that has none.
   */
  function EventDistance(ev: Event): (d: Option<real>)
    ensures ev.distance.Some? && ev.distance.value != 0.0 ==> d == ev.distance
    ensures !(ev.distance.Some? && ev.distance.value != 0.0) ==>
              d == (if ev.metadata.Some? then Some(MetersToMiles(ev.metadata.value.totalDistance)) else None)
  {
    if ev.distance.Some? && ev.distance.value != 0.0 then ev.distance
    else if ev.metadata.Some? then Some(MetersToMiles(ev.metadata.value.totalDistance))
    else None
  }

  /**
   * The factor loop of calculate_legs divides a NULL percentage by 100, and
   * raises, when it reads one: the climb and descent percentages on any leg
   * of positive length, the fatigue percentage when there is more than one leg.
   */
  predicate NullPercentRead(ev: Event, metrics: seq<LegMetrics>)
  {
    || ((ev.gainPct.None? || ev.lossPct.None?) && exists k :: 0 <= k < |metrics| && metrics[k].distance > 0.0)
    || (ev.fatiguePct.None? && |metrics| > 1)
  }

  /** A percentage column, with `d` standing in for NULL. */
  function PercentOr(p: Option<real>, d: real): real
  {
    if p.Some? then p.value else d
  }

  /**
   * Where no NULL percentage is read, the value standing in for NULL does not
   * change any effort factor, so the plan below is the one the source computes.
   */
  lemma NullPercentUnread(ev: Event, metrics: seq<LegMetrics>, g: real, l: real, f: real)
    requires !NullPercentRead(ev, metrics)
    ensures Factors(metrics, PercentOr(ev.gainPct, g), PercentOr(ev.lossPct, l), PercentOr(ev.fatiguePct, f))
         == Factors(metrics, PercentOr(ev.gainPct, 0.0), PercentOr(ev.lossPct, 0.0), PercentOr(ev.fatiguePct, 0.0))
  {
    var n := |metrics|;
    forall k | 0 <= k < n
      ensures LegFactor(metrics[k], k, n, PercentOr(ev.gainPct, g), PercentOr(ev.lossPct, l), PercentOr(ev.fatiguePct, f))
           == LegFactor(metrics[k], k, n, PercentOr(ev.gainPct, 0.0), PercentOr(ev.lossPct, 0.0), PercentOr(ev.fatiguePct, 0.0))
    {
      if metrics[k].distance > 0.0 {
        assert ev.gainPct.Some? && ev.lossPct.Some?;
      }
      if n > 1 {
        assert ev.fatiguePct.Some?;
      }
    }
  }

  /** The pace engine's input for an event, with 0 standing in for a NULL percentage the engine never reads. */
  function PlanInputFor(ev: Event, distance: real, lw: seq<LegWaypoint>, metrics: seq<LegMetrics>): PlanInput
    requires HasTarget(ev)
  {
    PlanInput(distance, ev.targetDuration.value, lw, metrics,
              PercentOr(ev.gainPct, 0.0), PercentOr(ev.lossPct, 0.0), PercentOr(ev.fatiguePct, 0.0), ev.plannedDate)
  }

  /** A plan row as stored: linked to the previous row's waypoint, cumulative minutes truncated. */
  function StoreLeg(leg: PlannedLeg, order: seq<Id>): CalculatedLeg
    requires 1 <= leg.legNumber <= |order|
  {
    CalculatedLeg(
      leg.legNumber,
      if leg.legNumber > 1 then Some(order[leg.legNumber - 2]) else None,
      leg.waypointId,
      leg.legDistance, leg.elevationGain, leg.elevationLoss, leg.basePace, leg.adjustedPace,
      leg.arrival, leg.stopTime, leg.exit, leg.cumulativeDistance,
      Trunc(leg.cumulativeTime))
  }

  function StoredLegs(plan: seq<PlannedLeg>, order: seq<Id>): (stored: seq<CalculatedLeg>)
    requires forall k :: 0 <= k < |plan| ==> 1 <= plan[k].legNumber <= |order|
    ensures |stored| == |plan|
  {
    seq(|plan|, k requires 0 <= k < |plan| => StoreLeg(plan[k], order))
  }

  /** The rows of a plan are numbered 1, 2, ... and there is at most one per waypoint. */
  lemma PlanNumbering(plan: seq<PlannedLeg>, inp: PlanInput)
    requires IsPlan(plan, inp)
    ensures forall k :: 0 <= k < |plan| ==> plan[k].legNumber == k + 1 && k < |inp.waypoints|
  {
    forall k | 0 <= k < |plan|
      ensures plan[k].legNumber == k + 1 && k < |inp.waypoints|
    {
      assert LegFits(plan, k, inp);
    }
  }

  /**
   * Everything a successful calculation stored: the waypoints in distance
   * order, their route placements and leg metrics, the pace plan over them,
   * and that plan as the event's legs.
   */
  predicate CalculatedFrom(legs: seq<CalculatedLeg>, ev: Event, eventId: Id, wps: map<Id, Waypoint>,
                           order: seq<Id>, indices: seq<nat>, metrics: seq<LegMetrics>, plan: seq<PlannedLeg>,
                           hav: GreatCircle, d3: Distance3d)
  {
    && HasTarget(ev) && ev.route.Some?
    && multiset(order) == multiset(EventWaypoints(wps, eventId))
    && SortedByDistance(order, wps)
    && ChainedRanges(ev.route.value, Rows(order, wps), indices, metrics, hav, d3)
    && AllStopsSet(Rows(order, wps))
    && EventDistance(ev).Some?
    && !NullPercentRead(ev, metrics)
    && IsPlan(plan, PlanInputFor(ev, EventDistance(ev).value, LegWaypoints(order, Rows(order, wps)), metrics))
    && |plan| == |order|
    && (forall k :: 0 <= k < |plan| ==> 1 <= plan[k].legNumber <= |order|)
    && legs == StoredLegs(plan, order)
  }

  /**
   * calculate_event_legs. Fails with 404 for a missing event, then 400 for a
   * missing target, a missing route and an event without waypoints, in that
   * order; an unset stop time, a missing distance, a NULL percentage the
   * factor loop reads or an all-zero effort make the pace engine raise, which
   * surfaces as a server error, and nothing else fails. Only success touches
   * the database, replacing the event's legs and nothing else.
   */
  method CalculateEventLegs(db: Database, eventId: Id, hav: GreatCircle, d3: Distance3d)
    returns (r: Result<nat, HttpError>, order: seq<Id>, indices: seq<nat>, metrics: seq<LegMetrics>, plan: seq<PlannedLeg>)
    modifies db
    ensures db.events == old(db.events) && db.waypoints == old(db.waypoints) && db.settings == old(db.settings)
    ensures eventId !in db.events ==> r == Failure(NotFound("Event not found"))
    ensures eventId in db.events && !HasTarget(db.events[eventId]) ==>
              r == Failure(BadRequest("Target duration not set"))
    ensures eventId in db.events && HasTarget(db.events[eventId]) && db.events[eventId].route.None? ==>
              r == Failure(BadRequest("No route data available"))
    ensures eventId in db.events && HasTarget(db.events[eventId]) && db.events[eventId].route.Some?
            && EventWaypoints(db.waypoints, eventId) == {} ==>
              r == Failure(BadRequest("No waypoints defined"))
    ensures r.Failure? ==> db.legs == old(db.legs)
    ensures r == Failure(ServerError) ==>
              && multiset(order) == multiset(EventWaypoints(db.waypoints, eventId))
              && SortedByDistance(order, db.waypoints)
              && (|| !AllStopsSet(Rows(order, db.waypoints))
                  || EventDistance(db.events[eventId]).None?
                  || NullPercentRead(db.events[eventId], metrics)
                  || TotalEffort(PlanInputFor(db.events[eventId], EventDistance(db.events[eventId]).value,
                                              LegWaypoints(order, Rows(order, db.waypoints)), metrics)) == 0.0)
    ensures eventId in db.events && HasTarget(db.events[eventId]) && db.events[eventId].route.Some? ==>
              multiset(order) == multiset(EventWaypoints(db.waypoints, eventId)) && SortedByDistance(order, db.waypoints)
    ensures eventId in db.events && HasTarget(db.events[eventId]) && db.events[eventId].route.Some?
            && EventWaypoints(db.waypoints, eventId) != {} ==>
              ChainedRanges(db.events[eventId].route.value, Rows(order, db.waypoints), indices, metrics, hav, d3)
    ensures (&& eventId in db.events && HasTarget(db.events[eventId]) && db.events[eventId].route.Some?
             && EventWaypoints(db.waypoints, eventId) != {}
             && AllStopsSet(Rows(order, db.waypoints))
             && EventDistance(db.events[eventId]).Some?
             && !NullPercentRead(db.events[eventId], metrics)
             && TotalEffort(PlanInputFor(db.events[eventId], EventDistance(db.events[eventId]).value,
                                         LegWaypoints(order, Rows(order, db.waypoints)), metrics)) != 0.0) ==> r.Success?
    ensures r.Success? ==>
              && eventId in db.events && EventWaypoints(db.waypoints, eventId) != {}
              && r.value == |order| > 0
              && eventId in db.legs && db.legs == old(db.legs)[eventId := db.legs[eventId]]
              && CalculatedFrom(db.legs[eventId], db.events[eventId], eventId, db.waypoints,
                                order, indices, metrics, plan, hav, d3)
  {
    order, indices, metrics, plan := [], [], [], [];
    if eventId !in db.events {
      return Failure(NotFound("Event not found")), order, indices, metrics, plan;
    }
    var ev := db.events[eventId];
    if ev.targetDuration.None? || ev.targetDuration.value == 0 {
      return Failure(BadRequest("Target duration not set")), order, indices, metrics, plan;
    }
    if ev.route.None? {
      return Failure(BadRequest("No route data available")), order, indices, metrics, plan;
    }
    order := WaypointsByDistance(db, eventId);
    if |order| == 0 {
      assert multiset(EventWaypoints(db.waypoints, eventId)) == multiset{};
      return Failure(BadRequest("No waypoints defined")), order, indices, metrics, plan;
    }
    assert order[0] in multiset(EventWaypoints(db.waypoints, eventId));
    var rows := Rows(order, db.waypoints);
    indices, metrics := LegRanges(ev.route.value, rows, hav, d3);
    var distance := EventDistance(ev);
    if distance.None? || !AllStopsSet(rows) || NullPercentRead(ev, metrics) {
      return Failure(ServerError), order, indices, metrics, plan;
    }
    var inp := PlanInputFor(ev, distance.value, LegWaypoints(order, rows), metrics);
    var calculated := CalculateLegs(inp);
    if calculated.Failure? {
      return Failure(ServerError), order, indices, metrics, plan;
    }
    plan := calculated.value;
    PlanNumbering(plan, inp);
    var stored := StoredLegs(plan, order);
    db.legs := db.legs[eventId := stored];
    r := Success(|stored|);
  }

  /**
   * The stored legs are linked end to start: leg 1 has no start waypoint,
   * every later leg starts at the waypoint the previous leg ended at, and
   * leg k ends at the k-th waypoint in distance order.
   */
  lemma StoredLegsLinked(legs: seq<CalculatedLeg>, ev: Event, eventId: Id, wps: map<Id, Waypoint>,
                         order: seq<Id>, indices: seq<nat>, metrics: seq<LegMetrics>, plan: seq<PlannedLeg>,
                         hav: GreatCircle, d3: Distance3d)
    requires CalculatedFrom(legs, ev, eventId, wps, order, indices, metrics, plan, hav, d3)
    ensures |legs| == |order|
    ensures |legs| > 0 ==> legs[0].startWaypoint == None
    ensures forall k :: 0 <= k < |legs| ==> legs[k].endWaypoint == order[k] && legs[k].legNumber == k + 1
    ensures forall k :: 1 <= k < |legs| ==> legs[k].startWaypoint == Some(legs[k - 1].endWaypoint)
  {
    var inp := PlanInputFor(ev, EventDistance(ev).value, LegWaypoints(order, Rows(order, wps)), metrics);
    forall k | 0 <= k < |legs|
      ensures legs[k].endWaypoint == order[k] && legs[k].legNumber == k + 1
    {
      assert LegFits(plan, k, inp);
    }
  }

  /**
   * Time conservation survives storage: the last stored leg's whole-minute
   * cumulative time is exactly the event's target duration.
   */
  lemma StoredTimeMatchesTarget(legs: seq<CalculatedLeg>, ev: Event, eventId: Id, wps: map<Id, Waypoint>,
                                order: seq<Id>, indices: seq<nat>, metrics: seq<LegMetrics>, plan: seq<PlannedLeg>,
                                hav: GreatCircle, d3: Distance3d)
    requires CalculatedFrom(legs, ev, eventId, wps, order, indices, metrics, plan, hav, d3)
    requires |legs| > 0
    ensures legs[|legs| - 1].cumulativeTime == ev.targetDuration.value
  {
    var inp := PlanInputFor(ev, EventDistance(ev).value, LegWaypoints(order, Rows(order, wps)), metrics);
    PlanConservesTime(plan, inp);
    assert legs[|legs| - 1] == StoreLeg(plan[|plan| - 1], order);
  }

  // ------------------------------------------------------- the comparison

  /** Truthiness of an optional number. */
  predicate Truthy(x: Option<real>)
  {
    x.Some? && x.value != 0.0
  }

  function IntAsReal(x: Option<int>): Option<real>
  {
    if x.Some? then Some(x.value as real) else None
  }

  /** The planned time of leg k: its cumulative time minus the previous leg's. */
  function PlannedLegTime(legs: seq<CalculatedLeg>, k: nat): real
    requires k < |legs|
  {
    if k == 0 then legs[0].cumulativeTime as real
    else (legs[k].cumulativeTime - legs[k - 1].cumulativeTime) as real
  }

  /** The estimated actual time of the first n legs: each planned leg time scaled by the ratio. */
  function EstimatedActual(legs: seq<CalculatedLeg>, ratio: real, n: nat): real
    requires n <= |legs|
  {
    if n == 0 then 0.0 else EstimatedActual(legs, ratio, n - 1) + PlannedLegTime(legs, n - 1) * ratio
  }

  /** Scaling every leg by the ratio scales the running total: the estimate after leg k is its planned cumulative time times the ratio. */
  lemma {:induction false} EstimatedActualIsScaled(legs: seq<CalculatedLeg>, ratio: real, k: nat)
    requires k < |legs|
    ensures EstimatedActual(legs, ratio, k + 1) == legs[k].cumulativeTime as real * ratio
    decreases k
  {
    if k > 0 {
      EstimatedActualIsScaled(legs, ratio, k - 1);
      var c := legs[k].cumulativeTime as real;
      var p := legs[k - 1].cumulativeTime as real;
      assert PlannedLegTime(legs, k) == c - p;
      assert (c - p) * ratio + p * ratio == c * ratio;
    }
  }

  /** The name shown for a leg: its end waypoint's name, or "Waypoint n" when the event has no such waypoint. */
  function LegLabel(leg: CalculatedLeg, wps: map<Id, Waypoint>, eventId: Id): Option<string>
  {
    if leg.endWaypoint in wps && wps[leg.endWaypoint].eventId == eventId then wps[leg.endWaypoint].name
    else Some("Waypoint " + IntToString(leg.legNumber))
  }

  datatype LegComparison = LegComparison(
    legNumber: int,
    waypointName: Option<string>,
    plannedLegTime: real,
    estimatedActualLegTime: real,
    legTimeDiff: real,
    cumulativePlanned: real,
    cumulativeActual: real,
    cumulativeDiff: real,
    plannedPace: real,
    distance: real,
    cumulativeDistance: real)

  /** Row k of the comparison, as the loop builds it. */
  predicate ComparesLeg(row: LegComparison, legs: seq<CalculatedLeg>, k: nat, ratio: real,
                        wps: map<Id, Waypoint>, eventId: Id)
    requires k < |legs|
  {
    var planned := PlannedLegTime(legs, k);
    && row.legNumber == legs[k].legNumber
    && row.waypointName == LegLabel(legs[k], wps, eventId)
    && row.plannedLegTime == planned
    && row.estimatedActualLegTime == planned * ratio
    && row.legTimeDiff == planned * ratio - planned
    && row.cumulativePlanned == legs[k].cumulativeTime as real
    && row.cumulativeActual == EstimatedActual(legs, ratio, k + 1)
    && row.cumulativeDiff == row.cumulativeActual - row.cumulativePlanned
    && row.plannedPace == legs[k].adjustedPace
    && row.distance == legs[k].legDistance
    && row.cumulativeDistance == legs[k].cumulativeDistance
  }

  /** The comparison loop: running planned and estimated actual totals, one row per planned leg. */
  method CompareLegs(legs: seq<CalculatedLeg>, ratio: real, wps: map<Id, Waypoint>, eventId: Id)
    returns (rows: seq<LegComparison>)
    ensures |rows| == |legs|
    ensures forall k :: 0 <= k < |legs| ==> ComparesLeg(rows[k], legs, k, ratio, wps, eventId)
  {
    rows := [];
    var cumulativePlanned := 0.0;
    var cumulativeActual := 0.0;
    for i := 0 to |legs|
      invariant |rows| == i
      invariant forall k :: 0 <= k < i ==> ComparesLeg(rows[k], legs, k, ratio, wps, eventId)
      invariant i > 0 ==> cumulativePlanned == legs[i - 1].cumulativeTime as real
      invariant cumulativeActual == EstimatedActual(legs, ratio, i)
    {
      var leg := legs[i];
      var plannedLegTime := if i > 0 then leg.cumulativeTime as real - cumulativePlanned else leg.cumulativeTime as real;
      var estimated := plannedLegTime * ratio;
      cumulativePlanned := leg.cumulativeTime as real;
      cumulativeActual := cumulativeActual + estimated;
      var cumulativeDiff := cumulativeActual - cumulativePlanned;
      var row := LegComparison(leg.legNumber, LegLabel(leg, wps, eventId), plannedLegTime, estimated,
                               estimated - plannedLegTime, cumulativePlanned, cumulativeActual, cumulativeDiff,
                               leg.adjustedPace, leg.legDistance, leg.cumulativeDistance);
      assert ComparesLeg(row, legs, i, ratio, wps, eventId);
      AppendComparison(rows, row, legs, ratio, wps, eventId);
      rows := rows + [row];
    }
  }

  /** A row for the next leg extends a correct prefix of the comparison. */
  lemma AppendComparison(rows: seq<LegComparison>, row: LegComparison, legs: seq<CalculatedLeg>, ratio: real,
                         wps: map<Id, Waypoint>, eventId: Id)
    requires |rows| < |legs|
    requires forall k :: 0 <= k < |rows| ==> ComparesLeg(rows[k], legs, k, ratio, wps, eventId)
    requires ComparesLeg(row, legs, |rows|, ratio, wps, eventId)
    ensures forall k :: 0 <= k < |rows| + 1 ==> ComparesLeg((rows + [row])[k], legs, k, ratio, wps, eventId)
  {
    forall k | 0 <= k < |rows| + 1
      ensures ComparesLeg((rows + [row])[k], legs, k, ratio, wps, eventId)
    {
      if k < |rows| {
        assert (rows + [row])[k] == rows[k];
      } else {
        assert (rows + [row])[k] == row;
      }
    }
  }

  /**
   * The comparison's running totals follow the ratio: after leg k the estimated
   * actual time is the planned cumulative time times the ratio, so the running
   * difference is the planned time times (ratio - 1). When the last planned
   * cumulative time is the planned duration and the ratio is actual over
   * planned, the estimate ends at the actual duration.
   */
  lemma ComparisonFollowsRatio(rows: seq<LegComparison>, legs: seq<CalculatedLeg>, ratio: real,
                               wps: map<Id, Waypoint>, eventId: Id, k: nat, planned: real, actual: real)
    requires |rows| == |legs| && k < |legs|
    requires forall i :: 0 <= i < |legs| ==> ComparesLeg(rows[i], legs, i, ratio, wps, eventId)
    ensures rows[k].cumulativeActual == rows[k].cumulativePlanned * ratio
    ensures rows[k].cumulativeDiff == rows[k].cumulativePlanned * (ratio - 1.0)
    ensures planned != 0.0 && ratio == actual / planned && legs[k].cumulativeTime as real == planned ==>
              rows[k].cumulativeActual == actual
  {
    assert ComparesLeg(rows[k], legs, k, ratio, wps, eventId);
    EstimatedActualIsScaled(legs, ratio, k);
    if planned != 0.0 && ratio == actual / planned && legs[k].cumulativeTime as real == planned {
      DivCancel(planned, actual);
    }
  }

  datatype ComparisonSummary = ComparisonSummary(
    plannedDistance: real,
    actualDistance: real,
    distanceDiff: real,
    distanceDiffPercent: real,
    plannedGain: real,
    actualGain: real,
    elevationDiff: real,
    plannedDuration: Option<int>,
    actualDuration: Option<real>,
    timeDiff: Option<real>,
    timeDiffPercent: Option<real>,
    hasActualTimestamps: bool,
    plannedAvgPace: Option<real>,
    actualAvgPace: Option<real>)

  /** The actual metadata read key by key with the source's defaults. */
  function ActualDistance(a: ActualData): real
  {
    if a.metadata.Some? && a.metadata.value.totalDistance.Some? then a.metadata.value.totalDistance.value else 0.0
  }

  function ActualGain(a: ActualData): real
  {
    if a.metadata.Some? && a.metadata.value.elevationGain.Some? then a.metadata.value.elevationGain.value else 0.0
  }

  function ActualHasTimestamps(a: ActualData): bool
  {
    a.metadata.Some? && a.metadata.value.hasTimestamps == Some(true)
  }

  function ActualDuration(a: ActualData): Option<real>
  {
    if a.metadata.Some? then a.metadata.value.durationMinutes else None
  }

  /** A difference as a percentage of a non-zero base, multiplied back by the base, is the difference times 100. */
  lemma PercentOfBase(diff: real, base: real)
    ensures base != 0.0 ==> (diff / base * 100.0) * base == diff * 100.0
  {
    if base != 0.0 {
      assert diff / base * base == diff;
    }
  }

  /**
   * The summary: differences in distance, climb and time, with a distance
   * percentage of 0 against a zero planned distance, time differences only
   * when both durations are truthy, and average paces only when distance and
   * duration are both truthy.
   */
  function Summary(ev: Event, a: ActualData): (s: ComparisonSummary)
    ensures s.actualDistance == s.plannedDistance + s.distanceDiff
    ensures s.plannedDistance == 0.0 ==> s.distanceDiffPercent == 0.0
    ensures s.plannedDistance != 0.0 ==> s.distanceDiffPercent * s.plannedDistance == s.distanceDiff * 100.0
    ensures s.actualGain == s.plannedGain + s.elevationDiff
    ensures s.timeDiff.Some? <==> Truthy(s.actualDuration) && Truthy(IntAsReal(s.plannedDuration))
    ensures s.timeDiffPercent.Some? <==> s.timeDiff.Some?
    ensures s.timeDiff.Some? ==> s.actualDuration.value == s.plannedDuration.value as real + s.timeDiff.value
    ensures s.timeDiff.Some? ==>
              s.timeDiffPercent.value * s.plannedDuration.value as real == s.timeDiff.value * 100.0
    ensures s.plannedAvgPace.Some? <==> s.plannedDistance != 0.0 && Truthy(IntAsReal(s.plannedDuration))
    ensures s.actualAvgPace.Some? <==> s.actualDistance != 0.0 && Truthy(s.actualDuration)
  {
    var pd := if ev.metadata.Some? then ev.metadata.value.totalDistance else 0.0;
    var ad := ActualDistance(a);
    var pg := if ev.metadata.Some? then ev.metadata.value.elevationGain else 0.0;
    var ag := ActualGain(a);
    var pt := ev.targetDuration;
    var at := ActualDuration(a);
    var bothTimes := Truthy(at) && Truthy(IntAsReal(pt));
    PercentOfBase(ad - pd, pd);
    var timeBase := if bothTimes then pt.value as real else 0.0;
    PercentOfBase(if bothTimes then at.value - timeBase else 0.0, timeBase);
    ComparisonSummary(
      pd, ad, ad - pd,
      if pd != 0.0 then (ad - pd) / pd * 100.0 else 0.0,
      pg, ag, ag - pg,
      pt, at,
      if bothTimes then Some(at.value - timeBase) else None,
      if bothTimes then Some((at.value - timeBase) / timeBase * 100.0) else None,
      ActualHasTimestamps(a),
      if pd != 0.0 && Truthy(IntAsReal(pt)) then Some(pt.value as real / MetersToMiles(pd)) else None,
      if ad != 0.0 && Truthy(at) then Some(at.value / MetersToMiles(ad)) else None)
  }

  datatype Comparison = Comparison(
    plannedRoute: Option<seq<Coord>>,
    actualRoute: ActualData,
    plannedLegs: seq<CalculatedLeg>,
    summary: ComparisonSummary,
    legComparisons: seq<LegComparison>)

  /** Leg rows are produced only with timestamps, a truthy actual duration and at least one planned leg. */
  predicate CompareByLeg(a: ActualData, legs: seq<CalculatedLeg>)
  {
    ActualHasTimestamps(a) && Truthy(ActualDuration(a)) && |legs| > 0
  }

  /** Actual duration over planned duration, or 1 when the planned duration is not truthy. */
  function Ratio(ev: Event, a: ActualData): real
    requires Truthy(ActualDuration(a))
  {
    if HasTarget(ev) then ActualDuration(a).value / ev.targetDuration.value as real else 1.0
  }

  /**
   * get_comparison: 404 without the event or without actual data; otherwise
   * both routes as stored, the stored legs, the summary, and the leg rows
   * when they can be estimated.
   */
  method GetComparison(db: Database, eventId: Id) returns (r: Result<Comparison, HttpError>)
    ensures eventId !in db.events ==> r == Failure(NotFound("Event not found"))
    ensures eventId in db.events && db.events[eventId].actual.None? ==> r == Failure(NotFound("No actual data available"))
    ensures eventId in db.events && db.events[eventId].actual.Some? ==> r.Success?
    ensures r.Success? ==>
              var ev := db.events[eventId];
              var a := ev.actual.value;
              var legs := if eventId in db.legs then db.legs[eventId] else [];
              && eventId in db.events && ev.actual.Some?
              && r.value.plannedRoute == ev.route && r.value.actualRoute == a
              && r.value.plannedLegs == legs
              && r.value.summary == Summary(ev, a)
              && (!CompareByLeg(a, legs) ==> r.value.legComparisons == [])
              && (CompareByLeg(a, legs) ==>
                    && |r.value.legComparisons| == |legs|
                    && forall k :: 0 <= k < |legs| ==>
                         ComparesLeg(r.value.legComparisons[k], legs, k, Ratio(ev, a), db.waypoints, eventId))
  {
    if eventId !in db.events {
      return Failure(NotFound("Event not found"));
    }
    var ev := db.events[eventId];
    if ev.actual.None? {
      return Failure(NotFound("No actual data available"));
    }
    var a := ev.actual.value;
    var legs := if eventId in db.legs then db.legs[eventId] else [];
    var rows: seq<LegComparison> := [];
    if CompareByLeg(a, legs) {
      var ratio := if ev.targetDuration.Some? && ev.targetDuration.value != 0
                   then ActualDuration(a).value / ev.targetDuration.value as real else 1.0;
      rows := CompareLegs(legs, ratio, db.waypoints, eventId);
    }
    r := Success(Comparison(ev.route, a, legs, Summary(ev, a), rows));
  }
}
