// The pace redistribution engine (backend/utils/pace_calculator.py). The
// moving time (target duration minus all planned stops) is split across the
// legs in proportion to an effort factor: the leg's length in miles, stretched
// by climbing, shortened by descending, and stretched by a fatigue term that
// grows linearly from the first leg to the last. Arrival and exit times are
// chained from the start time, and running totals of distance and time are
// kept. Times are real minute offsets; the start time is one such offset.

module PaceCalculator {
  import opened Numbers
  import opened Wrappers
  import opened Strings
  import opened Geometry

  const MetersPerMile: real := 1609.34

  /** The fatigue term of leg `position` of `total`: linear from 0 on the first leg to pct/100 on the last. */
  function FatigueFactor(position: int, total: int, pct: real): (f: real)
    ensures total <= 1 ==> f == 0.0
    ensures position == 0 ==> f == 0.0
    ensures total > 1 && position == total - 1 ==> f == pct / 100.0
    ensures total > 1 && 0 <= position < total && pct >= 0.0 ==> 0.0 <= f <= pct / 100.0
  {
    if total > 1 then
      var share := position as real / (total - 1) as real;
      ShareInUnit(position, total);
      FractionScales(share, pct / 100.0);
      share * (pct / 100.0)
    else 0.0
  }

  /** A leg's position over the last position lies in [0, 1] for the legs of the route. */
  lemma ShareInUnit(position: int, total: int)
    requires total > 1
    ensures 0 <= position < total ==> 0.0 <= position as real / (total - 1) as real <= 1.0
    ensures position == total - 1 ==> position as real / (total - 1) as real == 1.0
    ensures position == 0 ==> position as real / (total - 1) as real == 0.0
  {
    if 0 <= position < total {
      UnitRatio(position as real, (total - 1) as real);
    }
  }

  lemma FractionScales(share: real, c: real)
    ensures 0.0 <= share <= 1.0 && c >= 0.0 ==> 0.0 <= share * c <= c
    ensures share == 1.0 ==> share * c == c
    ensures share == 0.0 ==> share * c == 0.0
  {
    if 0.0 <= share <= 1.0 && c >= 0.0 {
      assert c - share * c == (1.0 - share) * c;
    }
  }

  /** One plus the climbing surcharge minus the descending discount, per meter of leg. */
  function ElevationMultiplier(gain: real, loss: real, distance: real, gainPct: real, lossPct: real): real
    requires distance != 0.0
  {
    1.0 + (gain / distance) * (gainPct / 100.0) - (loss / distance) * (lossPct / 100.0)
  }

  /** A pace adjusted for elevation and fatigue (minutes per unit); a zero-length leg keeps the base pace. */
  function AdjustedPace(basePace: real, gain: real, loss: real, legDistance: real,
                        gainPct: real, lossPct: real, position: int, total: int, fatiguePct: real): (p: real)
    ensures legDistance == 0.0 ==> p == basePace
    ensures gainPct == 0.0 && lossPct == 0.0 && fatiguePct == 0.0 ==> p == basePace
  {
    if legDistance == 0.0 then basePace
    else
      var m := ElevationMultiplier(gain, loss, legDistance, gainPct, lossPct);
      var f := 1.0 + FatigueFactor(position, total, fatiguePct);
      assert gainPct == 0.0 && lossPct == 0.0 ==> m == 1.0;
      assert fatiguePct == 0.0 ==> f == 1.0;
      basePace * m * f
  }

  /** The effort factor of leg i of n: its length in miles, elevation-weighted when positive, then fatigue-weighted. */
  function LegFactor(m: LegMetrics, i: int, n: int, gainPct: real, lossPct: real, fatiguePct: real): real
  {
    var miles := m.distance / MetersPerMile;
    var elevated := if m.distance > 0.0 then miles * ElevationMultiplier(m.elevationGain, m.elevationLoss, m.distance, gainPct, lossPct) else miles;
    elevated * (1.0 + FatigueFactor(i, n, fatiguePct))
  }

  /** The effort factor of a leg of positive length is its mileage times the pace multiplier AdjustedPace applies to a unit pace. */
  lemma LegFactorIsScaledPace(m: LegMetrics, i: int, n: int, gainPct: real, lossPct: real, fatiguePct: real)
    requires m.distance > 0.0
    ensures LegFactor(m, i, n, gainPct, lossPct, fatiguePct)
         == (m.distance / MetersPerMile)
            * AdjustedPace(1.0, m.elevationGain, m.elevationLoss, m.distance, gainPct, lossPct, i, n, fatiguePct)
  {
    var miles := m.distance / MetersPerMile;
    var e := ElevationMultiplier(m.elevationGain, m.elevationLoss, m.distance, gainPct, lossPct);
    var f := 1.0 + FatigueFactor(i, n, fatiguePct);
    assert AdjustedPace(1.0, m.elevationGain, m.elevationLoss, m.distance, gainPct, lossPct, i, n, fatiguePct) == 1.0 * e * f;
    assert 1.0 * e == e;
    assert miles * e * f == miles * (e * f);
  }

  /** A zero-length leg has no effort. */
  lemma ZeroLegHasNoEffort(m: LegMetrics, i: int, n: int, gainPct: real, lossPct: real, fatiguePct: real)
    requires m.distance == 0.0
    ensures LegFactor(m, i, n, gainPct, lossPct, fatiguePct) == 0.0
  {
    assert m.distance / MetersPerMile == 0.0;
  }

  /** The effort factors of all legs; the fatigue term counts positions over all leg metrics. */
  function Factors(metrics: seq<LegMetrics>, gainPct: real, lossPct: real, fatiguePct: real): (f: seq<real>)
    ensures |f| == |metrics|
  {
    seq(|metrics|, i requires 0 <= i < |metrics| => LegFactor(metrics[i], i, |metrics|, gainPct, lossPct, fatiguePct))
  }

  /** A waypoint as the calculator sees it: identifier, optional name and planned stop in whole minutes. */
  datatype LegWaypoint = LegWaypoint(id: nat, name: Option<string>, stopTime: int)

  function StopTimes(wps: seq<LegWaypoint>): (s: seq<int>)
    ensures |s| == |wps| && forall i :: 0 <= i < |wps| ==> s[i] == wps[i].stopTime
  {
    seq(|wps|, i requires 0 <= i < |wps| => wps[i].stopTime)
  }

  /** The time left for moving once every waypoint's stop is taken out of the target. */
  function MovingTime(target: int, wps: seq<LegWaypoint>): (m: int)
    ensures m + IntSum(StopTimes(wps)) == target
  {
    target - IntSum(StopTimes(wps))
  }

  /** Time allotted to a leg: its share of the total effort applied to the moving time. */
  function LegDuration(factor: real, totalEffort: real, moving: int): real
    requires totalEffort != 0.0
  {
    (factor / totalEffort) * moving as real
  }

  /** One row of the plan. */
  datatype PlannedLeg = PlannedLeg(
    legNumber: int,
    waypointName: Option<string>,
    waypointId: nat,
    legDistance: real,
    elevationGain: real,
    elevationLoss: real,
    basePace: real,
    adjustedPace: real,
    legDuration: real,
    arrival: real,
    stopTime: int,
    exit: real,
    cumulativeDistance: real,
    cumulativeTime: real)

  /** Raised when there are legs to plan but their effort factors add up to zero. */
  datatype PlanError = ZeroTotalEffort

  /** Everything the calculator is given. */
  datatype PlanInput = PlanInput(
    eventDistance: real,
    target: int,
    waypoints: seq<LegWaypoint>,
    metrics: seq<LegMetrics>,
    gainPct: real,
    lossPct: real,
    fatiguePct: real,
    start: real)

  function LegCount(inp: PlanInput): nat
  {
    Min(|inp.waypoints|, |inp.metrics|)
  }

  function TotalEffort(inp: PlanInput): real
  {
    Sum(Factors(inp.metrics, inp.gainPct, inp.lossPct, inp.fatiguePct))
  }

  /** Leg k of `legs` is row k of the plan for `inp`, chained to row k - 1. */
  predicate LegFits(legs: seq<PlannedLeg>, k: int, inp: PlanInput)
    requires 0 <= k < |legs| && k < LegCount(inp) && TotalEffort(inp) != 0.0
  {
    var leg := legs[k];
    var wp := inp.waypoints[k];
    var m := inp.metrics[k];
    var moving := MovingTime(inp.target, inp.waypoints);
    var dur := LegDuration(Factors(inp.metrics, inp.gainPct, inp.lossPct, inp.fatiguePct)[k], TotalEffort(inp), moving);
    var miles := m.distance / MetersPerMile;
    && leg.legNumber == k + 1
    && leg.waypointName == wp.name
    && leg.waypointId == wp.id
    && leg.legDistance == m.distance
    && leg.elevationGain == m.elevationGain
    && leg.elevationLoss == m.elevationLoss
    && leg.basePace == (if inp.eventDistance > 0.0 then moving as real / inp.eventDistance else 0.0)
    && leg.legDuration == dur
    && leg.adjustedPace == (if miles > 0.0 then dur / miles else 0.0)
    && leg.arrival == (if k == 0 then inp.start else legs[k - 1].exit) + dur
    && leg.stopTime == wp.stopTime
    && leg.exit == leg.arrival + wp.stopTime as real
    && leg.cumulativeDistance == (if k == 0 then 0.0 else legs[k - 1].cumulativeDistance) + m.distance
    && leg.cumulativeTime == (if k == 0 then 0.0 else legs[k - 1].cumulativeTime) + dur + wp.stopTime as real
  }

  /** `legs` is the complete plan for `inp`: one chained row per zipped (waypoint, metrics) pair. */
  predicate IsPlan(legs: seq<PlannedLeg>, inp: PlanInput)
  {
    && |legs| == LegCount(inp)
    && (|legs| > 0 ==> TotalEffort(inp) != 0.0)
    && forall k :: 0 <= k < |legs| ==> LegFits(legs, k, inp)
  }

  /**
   * calculate_legs: computes the stop total, the effort factors, their sum, and
   * then the chained rows over the zip of waypoints and metrics. Fails exactly
   * when there is a row to compute and the effort factors sum to zero.
   */
  method CalculateLegs(inp: PlanInput) returns (r: Result<seq<PlannedLeg>, PlanError>)
    ensures r.Failure? <==> LegCount(inp) > 0 && TotalEffort(inp) == 0.0
    ensures r.Success? ==> IsPlan(r.value, inp)
  {
    var totalStop := TotalStopTime(inp.waypoints);
    var moving := inp.target - totalStop;
    var factors := ComputeFactors(inp.metrics, inp.gainPct, inp.lossPct, inp.fatiguePct);
    var total := Sum(factors);
    var n := Min(|inp.waypoints|, |inp.metrics|);
    if n > 0 && total == 0.0 {
      return Failure(ZeroTotalEffort);
    }
    if n == 0 {
      return Success([]);
    }
    var legs := ChainLegs(inp, factors, total, moving);
    return Success(legs);
  }

  /** The sum of all planned stops, accumulated waypoint by waypoint. */
  method TotalStopTime(wps: seq<LegWaypoint>) returns (total: int)
    ensures total == IntSum(StopTimes(wps))
  {
    total := 0;
    for i := 0 to |wps|
      invariant total == IntSum(StopTimes(wps)[..i])
    {
      assert StopTimes(wps)[..i + 1][..i] == StopTimes(wps)[..i];
      total := total + wps[i].stopTime;
    }
    assert StopTimes(wps)[..|wps|] == StopTimes(wps);
  }

  /** The effort factor loop: one factor per metrics entry, in order. */
  method ComputeFactors(metrics: seq<LegMetrics>, gainPct: real, lossPct: real, fatiguePct: real) returns (factors: seq<real>)
    ensures factors == Factors(metrics, gainPct, lossPct, fatiguePct)
  {
    factors := [];
    for i := 0 to |metrics|
      invariant factors == Factors(metrics, gainPct, lossPct, fatiguePct)[..i]
    {
      var m := metrics[i];
      var factor := m.distance / MetersPerMile;
      if m.distance > 0.0 {
        var gainFactor := (m.elevationGain / m.distance) * (gainPct / 100.0);
        var lossFactor := (m.elevationLoss / m.distance) * (lossPct / 100.0);
        factor := factor * (1.0 + gainFactor - lossFactor);
      }
      var fatigue := 0.0;
      if |metrics| > 1 {
        fatigue := (i as real / (|metrics| - 1) as real) * (fatiguePct / 100.0);
      }
      factor := factor * (1.0 + fatigue);
      assert factor == LegFactor(m, i, |metrics|, gainPct, lossPct, fatiguePct);
      factors := factors + [factor];
    }
  }

  /** The distribution loop: chains arrival, exit and running totals over the zipped legs. */
  method ChainLegs(inp: PlanInput, factors: seq<real>, total: real, moving: int) returns (legs: seq<PlannedLeg>)
    requires factors == Factors(inp.metrics, inp.gainPct, inp.lossPct, inp.fatiguePct)
    requires total == TotalEffort(inp) && total != 0.0
    requires moving == MovingTime(inp.target, inp.waypoints)
    ensures IsPlan(legs, inp)
  {
    var wps := inp.waypoints;
    var metrics := inp.metrics;
    var n := Min(|wps|, |metrics|);
    legs := [];
    var cumulativeDistance := 0.0;
    var cumulativeTime := 0.0;
    var current := inp.start;
    for i := 0 to n
      invariant |legs| == i
      invariant forall k :: 0 <= k < i ==> LegFits(legs, k, inp)
      invariant current == (if i == 0 then inp.start else legs[i - 1].exit)
      invariant cumulativeDistance == (if i == 0 then 0.0 else legs[i - 1].cumulativeDistance)
      invariant cumulativeTime == (if i == 0 then 0.0 else legs[i - 1].cumulativeTime)
    {
      var m := metrics[i];
      var miles := m.distance / MetersPerMile;
      var dur := (factors[i] / total) * moving as real;
      var adjusted := if miles > 0.0 then dur / miles else 0.0;
      var basePace := if inp.eventDistance > 0.0 then moving as real / inp.eventDistance else 0.0;
      current := current + dur;
      var arrival := current;
      var stop := wps[i].stopTime;
      current := current + stop as real;
      var exit := current;
      cumulativeDistance := cumulativeDistance + m.distance;
      cumulativeTime := cumulativeTime + (dur + stop as real);
      var leg := PlannedLeg(i + 1, wps[i].name, wps[i].id, m.distance, m.elevationGain, m.elevationLoss,
                            basePace, adjusted, dur, arrival, stop, exit, cumulativeDistance, cumulativeTime);
      assert dur == LegDuration(factors[i], TotalEffort(inp), MovingTime(inp.target, inp.waypoints));
      NewLegFits(legs, leg, inp);
      LegFitsAppend(legs, leg, inp);
      legs := legs + [leg];
    }
  }

  /** A row built from the previous row's exit and totals fits as the next row. */
  lemma NewLegFits(legs: seq<PlannedLeg>, leg: PlannedLeg, inp: PlanInput)
    requires |legs| < LegCount(inp) && TotalEffort(inp) != 0.0
    requires var k := |legs|;
             var wp := inp.waypoints[k];
             var m := inp.metrics[k];
             var moving := MovingTime(inp.target, inp.waypoints);
             var dur := LegDuration(Factors(inp.metrics, inp.gainPct, inp.lossPct, inp.fatiguePct)[k], TotalEffort(inp), moving);
             var miles := m.distance / MetersPerMile;
             && leg == PlannedLeg(k + 1, wp.name, wp.id, m.distance, m.elevationGain, m.elevationLoss,
                                  if inp.eventDistance > 0.0 then moving as real / inp.eventDistance else 0.0,
                                  if miles > 0.0 then dur / miles else 0.0,
                                  dur,
                                  (if k == 0 then inp.start else legs[k - 1].exit) + dur,
                                  wp.stopTime,
                                  (if k == 0 then inp.start else legs[k - 1].exit) + dur + wp.stopTime as real,
                                  (if k == 0 then 0.0 else legs[k - 1].cumulativeDistance) + m.distance,
                                  (if k == 0 then 0.0 else legs[k - 1].cumulativeTime) + (dur + wp.stopTime as real))
    ensures LegFits(legs + [leg], |legs|, inp)
  {
    var legs' := legs + [leg];
    assert legs'[|legs|] == leg;
    assert |legs| > 0 ==> legs'[|legs| - 1] == legs[|legs| - 1];
  }

  /** Appending a row keeps the earlier rows fitting. */
  lemma LegFitsAppend(legs: seq<PlannedLeg>, leg: PlannedLeg, inp: PlanInput)
    requires |legs| < LegCount(inp) && TotalEffort(inp) != 0.0
    requires forall k :: 0 <= k < |legs| ==> LegFits(legs, k, inp)
    ensures forall k :: 0 <= k < |legs| ==> LegFits(legs + [leg], k, inp)
  {
    var legs' := legs + [leg];
    forall k | 0 <= k < |legs|
      ensures LegFits(legs', k, inp)
    {
      assert legs'[k] == legs[k];
      assert k > 0 ==> legs'[k - 1] == legs[k - 1];
      assert LegFits(legs, k, inp);
    }
  }

  /** The durations of the first n legs. */
  function Durations(inp: PlanInput, n: nat): (d: seq<real>)
    requires n <= |inp.metrics| && TotalEffort(inp) != 0.0
    ensures |d| == n
  {
    var f := Factors(inp.metrics, inp.gainPct, inp.lossPct, inp.fatiguePct);
    seq(n, k requires 0 <= k < n => LegDuration(f[k], TotalEffort(inp), MovingTime(inp.target, inp.waypoints)))
  }

  function Distances(metrics: seq<LegMetrics>): (d: seq<real>)
    ensures |d| == |metrics| && forall k :: 0 <= k < |metrics| ==> d[k] == metrics[k].distance
  {
    seq(|metrics|, k requires 0 <= k < |metrics| => metrics[k].distance)
  }

  /**
   * The running totals in closed form: after leg k, the cumulative distance is the
   * sum of the first k + 1 leg distances, the cumulative time is the sum of the
   * first k + 1 durations and stops, and the exit time is the start plus that.
   */
  lemma {:induction false} PlanRunningTotals(legs: seq<PlannedLeg>, inp: PlanInput, k: nat)
    requires IsPlan(legs, inp) && k < |legs|
    ensures legs[k].cumulativeDistance == Sum(Distances(inp.metrics)[..k + 1])
    ensures legs[k].cumulativeTime == Sum(Durations(inp, k + 1)) + IntSum(StopTimes(inp.waypoints)[..k + 1]) as real
    ensures legs[k].exit == inp.start + legs[k].cumulativeTime
    decreases k
  {
    assert LegFits(legs, k, inp);
    var stops := StopTimes(inp.waypoints);
    var d := Durations(inp, k + 1);
    SumPrefixStep(Distances(inp.metrics), k);
    assert d[..k] == Durations(inp, k);
    assert Sum(d) == Sum(d[..k]) + d[k] by {
      SumPrefixStep(d, k);
      assert d[..k + 1] == d;
    }
    assert IntSum(stops[..k + 1]) == IntSum(stops[..k]) + stops[k] by {
      assert stops[..k + 1][..k] == stops[..k];
    }
    if k > 0 {
      PlanRunningTotals(legs, inp, k - 1);
    } else {
      assert Durations(inp, 0) == [];
    }
  }

  /** Sharing out M in proportion to factors that sum to T hands out exactly M. */
  lemma ProportionalShare(f: real, t: real, m: real)
    requires t != 0.0
    ensures (f / t) * m == f * (m / t)
  {
  }

  lemma DivCancel(t: real, m: real)
    requires t != 0.0
    ensures t * (m / t) == m
  {
  }

  /**
   * Time conservation: with one metrics entry per waypoint and a non-zero total
   * effort, the last leg's cumulative time is exactly the target duration.
   */
  lemma PlanConservesTime(legs: seq<PlannedLeg>, inp: PlanInput)
    requires IsPlan(legs, inp) && |inp.waypoints| == |inp.metrics| && |legs| > 0
    ensures legs[|legs| - 1].cumulativeTime == inp.target as real
  {
    var n := |legs|;
    var stops := StopTimes(inp.waypoints);
    PlanRunningTotals(legs, inp, n - 1);
    DurationsAddUp(inp);
    assert stops[..n] == stops;
  }

  /** The durations of all legs add up to the moving time. */
  lemma DurationsAddUp(inp: PlanInput)
    requires TotalEffort(inp) != 0.0
    ensures Sum(Durations(inp, |inp.metrics|)) == MovingTime(inp.target, inp.waypoints) as real
  {
    var f := Factors(inp.metrics, inp.gainPct, inp.lossPct, inp.fatiguePct);
    var t := TotalEffort(inp);
    var moving := MovingTime(inp.target, inp.waypoints) as real;
    var d := Durations(inp, |inp.metrics|);
    DurationsAreShares(inp, f, t, moving, d);
    SharesScale(f, d, t, moving);
    var rate := moving / t;
    DivCancel(t, moving);
    SharesAddUp(f, d, t, rate, moving);
  }

  lemma DurationsAreShares(inp: PlanInput, f: seq<real>, t: real, moving: real, d: seq<real>)
    requires t == TotalEffort(inp) && t != 0.0
    requires f == Factors(inp.metrics, inp.gainPct, inp.lossPct, inp.fatiguePct)
    requires moving == MovingTime(inp.target, inp.waypoints) as real
    requires d == Durations(inp, |inp.metrics|)
    ensures |d| == |f| && forall k :: 0 <= k < |d| ==> d[k] == (f[k] / t) * moving
  {
  }

  /** Shares of a total, each scaled by the same rate, add up to the total times that rate. */
  lemma SharesAddUp(f: seq<real>, d: seq<real>, t: real, rate: real, moving: real)
    requires Sum(f) == t && |d| == |f| && t * rate == moving
    requires forall k :: 0 <= k < |d| ==> d[k] == f[k] * rate
    ensures Sum(d) == moving
  {
    SumScale(f, d, rate);
  }

  lemma SharesScale(f: seq<real>, d: seq<real>, t: real, moving: real)
    requires t != 0.0 && |d| == |f|
    requires forall k :: 0 <= k < |d| ==> d[k] == (f[k] / t) * moving
    ensures forall k :: 0 <= k < |d| ==> d[k] == f[k] * (moving / t)
  {
    forall k | 0 <= k < |d|
      ensures d[k] == f[k] * (moving / t)
    {
      ProportionalShare(f[k], t, moving);
    }
  }

  /** A zero-length leg gets no time and a pace of 0. */
  lemma ZeroLengthLeg(legs: seq<PlannedLeg>, inp: PlanInput, k: nat)
    requires IsPlan(legs, inp) && k < |legs| && inp.metrics[k].distance == 0.0
    ensures legs[k].legDuration == 0.0 && legs[k].adjustedPace == 0.0
  {
    assert LegFits(legs, k, inp);
    ZeroLegHasNoEffort(inp.metrics[k], k, |inp.metrics|, inp.gainPct, inp.lossPct, inp.fatiguePct);
  }

  /** format_pace "mm:ss": whole minutes (truncated toward zero), ':', and truncated seconds padded to two digits. */
  function FormatPace(pace: real): string
  {
    var minutes := Trunc(pace);
    var seconds := Trunc((pace - minutes as real) * 60.0);
    IntToString(minutes) + ":" + ZeroPad2(seconds)
  }

  /**
   * For a pace that is not negative the two fields are the pace's whole
   * seconds split into minutes and seconds below 60.
   */
  lemma FormatPaceShowsWholeSeconds(pace: real)
    requires pace >= 0.0
    ensures var minutes := Trunc(pace);
            var seconds := Trunc((pace - minutes as real) * 60.0);
            && minutes >= 0 && 0 <= seconds < 60
            && 60 * minutes + seconds == (pace * 60.0).Floor
            && FormatPace(pace) == NatToString(minutes) + ":" + ZeroPad2(seconds)
  {
    var minutes := pace.Floor;
    var y := (pace - minutes as real) * 60.0;
    assert 0.0 <= y < 60.0;
    var seconds := y.Floor;
    assert pace * 60.0 == (60 * minutes) as real + y;
    assert (60 * minutes + seconds) as real <= pace * 60.0 < (60 * minutes + seconds + 1) as real;
  }

  /** format_time: floored hours, and minutes and seconds from Python's non-negative remainders, each padded to two digits. */
  function FormatTime(minutes: real): (s: string)
    ensures var h := (minutes / 60.0).Floor; var mm := Trunc(PyMod60(minutes)); var ss := Trunc(PyMod1(minutes) * 60.0);
            && 0 <= mm < 60 && 0 <= ss < 60
            && s == ZeroPad2(h) + ":" + ZeroPad2(mm) + ":" + ZeroPad2(ss)
  {
    var hours := (minutes / 60.0).Floor;
    var mins := Trunc(PyMod60(minutes));
    var secs := Trunc(PyMod1(minutes) * 60.0);
    ZeroPad2(hours) + ":" + ZeroPad2(mins) + ":" + ZeroPad2(secs)
  }

  /**
   * The three fields of format_time are the whole seconds of the duration
   * split into hours, minutes below 60 and seconds below 60.
   */
  lemma {:induction false} FormatTimeFieldsAddUp(minutes: real)
    ensures var h := (minutes / 60.0).Floor; var mm := Trunc(PyMod60(minutes)); var ss := Trunc(PyMod1(minutes) * 60.0);
            3600 * h + 60 * mm + ss == (minutes * 60.0).Floor
  {
    var h := (minutes / 60.0).Floor;
    var rest := PyMod60(minutes);
    assert rest == minutes - 60.0 * h as real;
    var mm := rest.Floor;
    assert Trunc(rest) == mm;
    assert (60 * h + mm) as real <= minutes < (60 * h + mm + 1) as real;
    assert minutes.Floor == 60 * h + mm;
    var frac := PyMod1(minutes) * 60.0;
    var ss := frac.Floor;
    assert Trunc(frac) == ss;
    assert minutes * 60.0 == (60 * minutes.Floor) as real + frac;
    assert (60 * minutes.Floor + ss) as real <= minutes * 60.0 < (60 * minutes.Floor + ss + 1) as real;
  }

  /** The fields of a formatted time of day below 100 hours are exactly two digits each. */
  lemma FormatTimeShape(minutes: real)
    requires 0.0 <= minutes < 6000.0
    ensures |FormatTime(minutes)| == 8
    ensures FormatTime(minutes)[2] == ':' && FormatTime(minutes)[5] == ':'
  {
    var h := (minutes / 60.0).Floor;
    assert 0 <= h < 100 by {
      assert 0.0 <= minutes / 60.0 < 100.0;
    }
    var mm := Trunc(PyMod60(minutes));
    var ss := Trunc(PyMod1(minutes) * 60.0);
    assert FormatTime(minutes) == ZeroPad2(h) + ":" + ZeroPad2(mm) + ":" + ZeroPad2(ss);
    ZeroPad2Length(h);
    ZeroPad2Length(mm);
    ZeroPad2Length(ss);
    ColonJoinShape(ZeroPad2(h), ZeroPad2(mm), ZeroPad2(ss));
  }

  /** Three two-character fields joined by ':' make eight characters with ':' at positions 2 and 5. */
  lemma ColonJoinShape(a: string, b: string, c: string)
    requires |a| == 2 && |b| == 2 && |c| == 2
    ensures |a + ":" + b + ":" + c| == 8
    ensures (a + ":" + b + ":" + c)[2] == ':' && (a + ":" + b + ":" + c)[5] == ':'
  {
  }

  lemma ZeroPad2Length(n: int)
    requires 0 <= n < 100
    ensures |ZeroPad2(n)| == 2
  {
    if n >= 10 {
      assert |NatToString(n / 10)| == 1;
    }
  }
}
