// The records the React client receives from the API (frontend/src/types/index.ts),
// with the optional properties as Option, and the JavaScript number
// formatting the client relies on.

module UiTypes {
  import opened Wrappers
  import opened Geometry
  import Store

  /** A waypoint as the client holds it. */
  datatype UiWaypoint = UiWaypoint(
    id: string,
    name: Option<string>,
    kind: Store.WaypointType,
    lat: real,
    lon: real,
    elevation: Option<real>,
    stopTime: int,
    comments: Option<string>,
    orderIndex: Option<int>,
    distanceFromStart: Option<real>)

  /**
   * The route as the client holds it: its coordinate list and the total
   * distance of its metadata. A missing route object and a missing
   * coordinate list are the same None, as are a missing metadata object and
   * a missing total.
   */
  datatype RouteData = RouteData(coordinates: Option<seq<Coord>>, totalDistance: Option<real>)

  /** A calculated leg as the client holds it; times are display strings. */
  datatype UiLeg = UiLeg(
    legNumber: int,
    endWaypoint: Option<string>,
    legDistance: Option<real>,
    elevationGain: Option<real>,
    elevationLoss: Option<real>,
    basePace: Option<real>,
    adjustedPace: Option<real>,
    arrival: Option<string>,
    stopTime: Option<int>,
    exit: Option<string>,
    cumulativeDistance: Option<real>,
    cumulativeTime: Option<real>)

  /** An event as the client holds it. */
  datatype UiEvent = UiEvent(name: string, plannedDate: string, targetDuration: Option<int>)

  /**
   * Number.prototype.toFixed(digits). Its decimal rounding is not modelled;
   * it always produces some text.
   */
  type ToFixed = f: (real, nat) -> string | forall x, digits :: |f(x, digits)| > 0
    witness (x: real, digits: nat) => "0"

  /** JavaScript truthiness of an optional number: undefined and 0 are falsy. */
  predicate Falsy(x: Option<real>)
  {
    x.None? || x.value == 0.0
  }

  /** `x || 0` for an optional number. */
  function OrZero(x: Option<real>): (r: real)
    ensures Falsy(x) ==> r == 0.0
    ensures !Falsy(x) ==> r == x.value
  {
    if x.Some? then x.value else 0.0
  }

  /** Array.prototype.find by identifier: the first waypoint with that id. */
  function FindWaypoint(wps: seq<UiWaypoint>, id: string): (r: Option<nat>)
    ensures r.None? <==> forall i :: 0 <= i < |wps| ==> wps[i].id != id
    ensures r.Some? ==> r.value < |wps| && wps[r.value].id == id
                        && forall i :: 0 <= i < r.value ==> wps[i].id != id
  {
    if |wps| == 0 then None
    else if wps[0].id == id then Some(0)
    else
      var rest := FindWaypoint(wps[1..], id);
      if rest.None? then None else Some(rest.value + 1)
  }
}
