// The rows the backend keeps (backend/models.py) and the database session the
// route handlers work on. Each table is a map from row identifier to row; the
// calculated legs of an event are kept together as one sequence in leg order.
// New identifiers (uuid4 in the source) are parameters of the operations that
// insert rows.

module Store {
  import opened Wrappers
  import opened Geometry
  import opened GpxProcessor

  type Id = nat

  datatype WaypointType = Checkpoint | Food | Water | Rest
  datatype DistanceUnit = Miles | Kilometers
  datatype ElevationUnit = Meters | Feet

  /** The statistics stored next to a planned route. */
  datatype RouteMetadata = RouteMetadata(
    totalDistance: real,
    elevationGain: real,
    elevationLoss: real,
    minElevation: real,
    maxElevation: real,
    boundingBox: (Corner, Corner),
    originalPoints: nat,
    simplifiedPoints: nat)

  /**
   * The metadata of an actual (post-race) track. Every key is read with a
   * default, so each one is optional.
   */
  datatype ActualMetadata = ActualMetadata(
    totalDistance: Option<real>,
    elevationGain: Option<real>,
    elevationLoss: Option<real>,
    hasTimestamps: Option<bool>,
    durationMinutes: Option<real>)

  datatype ActualData = ActualData(coordinates: seq<Coord>, metadata: Option<ActualMetadata>)

  /**
   * An event. The planned date is a minute offset; the route is the stored
   * coordinate list. The three adjustment percentages are nullable columns
   * (None is NULL); they default to 0 on creation, and only an update can
   * store a NULL.
   */
  datatype Event = Event(
    name: string,
    plannedDate: real,
    distance: Option<real>,
    targetDuration: Option<int>,
    gainPct: Option<real>,
    lossPct: Option<real>,
    fatiguePct: Option<real>,
    route: Option<seq<Coord>>,
    metadata: Option<RouteMetadata>,
    actual: Option<ActualData>)

  datatype Waypoint = Waypoint(
    eventId: Id,
    name: Option<string>,
    kind: Option<WaypointType>,
    lat: real,
    lon: real,
    elevation: Option<real>,
    stopTime: Option<int>,
    comments: Option<string>,
    orderIndex: Option<int>,
    distanceFromStart: Option<real>)

  /** A stored leg: times are minute offsets, the cumulative time is whole minutes. */
  datatype CalculatedLeg = CalculatedLeg(
    legNumber: int,
    startWaypoint: Option<Id>,
    endWaypoint: Id,
    legDistance: real,
    elevationGain: real,
    elevationLoss: real,
    basePace: real,
    adjustedPace: real,
    arrival: real,
    stopTime: int,
    exit: real,
    cumulativeDistance: real,
    cumulativeTime: int)

  datatype UserSettings = UserSettings(
    distanceUnit: DistanceUnit,
    paceFormat: string,
    elevationUnit: ElevationUnit,
    openaiKey: Option<string>,
    stylePreferences: Option<string>)

  /** The row created when there is none: the column defaults. */
  const DefaultSettings := UserSettings(Miles, "mm:ss", Feet, None, None)

  /** The HTTP errors the handlers raise; a server error stands for an uncaught exception. */
  datatype HttpError = NotFound(detail: string) | BadRequest(detail: string) | ServerError

  class Database {
    var events: map<Id, Event>
    var waypoints: map<Id, Waypoint>
    var legs: map<Id, seq<CalculatedLeg>>
    var settings: Option<UserSettings>

    constructor()
      ensures events == map[] && waypoints == map[] && legs == map[] && settings == None
    {
      events := map[];
      waypoints := map[];
      legs := map[];
      settings := None;
    }
  }

  /** The identifiers of the waypoints that belong to an event. */
  function EventWaypoints(wps: map<Id, Waypoint>, eventId: Id): (s: set<Id>)
    ensures forall id :: id in s <==> id in wps && wps[id].eventId == eventId
  {
    set id | id in wps && wps[id].eventId == eventId
  }

  // ------------------------------------------------- ORDER BY distance_from_start

  /** Ascending order with NULLs last, as PostgreSQL sorts a nullable column. */
  predicate NullsLastLe(a: Option<real>, b: Option<real>)
  {
    b.None? || (a.Some? && a.value <= b.value)
  }

  predicate SortedByDistance(order: seq<Id>, wps: map<Id, Waypoint>)
  {
    && (forall i :: 0 <= i < |order| ==> order[i] in wps)
    && forall i, j :: 0 <= i < j < |order| ==>
         NullsLastLe(wps[order[i]].distanceFromStart, wps[order[j]].distanceFromStart)
  }

  /** Inserting one identifier in front of the first one it does not come after. */
  function InsertByDistance(order: seq<Id>, id: Id, wps: map<Id, Waypoint>): (r: seq<Id>)
    requires id in wps && forall i :: 0 <= i < |order| ==> order[i] in wps
  {
    if |order| == 0 then [id]
    else if NullsLastLe(wps[id].distanceFromStart, wps[order[0]].distanceFromStart) then [id] + order
    else [order[0]] + InsertByDistance(order[1..], id, wps)
  }

  /** Insertion adds exactly the one identifier. */
  lemma {:induction false} InsertAddsOne(order: seq<Id>, id: Id, wps: map<Id, Waypoint>)
    requires id in wps && forall i :: 0 <= i < |order| ==> order[i] in wps
    ensures multiset(InsertByDistance(order, id, wps)) == multiset(order) + multiset{id}
    decreases |order|
  {
    if |order| > 0 && !NullsLastLe(wps[id].distanceFromStart, wps[order[0]].distanceFromStart) {
      InsertAddsOne(order[1..], id, wps);
      assert order == [order[0]] + order[1..];
    }
  }

  /** Insertion keeps the order sorted. */
  lemma {:induction false} InsertKeepsSorted(order: seq<Id>, id: Id, wps: map<Id, Waypoint>)
    requires id in wps && SortedByDistance(order, wps)
    ensures SortedByDistance(InsertByDistance(order, id, wps), wps)
    decreases |order|
  {
    var r := InsertByDistance(order, id, wps);
    if |order| > 0 && !NullsLastLe(wps[id].distanceFromStart, wps[order[0]].distanceFromStart) {
      var rest := InsertByDistance(order[1..], id, wps);
      InsertKeepsSorted(order[1..], id, wps);
      InsertAddsOne(order[1..], id, wps);
      assert r == [order[0]] + rest;
      forall j | 0 < j < |r|
        ensures NullsLastLe(wps[order[0]].distanceFromStart, wps[r[j]].distanceFromStart)
      {
        assert r[j] == rest[j - 1];
        assert r[j] in multiset(rest);
        if r[j] != id {
          assert r[j] in multiset(order[1..]);
          var k :| 0 <= k < |order[1..]| && order[1..][k] == r[j];
          assert order[k + 1] == r[j];
        }
      }
    }
  }

  /**
   * The waypoints of an event as the ORDER BY distance_from_start query
   * returns them: each exactly once, in ascending distance, NULLs last.
   * Rows with equal distance come in an order the database chooses; here, the
   * order in which the set of rows is enumerated.
   */
  method WaypointsByDistance(db: Database, eventId: Id) returns (order: seq<Id>)
    ensures multiset(order) == multiset(EventWaypoints(db.waypoints, eventId))
    ensures SortedByDistance(order, db.waypoints)
  {
    var all := EventWaypoints(db.waypoints, eventId);
    var remaining := all;
    order := [];
    while remaining != {}
      invariant remaining <= all
      invariant multiset(order) + multiset(remaining) == multiset(all)
      invariant SortedByDistance(order, db.waypoints)
      decreases |remaining|
    {
      var id :| id in remaining;
      InsertKeepsSorted(order, id, db.waypoints);
      InsertAddsOne(order, id, db.waypoints);
      order := InsertByDistance(order, id, db.waypoints);
      assert multiset(remaining) == multiset(remaining - {id}) + multiset{id};
      remaining := remaining - {id};
    }
  }
}
