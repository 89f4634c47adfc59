// Waypoint routes (backend/routes/waypoints.py): creating a waypoint places it
// on the event's route and gives it the next order index, updating applies
// only the fields sent and re-places a moved waypoint, and deleting refuses
// the START and FINISH waypoints.

module WaypointRoutes {
  import opened Wrappers
  import opened Geometry
  import opened GpxProcessor
  import opened Store

  /** The body of a create request; the stop time defaults to 0 in the request schema. */
  datatype WaypointCreate = WaypointCreate(
    eventId: Id,
    name: Option<string>,
    kind: WaypointType,
    lat: real,
    lon: real,
    elevation: Option<real>,
    stopTime: int,
    comments: Option<string>)

  /**
   * The body of an update request. An outer None is a field that was not
   * sent; for a nullable column the inner value may itself be None.
   */
  datatype WaypointUpdate = WaypointUpdate(
    name: Option<Option<string>>,
    kind: Option<Option<WaypointType>>,
    lat: Option<real>,
    lon: Option<real>,
    elevation: Option<Option<real>>,
    stopTime: Option<Option<int>>,
    comments: Option<Option<string>>)

  /** Python truthiness of an optional number. */
  predicate Falsy(x: Option<real>)
  {
    x.None? || x.value == 0.0
  }

  /** The number of waypoints an event has. */
  function WaypointCount(wps: map<Id, Waypoint>, eventId: Id): nat
  {
    |EventWaypoints(wps, eventId)|
  }

  /** Adding a waypoint of an event under a fresh identifier raises that event's count by one and leaves other events' counts alone. */
  lemma CountAfterInsert(wps: map<Id, Waypoint>, newId: Id, w: Waypoint, eventId: Id)
    requires newId !in wps
    ensures w.eventId == eventId ==> WaypointCount(wps[newId := w], eventId) == WaypointCount(wps, eventId) + 1
    ensures w.eventId != eventId ==> WaypointCount(wps[newId := w], eventId) == WaypointCount(wps, eventId)
  {
    if w.eventId == eventId {
      assert EventWaypoints(wps[newId := w], eventId) == EventWaypoints(wps, eventId) + {newId};
    } else {
      assert EventWaypoints(wps[newId := w], eventId) == EventWaypoints(wps, eventId);
    }
  }

  /**
   * create_waypoint: 404 and nothing stored when the event does not exist.
   * Otherwise the request is stored under the new identifier with the order
   * index set to the event's previous waypoint count. With a route, the
   * distance from start is the along-route distance of the closest route
   * point (the corrected search; the source reports the distance of the
   * point before it) and a falsy elevation is taken from that point.
   */
  method CreateWaypoint(db: Database, newId: Id, req: WaypointCreate, hav: GreatCircle)
    returns (r: Result<Waypoint, HttpError>, closest: nat)
    requires newId !in db.waypoints
    modifies db
    ensures db.events == old(db.events) && db.legs == old(db.legs) && db.settings == old(db.settings)
    ensures req.eventId !in db.events ==> r == Failure(NotFound("Event not found")) && db.waypoints == old(db.waypoints)
    ensures req.eventId in db.events ==> r.Success?
    ensures r.Success? ==>
              var w := r.value;
              var route := db.events[req.eventId].route;
              && db.waypoints == old(db.waypoints)[newId := w]
              && w.eventId == req.eventId && w.name == req.name && w.kind == Some(req.kind)
              && w.lat == req.lat && w.lon == req.lon
              && w.stopTime == Some(req.stopTime) && w.comments == req.comments
              && w.orderIndex == Some(WaypointCount(old(db.waypoints), req.eventId))
              && (route.None? ==> w.distanceFromStart == None && w.elevation == req.elevation)
              && (route.Some? && |route.value| == 0 ==> w.distanceFromStart == Some(0.0) && w.elevation == req.elevation)
              && (route.Some? && |route.value| > 0 ==>
                    && IsFirstNearest(route.value, closest, req.lat, req.lon, hav)
                    && w.distanceFromStart == Some(AlongRoute(route.value, closest, hav))
                    && w.elevation == (if Falsy(req.elevation) then Some(route.value[closest].ele) else req.elevation))
  {
    closest := 0;
    if req.eventId !in db.events {
      return Failure(NotFound("Event not found")), closest;
    }
    var ev := db.events[req.eventId];
    var w := Waypoint(req.eventId, req.name, Some(req.kind), req.lat, req.lon, req.elevation,
                      Some(req.stopTime), req.comments, None, None);
    if ev.route.Some? {
      var coords := ev.route.value;
      var distance;
      closest, distance := FindClosestPointCorrected(coords, req.lat, req.lon, hav);
      w := w.(distanceFromStart := Some(distance));
      if Falsy(w.elevation) && closest < |coords| {
        w := w.(elevation := Some(coords[closest].ele));
      }
    }
    w := w.(orderIndex := Some(WaypointCount(db.waypoints, req.eventId)));
    db.waypoints := db.waypoints[newId := w];
    r := Success(w);
  }

  /** `w` is `before` with every field the update sent set to the value sent, distance aside. */
  predicate UpdatedFields(before: Waypoint, upd: WaypointUpdate, w: Waypoint)
  {
    && w.eventId == before.eventId
    && w.name == (if upd.name.Some? then upd.name.value else before.name)
    && w.kind == (if upd.kind.Some? then upd.kind.value else before.kind)
    && w.lat == (if upd.lat.Some? then upd.lat.value else before.lat)
    && w.lon == (if upd.lon.Some? then upd.lon.value else before.lon)
    && w.elevation == (if upd.elevation.Some? then upd.elevation.value else before.elevation)
    && w.stopTime == (if upd.stopTime.Some? then upd.stopTime.value else before.stopTime)
    && w.comments == (if upd.comments.Some? then upd.comments.value else before.comments)
    && w.orderIndex == before.orderIndex
  }

  /** The setattr loop over the fields that were sent. */
  method ApplyFields(before: Waypoint, upd: WaypointUpdate) returns (w: Waypoint)
    ensures UpdatedFields(before, upd, w) && w.distanceFromStart == before.distanceFromStart
  {
    w := before;
    if upd.name.Some? { w := w.(name := upd.name.value); }
    if upd.kind.Some? { w := w.(kind := upd.kind.value); }
    if upd.lat.Some? { w := w.(lat := upd.lat.value); }
    if upd.lon.Some? { w := w.(lon := upd.lon.value); }
    if upd.elevation.Some? { w := w.(elevation := upd.elevation.value); }
    if upd.stopTime.Some? { w := w.(stopTime := upd.stopTime.value); }
    if upd.comments.Some? { w := w.(comments := upd.comments.value); }
  }

  /**
   * The response model requires a waypoint type and a stop time, so a
   * waypoint whose type or stop time is NULL cannot be returned.
   */
  predicate HasNullRequiredField(w: Waypoint)
  {
    w.kind.None? || w.stopTime.None?
  }

  /**
   * update_waypoint: 404 for a missing waypoint. Otherwise every field sent
   * is set and every other field keeps its value, except that when latitude
   * or longitude was sent and the event has a route, the distance from start
   * is recomputed as the along-route distance of the route point closest to
   * the new position (the corrected search, as in create_waypoint). The
   * update is committed before the response is built, so a NULL type or stop
   * time is kept and answered with a server error.
   */
  method UpdateWaypoint(db: Database, id: Id, upd: WaypointUpdate, hav: GreatCircle)
    returns (r: Result<Waypoint, HttpError>, closest: nat)
    modifies db
    ensures db.events == old(db.events) && db.legs == old(db.legs) && db.settings == old(db.settings)
    ensures id !in old(db.waypoints) ==> r == Failure(NotFound("Waypoint not found")) && db.waypoints == old(db.waypoints)
    ensures id in old(db.waypoints) ==>
              var before := old(db.waypoints)[id];
              var moved := upd.lat.Some? || upd.lon.Some?;
              var route := if before.eventId in db.events then db.events[before.eventId].route else None;
              && id in db.waypoints
              && var w := db.waypoints[id];
              && db.waypoints == old(db.waypoints)[id := w]
              && UpdatedFields(before, upd, w)
              && (!moved || route.None? ==> w.distanceFromStart == before.distanceFromStart)
              && (moved && route.Some? && |route.value| == 0 ==> w.distanceFromStart == Some(0.0))
              && (moved && route.Some? && |route.value| > 0 ==>
                    && IsFirstNearest(route.value, closest, w.lat, w.lon, hav)
                    && w.distanceFromStart == Some(AlongRoute(route.value, closest, hav)))
              && (HasNullRequiredField(w) ==> r == Failure(ServerError))
              && (!HasNullRequiredField(w) ==> r == Success(w))
  {
    closest := 0;
    if id !in db.waypoints {
      return Failure(NotFound("Waypoint not found")), closest;
    }
    var before := db.waypoints[id];
    var w := ApplyFields(before, upd);
    if upd.lat.Some? || upd.lon.Some? {
      if w.eventId in db.events && db.events[w.eventId].route.Some? {
        var coords := db.events[w.eventId].route.value;
        var distance;
        closest, distance := FindClosestPointCorrected(coords, w.lat, w.lon, hav);
        w := w.(distanceFromStart := Some(distance));
      }
    }
    db.waypoints := db.waypoints[id := w];
    if HasNullRequiredField(w) {
      return Failure(ServerError), closest;
    }
    r := Success(w);
  }

  /**
   * An update leaves a NULL type or stop time exactly when it sends that
   * NULL, or leaves unsent a field that was already NULL.
   */
  lemma NullAfterUpdate(before: Waypoint, upd: WaypointUpdate, w: Waypoint)
    requires UpdatedFields(before, upd, w)
    ensures HasNullRequiredField(w) <==>
              || upd.kind == Some(None) || (upd.kind.None? && before.kind.None?)
              || upd.stopTime == Some(None) || (upd.stopTime.None? && before.stopTime.None?)
  {
  }

  /** The names the backend refuses to delete. */
  predicate IsEndpoint(w: Waypoint)
  {
    w.name == Some("START") || w.name == Some("FINISH")
  }

  /**
   * delete_waypoint: 404 for a missing waypoint, 400 for START and FINISH
   * (which stay in place), otherwise the waypoint is removed and nothing
   * else changes.
   */
  method DeleteWaypoint(db: Database, id: Id) returns (r: Result<(), HttpError>)
    modifies db
    ensures db.events == old(db.events) && db.legs == old(db.legs) && db.settings == old(db.settings)
    ensures id !in old(db.waypoints) ==> r == Failure(NotFound("Waypoint not found")) && db.waypoints == old(db.waypoints)
    ensures id in old(db.waypoints) && IsEndpoint(old(db.waypoints)[id]) ==>
              r == Failure(BadRequest("Cannot delete START or FINISH waypoints")) && db.waypoints == old(db.waypoints)
    ensures id in old(db.waypoints) && !IsEndpoint(old(db.waypoints)[id]) ==>
              r.Success? && db.waypoints == old(db.waypoints) - {id}
  {
    if id !in db.waypoints {
      return Failure(NotFound("Waypoint not found"));
    }
    if db.waypoints[id].name == Some("START") || db.waypoints[id].name == Some("FINISH") {
      return Failure(BadRequest("Cannot delete START or FINISH waypoints"));
    }
    db.waypoints := db.waypoints - {id};
    r := Success(());
  }
}
