// Event routes (backend/routes/events.py): the partial update of an event,
// the planned-route upload that resets the event to exactly a START and a
// FINISH waypoint, the actual-route upload that stores a post-race track
// beside the plan, and the route lookup.

module EventRoutes {
  import opened Wrappers
  import opened Geometry
  import opened GpxProcessor
  import opened Store
  import Calculations
  import Strings

  /**
   * The body of an update request. An outer None is a field that was not
   * sent; distance, target duration and the three percentages are nullable
   * and may be sent as null.
   */
  datatype EventUpdate = EventUpdate(
    name: Option<string>,
    plannedDate: Option<real>,
    distance: Option<Option<real>>,
    targetDuration: Option<Option<int>>,
    gainPct: Option<Option<real>>,
    lossPct: Option<Option<real>>,
    fatiguePct: Option<Option<real>>)

  /** `e` is `before` with every field the update sent set to the value sent. */
  predicate UpdatedEvent(before: Event, upd: EventUpdate, e: Event)
  {
    && e.name == (if upd.name.Some? then upd.name.value else before.name)
    && e.plannedDate == (if upd.plannedDate.Some? then upd.plannedDate.value else before.plannedDate)
    && e.distance == (if upd.distance.Some? then upd.distance.value else before.distance)
    && e.targetDuration == (if upd.targetDuration.Some? then upd.targetDuration.value else before.targetDuration)
    && e.gainPct == (if upd.gainPct.Some? then upd.gainPct.value else before.gainPct)
    && e.lossPct == (if upd.lossPct.Some? then upd.lossPct.value else before.lossPct)
    && e.fatiguePct == (if upd.fatiguePct.Some? then upd.fatiguePct.value else before.fatiguePct)
    && e.route == before.route && e.metadata == before.metadata && e.actual == before.actual
  }

  /** The stored event with every field sent replacing the stored one. */
  function ApplyUpdate(before: Event, upd: EventUpdate): (e: Event)
    ensures UpdatedEvent(before, upd, e)
  {
    before.(
      name := if upd.name.Some? then upd.name.value else before.name,
      plannedDate := if upd.plannedDate.Some? then upd.plannedDate.value else before.plannedDate,
      distance := if upd.distance.Some? then upd.distance.value else before.distance,
      targetDuration := if upd.targetDuration.Some? then upd.targetDuration.value else before.targetDuration,
      gainPct := if upd.gainPct.Some? then upd.gainPct.value else before.gainPct,
      lossPct := if upd.lossPct.Some? then upd.lossPct.value else before.lossPct,
      fatiguePct := if upd.fatiguePct.Some? then upd.fatiguePct.value else before.fatiguePct)
  }

  /** A percentage column holds NULL, which the response schema's float fields refuse. */
  predicate HasNullPercent(e: Event)
  {
    e.gainPct.None? || e.lossPct.None? || e.fatiguePct.None?
  }

  /**
   * update_event: 404 for a missing event; otherwise only the fields sent
   * change and are committed. The response is the stored event, unless a
   * percentage is now NULL: the response model then fails to validate after
   * the commit, which is a 500 with the update kept.
   */
  method UpdateEvent(db: Database, eventId: Id, upd: EventUpdate) returns (r: Result<Event, HttpError>)
    modifies db
    ensures db.waypoints == old(db.waypoints) && db.legs == old(db.legs) && db.settings == old(db.settings)
    ensures eventId !in old(db.events) ==> r == Failure(NotFound("Event not found")) && db.events == old(db.events)
    ensures eventId in old(db.events) ==>
              && eventId in db.events
              && db.events == old(db.events)[eventId := db.events[eventId]]
              && UpdatedEvent(old(db.events)[eventId], upd, db.events[eventId])
              && (HasNullPercent(db.events[eventId]) ==> r == Failure(ServerError))
              && (!HasNullPercent(db.events[eventId]) ==> r == Success(db.events[eventId]))
  {
    if eventId !in db.events {
      return Failure(NotFound("Event not found"));
    }
    var e := ApplyUpdate(db.events[eventId], upd);
    db.events := db.events[eventId := e];
    if HasNullPercent(e) {
      return Failure(ServerError);
    }
    r := Success(e);
  }

  /** The metadata stored with a planned route. */
  function MetadataOf(g: ParsedGpx): RouteMetadata
  {
    RouteMetadata(g.totalDistance, g.elevationGain, g.elevationLoss, g.minElevation, g.maxElevation,
                  g.boundingBox, g.originalPoints, g.simplifiedPoints)
  }

  /** The START waypoint of a route: first point, order 0, distance 0, no stop. */
  function StartWaypoint(eventId: Id, first: Coord): Waypoint
  {
    Waypoint(eventId, Some("START"), Some(Checkpoint), first.lat, first.lon, Some(first.ele), Some(0),
             Some("Start of route"), Some(0), Some(0.0))
  }

  /** The FINISH waypoint of a route: last point, order 999999, distance the route length, no stop. */
  function FinishWaypoint(eventId: Id, last: Coord, totalDistance: real): Waypoint
  {
    Waypoint(eventId, Some("FINISH"), Some(Checkpoint), last.lat, last.lon, Some(last.ele), Some(0),
             Some("End of route"), Some(999999), Some(totalDistance))
  }

  /** The waypoints of every other event. */
  function OtherEventsWaypoints(wps: map<Id, Waypoint>, eventId: Id): (m: map<Id, Waypoint>)
    ensures forall id :: id in m <==> id in wps && wps[id].eventId != eventId
  {
    map id | id in wps && wps[id].eventId != eventId :: wps[id]
  }

  /**
   * What reads an uploaded track: UTF-8 decoding of the file, the GPX parser
   * (a track or the message it raises), and the two numeric collaborators of
   * parse_gpx_file.
   */
  datatype GpxReader = GpxReader(
    decodeUtf8: Strings.Bytes -> Option<string>,
    parse: string -> Result<seq<TrackPoint>, string>,
    d3: Distance3d,
    rdp: seq<(real, real)> -> seq<(real, real)>)

  /** The parser's outcome for a file, or None when the file is not UTF-8. */
  function ReadTrack(reader: GpxReader, content: Strings.Bytes): Option<Result<seq<TrackPoint>, string>>
  {
    if reader.decodeUtf8(content).None? then None else Some(reader.parse(reader.decodeUtf8(content).value))
  }

  const GpxErrorDetail: string := "Error processing GPX file: "
  const ActualErrorDetail: string := "Error processing file: "

  /**
   * upload_gpx: 404 for a missing event; a file that is not UTF-8 raises
   * before the handler's try, so 500; a file that does not parse into a
   * route is a 400 carrying the exception's text. Otherwise the route and
   * its metadata are stored, the event distance is set from the route only
   * when it was falsy, every waypoint of the event is deleted, and a START
   * and a FINISH waypoint are created at the route's first and last points.
   */
  method UploadGpx(db: Database, eventId: Id, content: Strings.Bytes, reader: GpxReader, startId: Id, finishId: Id)
    returns (r: Result<RouteMetadata, HttpError>)
    requires startId != finishId && startId !in db.waypoints && finishId !in db.waypoints
    modifies db
    ensures db.legs == old(db.legs) && db.settings == old(db.settings)
    ensures eventId !in old(db.events) ==> r == Failure(NotFound("Event not found"))
    ensures r.Failure? ==> db.events == old(db.events) && db.waypoints == old(db.waypoints)
    ensures eventId in old(db.events) && ReadTrack(reader, content).None? ==> r == Failure(ServerError)
    ensures eventId in old(db.events) && ReadTrack(reader, content).Some? ==>
              var parsed := ReadTrack(reader, content).value;
              && (parsed.Failure? ==> r == Failure(BadRequest(GpxErrorDetail + parsed.error)))
              && (parsed.Success? && |SimplifiedRoute(parsed.value, reader.rdp)| == 0 ==>
                    r == Failure(BadRequest(GpxErrorDetail + EmptyMinMessage)))
              && (parsed.Success? && |SimplifiedRoute(parsed.value, reader.rdp)| > 0 ==> r.Success?)
    ensures r.Success? ==>
              && ReadTrack(reader, content).Some? && ReadTrack(reader, content).value.Success?
              && exists g :: UploadedRoute(db.events, db.waypoints, old(db.events), old(db.waypoints), eventId, g, r.value,
                                           startId, finishId)
                             && ParsedFrom(g, ReadTrack(reader, content).value.value, reader.d3, reader.rdp)
  {
    if eventId !in db.events {
      return Failure(NotFound("Event not found"));
    }
    var text := reader.decodeUtf8(content);
    if text.None? {
      return Failure(ServerError);
    }
    var gpx := ParseGpxFile(reader.parse(text.value), reader.d3, reader.rdp);
    if gpx.Failure? {
      return Failure(BadRequest(GpxErrorDetail + GpxErrorText(gpx.error)));
    }
    var meta := StoreRoute(db, eventId, gpx.value, startId, finishId);
    r := Success(meta);
  }

  /**
   * The body of upload_gpx's try block after the parse: store the route and
   * its metadata, set a falsy distance from the route, and replace the
   * event's waypoints by START and FINISH.
   */
  method StoreRoute(db: Database, eventId: Id, g: ParsedGpx, startId: Id, finishId: Id) returns (meta: RouteMetadata)
    requires eventId in db.events && |g.coordinates| > 0
    modifies db
    ensures db.legs == old(db.legs) && db.settings == old(db.settings)
    ensures UploadedRoute(db.events, db.waypoints, old(db.events), old(db.waypoints), eventId, g, meta, startId, finishId)
  {
    var ev := db.events[eventId];
    meta := MetadataOf(g);
    ev := ev.(route := Some(g.coordinates), metadata := Some(meta));
    if ev.distance.None? || ev.distance.value == 0.0 {
      ev := ev.(distance := Some(MetersToMiles(g.totalDistance)));
    }
    db.events := db.events[eventId := ev];
    db.waypoints := OtherEventsWaypoints(db.waypoints, eventId);
    var coords := g.coordinates;
    if |coords| > 0 {
      db.waypoints := db.waypoints[startId := StartWaypoint(eventId, coords[0])];
      db.waypoints := db.waypoints[finishId := FinishWaypoint(eventId, coords[|coords| - 1], g.totalDistance)];
    }
  }

  /** The state after a successful planned-route upload of `g`. */
  predicate UploadedRoute(events: map<Id, Event>, wps: map<Id, Waypoint>,
                          oldEvents: map<Id, Event>, oldWps: map<Id, Waypoint>,
                          eventId: Id, g: ParsedGpx, meta: RouteMetadata, startId: Id, finishId: Id)
  {
    var coords := g.coordinates;
    && eventId in oldEvents && |coords| > 0
    && meta == MetadataOf(g)
    && eventId in events && events == oldEvents[eventId := events[eventId]]
    && events[eventId] == oldEvents[eventId].(
         route := Some(coords),
         metadata := Some(meta),
         distance := if oldEvents[eventId].distance.None? || oldEvents[eventId].distance.value == 0.0
                     then Some(MetersToMiles(g.totalDistance)) else oldEvents[eventId].distance)
    && wps == OtherEventsWaypoints(oldWps, eventId)[startId := StartWaypoint(eventId, coords[0])]
                                                   [finishId := FinishWaypoint(eventId, coords[|coords| - 1], g.totalDistance)]
  }

  /**
   * After a planned-route upload the event has exactly two waypoints, START
   * and FINISH, and every other event's waypoints are as they were.
   */
  lemma UploadLeavesStartAndFinish(events: map<Id, Event>, wps: map<Id, Waypoint>,
                                   oldEvents: map<Id, Event>, oldWps: map<Id, Waypoint>,
                                   eventId: Id, g: ParsedGpx, meta: RouteMetadata, startId: Id, finishId: Id)
    requires UploadedRoute(events, wps, oldEvents, oldWps, eventId, g, meta, startId, finishId)
    requires startId != finishId && startId !in oldWps && finishId !in oldWps
    ensures EventWaypoints(wps, eventId) == {startId, finishId}
    ensures wps[startId].name == Some("START") && wps[startId].orderIndex == Some(0)
    ensures wps[startId].distanceFromStart == Some(0.0)
    ensures wps[startId].lat == g.coordinates[0].lat && wps[startId].lon == g.coordinates[0].lon
    ensures wps[finishId].name == Some("FINISH") && wps[finishId].orderIndex == Some(999999)
    ensures wps[finishId].distanceFromStart == Some(g.totalDistance)
    ensures wps[finishId].lat == g.coordinates[|g.coordinates| - 1].lat
    ensures wps[finishId].lon == g.coordinates[|g.coordinates| - 1].lon
    ensures forall id :: id in oldWps && oldWps[id].eventId != eventId ==> id in wps && wps[id] == oldWps[id]
  {
    var others := OtherEventsWaypoints(oldWps, eventId);
    forall id | id in EventWaypoints(wps, eventId)
      ensures id == startId || id == finishId
    {
      if id != startId && id != finishId {
        assert false;
      }
    }
  }

  /**
   * upload_actual_gpx: 404 for a missing event, 500 for a file that is not
   * UTF-8, and 400 carrying the exception's text when the file does not
   * parse. Otherwise only the actual data changes: the track and its
   * distance, climb and descent. The planned route is left alone.
   */
  method UploadActualGpx(db: Database, eventId: Id, content: Strings.Bytes, reader: GpxReader)
    returns (r: Result<ActualMetadata, HttpError>)
    modifies db
    ensures db.waypoints == old(db.waypoints) && db.legs == old(db.legs) && db.settings == old(db.settings)
    ensures eventId !in old(db.events) ==> r == Failure(NotFound("Event not found"))
    ensures r.Failure? ==> db.events == old(db.events)
    ensures eventId in old(db.events) && ReadTrack(reader, content).None? ==> r == Failure(ServerError)
    ensures eventId in old(db.events) && ReadTrack(reader, content).Some? ==>
              var parsed := ReadTrack(reader, content).value;
              && (parsed.Failure? ==> r == Failure(BadRequest(ActualErrorDetail + parsed.error)))
              && (parsed.Success? && |SimplifiedRoute(parsed.value, reader.rdp)| == 0 ==>
                    r == Failure(BadRequest(ActualErrorDetail + EmptyMinMessage)))
              && (parsed.Success? && |SimplifiedRoute(parsed.value, reader.rdp)| > 0 ==> r.Success?)
    ensures r.Success? ==>
              && eventId in old(db.events)
              && ReadTrack(reader, content).Some? && ReadTrack(reader, content).value.Success?
              && var points := ReadTrack(reader, content).value.value;
              && r.value == ActualMetadata(Some(TrackDistance(points, |points|, reader.d3)),
                                           Some(TrackGain(points, |points|)),
                                           Some(TrackLoss(points, |points|)), None, None)
              && db.events == old(db.events)[eventId := old(db.events)[eventId].(
                   actual := Some(ActualData(SimplifiedRoute(points, reader.rdp), Some(r.value))))]
  {
    if eventId !in db.events {
      return Failure(NotFound("Event not found"));
    }
    var text := reader.decodeUtf8(content);
    if text.None? {
      return Failure(ServerError);
    }
    var gpx := ParseGpxFile(reader.parse(text.value), reader.d3, reader.rdp);
    if gpx.Failure? {
      return Failure(BadRequest(ActualErrorDetail + GpxErrorText(gpx.error)));
    }
    var g := gpx.value;
    var meta := ActualMetadata(Some(g.totalDistance), Some(g.elevationGain), Some(g.elevationLoss), None, None);
    var ev := db.events[eventId];
    db.events := db.events[eventId := ev.(actual := Some(ActualData(g.coordinates, Some(meta))))];
    r := Success(meta);
  }

  /**
   * The actual upload stores no timestamp flag and no duration, so a
   * comparison against such data never estimates leg times, and its summary
   * has no time difference.
   */
  lemma ActualUploadHasNoLegTimes(ev: Event, coords: seq<Coord>, meta: ActualMetadata, legs: seq<CalculatedLeg>)
    requires meta.hasTimestamps == None && meta.durationMinutes == None
    ensures !Calculations.CompareByLeg(ActualData(coords, Some(meta)), legs)
    ensures Calculations.Summary(ev, ActualData(coords, Some(meta))).timeDiff == None
    ensures !Calculations.Summary(ev, ActualData(coords, Some(meta))).hasActualTimestamps
  {
  }

  /** get_route: 404 without the event or without a route; otherwise the stored route and metadata. */
  function GetRoute(db: Database, eventId: Id): (r: Result<(seq<Coord>, Option<RouteMetadata>), HttpError>)
    reads db
    ensures eventId !in db.events ==> r == Failure(NotFound("Event not found"))
    ensures eventId in db.events && db.events[eventId].route.None? ==> r == Failure(NotFound("No route data available"))
    ensures r.Success? ==> eventId in db.events && db.events[eventId].route == Some(r.value.0)
                           && db.events[eventId].metadata == r.value.1
  {
    if eventId !in db.events then Failure(NotFound("Event not found"))
    else if db.events[eventId].route.None? then Failure(NotFound("No route data available"))
    else Success((db.events[eventId].route.value, db.events[eventId].metadata))
  }
}
