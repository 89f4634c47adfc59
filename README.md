# runPlanV2 race planner — a verified model of its core

runPlanV2 plans ultramarathon-style races. A user uploads a GPX route,
places waypoints (aid stations) along it, sets a target duration and pace
adjustments, and the backend splits the target time across the legs between
waypoints. After the race an actual track can be uploaded and compared with
the plan. Documents can be uploaded, chunked and embedded for a chat
assistant. The React client adds, edits and deletes waypoints, draws an
elevation profile, parses the target duration and exports the plan as CSV.

This project models that core in Dafny and proves what the code promises:

- **Pace engine** (`pace_calculator.dfy`). The moving time is the target minus
  all stops. It is shared across the legs in proportion to an effort factor
  (miles, weighted by climb, descent and a linear fatigue term). Arrival and
  exit times are chained and running totals kept. Proved: the durations add
  up to the moving time, so the last cumulative time is the target. Also:
  closed forms of every running total, zero-length legs, the failure exactly
  when the effort sums to zero, and the pace and time formatters.
- **Route processing** (`gpx_processor.dfy`, `geometry.dfy`). The single pass
  of `parse_gpx_file`, with its 80% timestamp rule. Leg metrics over an index
  range, which telescope and add up. The first-nearest closest-point search
  and the along-route distance it reports. The map-back step of the route
  simplifier. The unit conversions and their round trips.
- **Leg calculation and comparison** (`calculations.dfy`, `store.dfy`).
  Waypoints are taken in distance order and placed on the route. Legs are
  chained from index to index and tile the route. Stored legs are linked end
  to start, and the last stored cumulative time is the target. The
  planned-versus-actual comparison scales planned leg times by one ratio.
- **Waypoint, event and settings routes** (`waypoints.dfy`, `events.dfy`,
  `settings.dfy`). State machines over the tables of a `Database` object.
  Partial updates change only the fields sent. START and FINISH cannot be
  deleted. A GPX upload leaves exactly START and FINISH. `order_index` comes
  from a count. API keys are stored encrypted and shown masked, and a masked
  key sent back never overwrites the stored one.
- **Documents** (`text_processor.dfy`). The token-window loop of `chunk_text`
  (size, stride, count and coverage of the windows), the summary truncation,
  the context prefix and the validation steps of `process_document`.
- **Client** (`legs_table.dfy`, `elevation_profile.dfy`,
  `create_event_modal.dfy`, `export_utils.dfy`, `ui_types.dfy`). Interpolation
  at a distance along the route. The add, save and delete guards of the leg
  table and its order-index rule. The elevation profile and its sampling to
  at most 500 points. The `H:MM:SS` duration parser, whose round trip with
  the formatter is proved. The CSV layout of the export.

Shared modules: `numbers.dfy` (sums, truncation and the Python and
JavaScript remainder and rounding rules), `strings.dfy` (decimal rendering,
padding, split/join, `parseInt`) and `wrappers.dfy` (Option and Result).

Distances and elevations are `real` meters. Times are `real` minute offsets
from a common origin. Durations the source keeps as integers are `int`
minutes. Great-circle distance and the 3-D step length are non-negative
function parameters. So are the foreign services: the GPX parser, the
simplifier, the tokenizer, text extraction, embeddings and the cipher.

## Model

| member | source | states |
|---|---|---|
| PaceCalculator.FatigueFactor | backend/utils/pace_calculator.py:40-44 | the fatigue term is 0 for a single leg and for the first leg, pct/100 on the last leg, and between 0 and pct/100 on every leg when pct is not negative |
| PaceCalculator.AdjustedPace | backend/utils/pace_calculator.py:32-48 | a zero-length leg keeps the base pace, and so does any leg when all three percentages are 0 |
| PaceCalculator.LegFactorIsScaledPace | backend/utils/pace_calculator.py:91-107 | the effort factor of a leg of positive length is its mileage times the multiplier the adjusted-pace formula applies to a pace of 1 |
| PaceCalculator.ZeroLegHasNoEffort | backend/utils/pace_calculator.py:91-107 | a zero-length leg has effort factor 0 whatever the adjustments |
| PaceCalculator.Factors | backend/utils/pace_calculator.py:86-109 | one effort factor per leg-metrics entry |
| PaceCalculator.ComputeFactors | backend/utils/pace_calculator.py:86-109 | the factor loop appends exactly the effort factors of the metrics, in order |
| PaceCalculator.StopTimes | backend/utils/pace_calculator.py:80 | the planned stops, one per waypoint, in waypoint order |
| PaceCalculator.MovingTime | backend/utils/pace_calculator.py:80-83 | moving time plus the sum of all stops is the target duration |
| PaceCalculator.TotalStopTime | backend/utils/pace_calculator.py:80 | the accumulating loop yields the sum of all waypoint stops |
| PaceCalculator.CalculateLegs | backend/utils/pace_calculator.py:50-167 | fails exactly when there is a leg to plan and the effort factors sum to zero; otherwise returns the complete plan: one row per zipped (waypoint, metrics) pair, numbered from 1, each with its proportional duration, chained arrival and exit, and running totals |
| PaceCalculator.ChainLegs | backend/utils/pace_calculator.py:115-167 | the distribution loop builds a plan in which every row fits its leg and chains to the row before |
| PaceCalculator.NewLegFits | backend/utils/pace_calculator.py:120-165 | a row built from the previous row's exit and totals is the next row of the plan |
| PaceCalculator.LegFitsAppend | backend/utils/pace_calculator.py:165 | appending a row keeps every earlier row of the plan valid |
| PaceCalculator.Durations | backend/utils/pace_calculator.py:127 | one duration per leg considered |
| PaceCalculator.Distances | backend/utils/pace_calculator.py:121 | the leg distances, in leg order |
| PaceCalculator.PlanRunningTotals | backend/utils/pace_calculator.py:118-162 | after leg k the cumulative distance is the sum of the first k+1 leg distances, the cumulative time is the sum of their durations and stops, and the exit time is the start plus that cumulative time |
| PaceCalculator.DurationsAddUp | backend/utils/pace_calculator.py:112-127 | with a non-zero total effort the leg durations add up to the moving time |
| PaceCalculator.SharesAddUp | backend/utils/pace_calculator.py:112-127 | shares of a total, each scaled by the same rate, add up to the total times the rate |
| PaceCalculator.PlanConservesTime | backend/utils/pace_calculator.py:63-64 | with one metrics entry per waypoint, the last leg's cumulative time equals the target duration |
| PaceCalculator.ZeroLengthLeg | backend/utils/pace_calculator.py:127-130 | a zero-length leg gets duration 0 and adjusted pace 0 |
| PaceCalculator.FormatPaceShowsWholeSeconds | backend/utils/pace_calculator.py:180-183 | for a non-negative pace, "mm:ss" shows the whole minutes and the truncated seconds below 60, padded to two digits; together they are the pace's whole seconds |
| PaceCalculator.FormatTime | backend/utils/pace_calculator.py:197-200 | floored hours, then minutes and seconds below 60 from Python's non-negative remainders, each padded to two digits and separated by ':' |
| PaceCalculator.FormatTimeFieldsAddUp | backend/utils/pace_calculator.py:197-200 | for every duration the three fields are its whole seconds split up: 3600 * hours + 60 * minutes + seconds is the floor of minutes * 60 |
| PaceCalculator.FormatTimeShape | backend/utils/pace_calculator.py:187-200 | below 100 hours the text is eight characters with ':' at positions 2 and 5 |
| Geometry.AlongRoute | backend/utils/gpx_processor.py:175-179 | the along-route distance to a point is never negative |
| Geometry.AlongRouteMonotone | backend/utils/gpx_processor.py:175-179 | the along-route distance never decreases with the point index |
| Geometry.AlongRoutePrefix | backend/utils/gpx_processor.py:175-179 | the along-route distance to a point depends only on the points up to it |
| GpxProcessor.StepGain | backend/utils/gpx_processor.py:209-213 | the climb of one step is never negative |
| GpxProcessor.StepLoss | backend/utils/gpx_processor.py:209-213 | the descent of one step is never negative |
| GpxProcessor.RangeDistance | backend/utils/gpx_processor.py:200-206 | the 3-D length of an index range is never negative |
| GpxProcessor.RangeGain | backend/utils/gpx_processor.py:200-213 | the climb over an index range is never negative |
| GpxProcessor.RangeLoss | backend/utils/gpx_processor.py:200-213 | the descent over an index range is never negative |
| GpxProcessor.CalculateLegMetrics | backend/utils/gpx_processor.py:183-219 | all-zero metrics when start >= end or end is past the route; otherwise distance, climb and descent summed over the steps start+1 .. end |
| GpxProcessor.GainMinusLoss | backend/utils/gpx_processor.py:200-213 | climb minus descent over a range is the elevation at its end minus the elevation at its start |
| GpxProcessor.MetricsAdditive | backend/utils/gpx_processor.py:200-219 | metrics over [a, b] plus metrics over [b, c] are the metrics over [a, c] |
| GpxProcessor.FirstNearestUnique | backend/utils/gpx_processor.py:170-173 | there is only one first-nearest point |
| GpxProcessor.NearestNotAfter | backend/utils/gpx_processor.py:170-173 | the first-nearest point comes no later than any point at most as far away |
| GpxProcessor.FindClosestPoint | backend/utils/gpx_processor.py:155-181 | as written: index 0 and distance 0 on an empty route; otherwise the first index of minimal distance (ties keep the earliest), reported with the along-route distance of the point before it (0 for index 0) |
| GpxProcessor.FinishReportedAtStart | backend/utils/gpx_processor.py:167-179 | on a two-point route one unit long, a target on the last point is found at that point but reported at distance 0 instead of 1 |
| GpxProcessor.ReportedDistanceFallsShort | backend/utils/gpx_processor.py:167-179 | the distance reported as written is the chosen point's along-route distance minus the segment into it, so it falls short whenever that segment has length |
| GpxProcessor.FindClosestPointCorrected | backend/utils/gpx_processor.py:155-181 | corrected: the same first nearest index, reported with that point's own along-route distance from the start |
| GpxProcessor.FirstWithPosition | backend/utils/gpx_processor.py:50-53 | the match is a route point at the given latitude and longitude; there is none exactly when no route point is there |
| GpxProcessor.FindPosition | backend/utils/gpx_processor.py:50-53 | the inner search stops at the first route point at the position |
| GpxProcessor.MapBack | backend/utils/gpx_processor.py:48-55 | the mapped-back route is no longer than the simplifier's output and holds only original points |
| GpxProcessor.MapBackStep | backend/utils/gpx_processor.py:49-53 | mapping back from position s is the match for s followed by the mapping of the rest |
| GpxProcessor.MapBackKeepsPositions | backend/utils/gpx_processor.py:48-55 | when every simplified position is on the route, nothing is dropped and point k has position k |
| GpxProcessor.Positions | backend/utils/gpx_processor.py:44 | the simplifier gets each point's latitude and longitude, in order |
| GpxProcessor.SimplifyCoordinates | backend/utils/gpx_processor.py:36-55 | fewer than three points come back unchanged; otherwise the simplifier's positions are mapped back to original points; every returned point is an input point |
| GpxProcessor.RouteOf | backend/utils/gpx_processor.py:84-87 | one stored coordinate per track point, in file order |
| GpxProcessor.TrackDistance | backend/utils/gpx_processor.py:103-109 | the track length is never negative |
| GpxProcessor.TrackGain | backend/utils/gpx_processor.py:111-114 | the track climb is never negative |
| GpxProcessor.TrackLoss | backend/utils/gpx_processor.py:115-116 | the track descent is never negative |
| GpxProcessor.TimedCount | backend/utils/gpx_processor.py:90-91 | at most as many timed points as points |
| GpxProcessor.FirstTime | backend/utils/gpx_processor.py:92-93 | a first time exists exactly when some point carries a time |
| GpxProcessor.LastTime | backend/utils/gpx_processor.py:94 | a last time exists exactly when some point carries a time |
| GpxProcessor.MinElevation | backend/utils/gpx_processor.py:97-98 | a lowest elevation exists exactly when there is a point |
| GpxProcessor.MaxElevation | backend/utils/gpx_processor.py:99-100 | a highest elevation exists exactly when there is a point |
| GpxProcessor.ElevationRange | backend/utils/gpx_processor.py:96-100 | the running minimum and maximum bound every stored elevation and are each attained by some point |
| GpxProcessor.HasTimestampsRatio | backend/utils/gpx_processor.py:121 | the timestamp flag holds exactly when there is a point and at least 80% of the points are timed |
| GpxProcessor.TimedRouteHasEnds | backend/utils/gpx_processor.py:121-127 | a route that passes the 80% rule has a first and a last time |
| GpxProcessor.ScanTrack | backend/utils/gpx_processor.py:80-118 | the single pass yields the route, length, climb, descent, elevation extremes, timed count and first and last times, each as defined over all points |
| GpxProcessor.ElevationStep | backend/utils/gpx_processor.py:111-116 | a step adds its rise to the climb or its fall to the descent when both ends have an elevation, and nothing otherwise |
| GpxProcessor.BoundingBox | backend/utils/gpx_processor.py:133-146 | every route point lies inside the box, and each of its four bounds is the latitude or longitude of some route point, so the corners are the minima and maxima |
| GpxProcessor.ParseGpxFile | backend/utils/gpx_processor.py:57-153 | a parser error fails with the parser's message; an empty simplified route, which every track without points gives, fails as min() of an empty list does; any other track succeeds, and a success is exactly the statistics of `ParsedGpxOf` over the points: each total by its definition, the duration only under the 80% rule, the simplified route and its bounding box |
| GpxProcessor.NoPointsNoRoute | backend/utils/gpx_processor.py:64-130 | a track has route points exactly when it has points, and a track without points has an empty simplified route |
| GpxProcessor.TimedDuration | backend/utils/gpx_processor.py:124-127 | a duration exists exactly when the track counts as timed and has a first and a last timestamp, and then it is their difference in minutes |
| GpxProcessor.ParsedStatistics | backend/utils/gpx_processor.py:121-148 | a parse has a duration exactly when at least 80% of points are timed; its elevation range is ordered; its totals are non-negative; a route of fewer than three points is not simplified |
| GpxProcessor.MetersToMiles | backend/utils/gpx_processor.py:221-223 | miles times 1609.34 is the meters |
| GpxProcessor.MetersToKilometers | backend/utils/gpx_processor.py:225-227 | kilometers times 1000 is the meters |
| GpxProcessor.ConversionRoundTrips | backend/utils/gpx_processor.py:221-235 | each conversion is undone by its inverse, in both directions |
| TextProcessor.ChunkCountIsCeiling | backend/utils/text_processor.py:44-57 | the window count is 0 for no tokens and otherwise the ceiling of tokens over stride: the last window starts before the end and the next would not |
| TextProcessor.WindowSize | backend/utils/text_processor.py:49-50 | every window is non-empty and holds at most chunk_size tokens |
| TextProcessor.Coverage | backend/utils/text_processor.py:47-57 | when the stride does not exceed the size, token j is in window j / stride at offset j mod stride |
| TextProcessor.StartBelowCount | backend/utils/text_processor.py:47 | a window that starts at or before a token index is one of the counted windows |
| TextProcessor.WindowHolds | backend/utils/text_processor.py:49-50 | a token one stride or less past a window's start sits in that window |
| TextProcessor.WindowsStartInside | backend/utils/text_processor.py:47 | every counted window starts inside the token sequence |
| TextProcessor.Chunks | backend/utils/text_processor.py:44-59 | the chunk list has one entry per counted window |
| TextProcessor.ChunksEmptyIff | backend/utils/text_processor.py:44-59 | there is a chunk exactly when there is a token |
| TextProcessor.ChunkText | backend/utils/text_processor.py:28-59 | no chunks for no tokens; otherwise one chunk per window, chunk k being the decoding of the tokens from k * (size - overlap), at most size of them, so the list is `Chunks` of the tokens; the loop needs overlap < size |
| TextProcessor.PyHead | backend/utils/text_processor.py:72 | text[:m] is a prefix of the text, the first m characters when 0 <= m <= length |
| TextProcessor.GenerateDocumentSummary | backend/utils/text_processor.py:62-79 | the text itself when short enough; otherwise the prefix cut just after the last '.' before max_length when that '.' lies beyond max_length // 2, or else the first max_length characters and "..."; never longer than max_length + 3 |
| TextProcessor.CutAfterPeriod | backend/utils/text_processor.py:72-75 | the cut ends at the text's last '.' before max_length |
| TextProcessor.SummaryIsHead | backend/utils/text_processor.py:62-79 | a summary is a prefix of the text, or a prefix followed by "..." |
| TextProcessor.PrepareChunkForEmbedding | backend/utils/text_processor.py:115-127 | the result starts with the labelled summary and ends with the chunk, with nothing else |
| TextProcessor.PreparedChunkParts | backend/utils/text_processor.py:127 | the summary and the chunk can be read back from their positions in the prepared text |
| TextProcessor.Strip | backend/utils/text_processor.py:156 | the result is a slice s[i..j] of the text with only whitespace outside it, and it neither starts nor ends with whitespace, so it is the text without its leading and trailing whitespace; it is empty exactly when the text is all whitespace |
| TextProcessor.AsciiLower | backend/utils/text_processor.py:147 | same length; position by position, an ASCII capital becomes its small letter and every other character is kept, so no ASCII capital remains |
| TextProcessor.LastDotSegment | backend/utils/text_processor.py:147 | a suffix of the name with no '.', preceded by a '.' when it is shorter than the name: the text after the last '.', and the whole name when there is no '.' |
| TextProcessor.SplitLastPart | backend/utils/text_processor.py:147 | the last part of a split is a suffix preceded by the separator, and the whole string when it is the only part |
| TextProcessor.ProcessDocument | backend/utils/text_processor.py:130-186 | every outcome, in the source's order: an extension other than pdf or txt is refused; a failing extractor fails; a stripped text under 50 characters is refused; no chunks, a failing embedding call and an embedding count unlike the chunk count each fail; otherwise it succeeds, carrying the extracted text, its summary, exactly the chunks of the tokenized text under size 500 and overlap 50, each chunk with the summary prefixed, and the embeddings of those |
| TextProcessor.DocumentChunks | backend/utils/text_processor.py:163 | the chunks of a text with the default size and overlap are empty exactly when the tokenizer gives no token |
| TextProcessor.ContextChunks | backend/utils/text_processor.py:169-172 | one prepared string per chunk, chunk k prefixed with the summary |
| TextProcessor.NonEmptyTokensGiveChunks | backend/utils/text_processor.py:163-166 | with the default size and overlap, a non-empty token sequence gives at least one chunk |
| Calculations.LegRanges | backend/routes/calculations.py:40-53 | the loop places each waypoint at its closest route index and measures leg k from the previous placement (index 0 for the first leg) |
| Calculations.ExtendChain | backend/routes/calculations.py:43-53 | one more placed waypoint extends the chain of legs by one |
| Calculations.LegsTileRoute | backend/routes/calculations.py:40-53 | when placements do not go backwards, the first k+1 legs together measure the route from its first point to waypoint k |
| Calculations.Rows | backend/routes/calculations.py:29-31 | the waypoint rows of the ordered identifiers, in that order |
| Calculations.LegWaypoints | backend/routes/calculations.py:56-63 | the engine gets each waypoint's id, name and stop time, in distance order |
| Calculations.EventDistance | backend/routes/calculations.py:67 | the event's own distance when truthy, otherwise the route length in miles |
| Calculations.StoredLegs | backend/routes/calculations.py:81-100 | one stored leg per plan row |
| Calculations.PlanNumbering | backend/routes/calculations.py:85-86 | plan rows are numbered 1, 2, ... with at most one per waypoint |
| Calculations.CalculateEventLegs | backend/routes/calculations.py:13-108 | 404 for a missing event, then 400 for no target, no route and no waypoints, in that order; a server error only for an unset stop time, no distance, a NULL percentage the factor loop reads or zero total effort, and success whenever none of these holds; once the three 400 checks pass, the waypoints are ordered by distance and their leg ranges are chained along the route; only success touches the database, replacing the event's legs with the plan over those legs |
| Calculations.NullPercentUnread | backend/utils/pace_calculator.py:86-109 | when the factor loop reads no NULL percentage, the number standing in for NULL changes no effort factor |
| Calculations.StoredLegsLinked | backend/routes/calculations.py:86-87 | leg 1 has no start waypoint, every later leg starts where the previous one ended, and leg k ends at the k-th waypoint |
| Calculations.StoredTimeMatchesTarget | backend/routes/calculations.py:97 | the last stored whole-minute cumulative time is the target duration |
| Calculations.EstimatedActualIsScaled | backend/routes/calculations.py:170-174 | the estimated actual time after leg k is its planned cumulative time times the ratio |
| Calculations.CompareLegs | backend/routes/calculations.py:161-190 | one row per planned leg, each with the planned leg time, its estimate, the differences and running totals |
| Calculations.AppendComparison | backend/routes/calculations.py:190 | a correct row for the next leg extends a correct prefix of the comparison |
| Calculations.ComparisonFollowsRatio | backend/routes/calculations.py:159-185 | the running actual is the running planned times the ratio and the running difference is the planned times (ratio - 1); with the planned duration as last cumulative time the estimate ends at the actual duration |
| Calculations.PercentOfBase | backend/routes/calculations.py:197 | a percentage of a non-zero base, multiplied back by the base, is the difference times 100 |
| Calculations.Summary | backend/routes/calculations.py:193-211 | the differences add up; the distance percentage is 0 against a zero plan; time differences exist exactly when both durations are truthy; average paces exist exactly when distance and duration are truthy |
| Calculations.GetComparison | backend/routes/calculations.py:123-220 | 404 without the event or without actual data; otherwise both routes as stored, the stored legs, the summary, and leg rows only with timestamps, a truthy actual duration and planned legs |
| Store.EventWaypoints | backend/routes/calculations.py:29-31 | exactly the waypoints of the event |
| Store.InsertAddsOne | backend/routes/calculations.py:29-31 | insertion adds exactly the one identifier |
| Store.InsertKeepsSorted | backend/routes/calculations.py:29-31 | insertion keeps the order ascending by distance, NULLs last |
| Store.WaypointsByDistance | backend/routes/calculations.py:29-31 | each waypoint of the event once, ascending by distance, NULLs last |
| WaypointRoutes.CountAfterInsert | backend/routes/waypoints.py:35-36 | a new waypoint raises its event's count by one and leaves other events' counts alone |
| WaypointRoutes.CreateWaypoint | backend/routes/waypoints.py:11-41 | 404 and nothing stored without the event; otherwise the request is stored with order index the previous count; with a route, the distance is the along-route distance of the first nearest route point (corrected search) and a falsy elevation is taken from that point |
| WaypointRoutes.ApplyFields | backend/routes/waypoints.py:58-60 | every field sent is set and every other field keeps its value |
| WaypointRoutes.UpdateWaypoint | backend/routes/waypoints.py:51-74 | 404 for a missing waypoint; otherwise only the fields sent change and are kept, and when a coordinate was sent and the event has a route the distance becomes the along-route distance of the first nearest route point (corrected search); the response is the stored waypoint, or a server error when its type or stop time is NULL |
| WaypointRoutes.NullAfterUpdate | backend/routes/waypoints.py:58-60 | an update leaves a NULL type or stop time exactly when it sends that NULL or leaves an already NULL field unsent |
| WaypointRoutes.DeleteWaypoint | backend/routes/waypoints.py:76-89 | 404 for a missing waypoint, 400 with nothing removed for START and FINISH, otherwise exactly that waypoint is removed |
| EventRoutes.ApplyUpdate | backend/routes/events.py:42-44 | every field sent replaces the stored one and every other field keeps its value |
| EventRoutes.UpdateEvent | backend/routes/events.py:35-48 | 404 for a missing event; otherwise only that event changes, and only in the fields sent, NULL percentages included; the response is the stored event, or a server error after the commit when a percentage is NULL |
| EventRoutes.OtherEventsWaypoints | backend/routes/events.py:95 | exactly the waypoints of the other events |
| EventRoutes.UploadGpx | backend/routes/events.py:61-139 | 404 without the event; a file that is not UTF-8 is a server error; a parser error or an empty route is a 400 whose detail carries the exception's text; nothing changes on failure; every other file succeeds, storing the route and metadata of its parse, setting the distance only when it was falsy, and replacing the event's waypoints by START and FINISH |
| EventRoutes.StoreRoute | backend/routes/events.py:76-129 | the event gets the route and its metadata, a falsy distance is set from the route, and the event's waypoints become START and FINISH; other events and their waypoints are untouched |
| EventRoutes.UploadLeavesStartAndFinish | backend/routes/events.py:95-129 | the event then has exactly START (first point, order 0, distance 0) and FINISH (last point, order 999999, distance the route length); other events' waypoints are untouched |
| EventRoutes.UploadActualGpx | backend/routes/events.py:141-174 | 404 without the event; a file that is not UTF-8 is a server error; a parser error or an empty route is a 400 carrying the exception's text; every other file succeeds, and only the actual data changes, to the track and its distance, climb and descent |
| EventRoutes.ActualUploadHasNoLegTimes | backend/routes/events.py:157-164 | actual data stored by the upload has no timestamp flag and no duration, so its comparison has no leg rows and no time difference |
| EventRoutes.GetRoute | backend/routes/events.py:176-189 | 404 without the event or without a route; otherwise the stored route |
| SettingsRoutes.EncryptValue | backend/routes/settings.py:21-25 | a falsy value gives None; anything else is encrypted |
| SettingsRoutes.DecryptValue | backend/routes/settings.py:27-31 | a falsy value gives None; a token the cipher accepts gives its plaintext; a token it rejects raises InvalidToken |
| SettingsRoutes.EncryptDecrypt | backend/routes/settings.py:21-31 | decrypting an encrypted truthy value under the same cipher gives it back |
| SettingsRoutes.MaskKey | backend/routes/settings.py:48 | the mask starts with "***", followed by the last four characters of a key longer than four, and is "***" alone otherwise |
| SettingsRoutes.MaskedView | backend/routes/settings.py:46-48 | a server error exactly when the stored key is truthy and the cipher rejects it; otherwise every other setting is kept and a truthy key is replaced by the mask of its plaintext |
| SettingsRoutes.MaskedViewIsMasked | backend/routes/settings.py:80-82 | a key in a response always starts with "***" |
| SettingsRoutes.GetSettings | backend/routes/settings.py:33-50 | the row, created with its defaults when missing, is returned masked, or a server error after the row is created when its key cannot be decrypted; nothing else changes |
| SettingsRoutes.UpdateSettings | backend/routes/settings.py:52-84 | the row, created when missing, gets the fields sent, a new key encrypted and a masked key dropped, and is saved; the response is masked, or a server error when the stored key cannot be decrypted |
| SettingsRoutes.NewKeyIsRecoverable | backend/routes/settings.py:64-67 | a new key sent in clear decrypts back to itself, and the response shows it masked instead of failing |
| SettingsRoutes.ResendingViewKeepsKey | backend/routes/settings.py:64-70 | sending the response back unchanged leaves the stored settings as they were |
| LegsTable.FindCoordinatesAtDistance | frontend/src/components/LegsTable.tsx:156-196 | the segment loop yields exactly the located point of the route at the target distance |
| LegsTable.LocateChoosesFirstReaching | frontend/src/components/LegsTable.tsx:162-195 | the point is interpolated in the first segment whose end reaches the target, and is the last route point when no segment does |
| LegsTable.LocateFromSkips | frontend/src/components/LegsTable.tsx:178-190 | segments that fall short of the target are passed over |
| LegsTable.LerpBetween | frontend/src/components/LegsTable.tsx:184-186 | a fraction in [0, 1] of the way from a to b lies between a and b |
| LegsTable.InterpolationWithinSegment | frontend/src/components/LegsTable.tsx:178-187 | for a non-negative target the ratio lies in [0, 1], so the point lies between the segment's endpoints in latitude, longitude and elevation; a target at the segment's end gives that end point |
| LegsTable.NonNumericOnlyAtStart | frontend/src/components/LegsTable.tsx:180-181 | a 0/0 ratio can only come from a zero-length first segment with a target of at most 0 |
| LegsTable.RouteLength | frontend/src/components/LegsTable.tsx:206 | the route's total distance, 0 when the route or its total is missing |
| LegsTable.InsertStable | frontend/src/components/LegsTable.tsx:220-222 | insertion adds exactly the one waypoint |
| LegsTable.InsertStableSorted | frontend/src/components/LegsTable.tsx:220-222 | insertion keeps the copy ascending by distance |
| LegsTable.SortByDistance | frontend/src/components/LegsTable.tsx:220-222 | the same waypoints (as a multiset), ascending by distance with a missing distance as 0; waypoints at equal distance keep their input order (the sort is stable) |
| LegsTable.WithKeyAppend | frontend/src/components/LegsTable.tsx:220-222 | the waypoints at one distance, in order, of a concatenation are those of the first part followed by those of the second |
| LegsTable.InsertStableWithKey | frontend/src/components/LegsTable.tsx:220-222 | inserting a waypoint into a sorted list places it after every waypoint already there at its distance |
| LegsTable.LastBelow | frontend/src/components/LegsTable.tsx:224-228 | none exactly when no waypoint lies below the target; otherwise the last position of one below it |
| LegsTable.NextOrderIndex | frontend/src/components/LegsTable.tsx:223-228 | the loop yields 1 plus the order index of the last waypoint below the target, or 1 when there is none |
| LegsTable.SameElements | frontend/src/components/LegsTable.tsx:220-222 | the sorted copy holds the same waypoints |
| LegsTable.OrderIndexAfterNearestBelow | frontend/src/components/LegsTable.tsx:219-228 | the new order index is 1 when no waypoint lies below the target distance, and otherwise one more than that of a waypoint with the greatest distance below it |
| LegsTable.TieGoesToLastInInput | frontend/src/components/LegsTable.tsx:219-228 | when several waypoints share the greatest distance below the target, the new order index follows the last of them in input order |
| LegsTable.NoneBelow | frontend/src/components/LegsTable.tsx:224-226 | when the sorted copy has nothing below the target, neither has the original list |
| LegsTable.NearestBelow | frontend/src/components/LegsTable.tsx:224-226 | the last waypoint of the sorted copy below the target is one of the nearest below it |
| LegsTable.DefaultName | frontend/src/components/LegsTable.tsx:231 | a typed name is kept; an empty one becomes exactly "Waypoint at " + the distance to one decimal + " mi" |
| LegsTable.HandleAddWaypoint | frontend/src/components/LegsTable.tsx:198-240 | a distance that is not a number or is negative, one beyond the route length and a route without coordinates are rejected with their alerts; an empty coordinate list crashes; otherwise onWaypointCreate gets the located point, the distance in meters (within the route), the typed or default name, the stop time or 0, and the order index after the nearest waypoint below it |
| LegsTable.HandleSave | frontend/src/components/LegsTable.tsx:87-131 | an unknown waypoint is ignored; a typed distance that is not a number or within 0.01 mile of the stored one saves the other fields only; a changed one is rejected when negative, beyond the route length or without coordinates, crashes on an empty coordinate list, and otherwise moves the waypoint to the located point |
| LegsTable.HandleDelete | frontend/src/components/LegsTable.tsx:142-150 | START and FINISH are refused; any other waypoint is deleted exactly when the user confirms |
| LegsTable.ClientGuardMatchesServer | frontend/src/components/LegsTable.tsx:143-146 | the client refuses to delete exactly the waypoints the server refuses to delete |
| ElevationProfile.BuildProfile | frontend/src/components/ElevationProfile.tsx:49-73 | the loop pushes one point per coordinate: its along-route distance in miles and its elevation in feet |
| ElevationProfile.ProfileStartsAtZeroAndGrows | frontend/src/components/ElevationProfile.tsx:49-73 | profile distances start at 0 and never decrease |
| ElevationProfile.SampleRate | frontend/src/components/ElevationProfile.tsx:76 | the rate is the ceiling of n / 500 |
| ElevationProfile.KeptIndices | frontend/src/components/ElevationProfile.tsx:77 | exactly the indices divisible by the rate, ascending |
| ElevationProfile.KeptIndicesSpread | frontend/src/components/ElevationProfile.tsx:77 | the k-th kept index is at least k times the rate |
| ElevationProfile.SampleKeepsFirstAndAtMost500 | frontend/src/components/ElevationProfile.tsx:76-77 | sampling keeps the first point and between 1 and 500 points |
| ElevationProfile.Closest | frontend/src/components/ElevationProfile.tsx:83-87 | the reduce picks a sampled point of minimal distance gap, the earliest on ties |
| ElevationProfile.ClosestFrom | frontend/src/components/ElevationProfile.tsx:83-87 | the reduce from any point on keeps the earliest point of minimal gap |
| ElevationProfile.MarkerLabel | frontend/src/components/ElevationProfile.tsx:92 | a non-empty name is the label; otherwise "WP" followed by the order index in decimal, or "WPundefined" when it is missing |
| ElevationProfile.UnnamedLabelShowsOrder | frontend/src/components/ElevationProfile.tsx:92 | an unnamed waypoint's label is "WP" followed by text that parses back to its order index |
| ElevationProfile.MarkerFor | frontend/src/components/ElevationProfile.tsx:80-95 | a marker sits at the waypoint's distance in miles; its height is the closest sample's elevation when that is not 0, and otherwise the waypoint's own elevation in feet, or 0 when it has none |
| ElevationProfile.SampledProfile | frontend/src/components/ElevationProfile.tsx:76-77 | a non-empty route gives between 1 and 500 sampled points |
| ElevationProfile.RenderProfile | frontend/src/components/ElevationProfile.tsx:35-195 | a placeholder exactly when there are no coordinates; otherwise the sampled profile, one marker per waypoint, and the last sampled distance as total and x-axis maximum |
| ElevationProfile.SampledProfileShape | frontend/src/components/ElevationProfile.tsx:46-100 | the sampled profile starts at distance 0 with the first elevation, never decreases, has at most 500 points, and its last distance is at most the route length in miles |
| CreateEventModal.TimeToMinutes | frontend/src/components/CreateEventModal.tsx:24-49 | no duration exactly for empty input; the format message exactly when there are not three ':'-separated parts; minutes only when all three parts are numbers and minutes and seconds are below 60 |
| CreateEventModal.FieldsToMinutes | frontend/src/components/CreateEventModal.tsx:33-48 | minutes exactly when all three fields are numbers and minutes and seconds are below 60; a rejection otherwise |
| CreateEventModal.DurationError | frontend/src/components/CreateEventModal.tsx:25-47 | the message is unchanged for empty input, cleared for a readable one, and the rejection's non-empty message otherwise |
| CreateEventModal.RoundsSeconds | frontend/src/components/CreateEventModal.tsx:48 | seconds below 60 add one minute exactly when they are at least 30 |
| CreateEventModal.SplitThree | frontend/src/components/CreateEventModal.tsx:27 | three ':'-free texts joined by ':' split back into themselves |
| CreateEventModal.ReadsFields | frontend/src/components/CreateEventModal.tsx:27-48 | text that splits into three readable fields within range gives hours * 60 + minutes + round(seconds / 60) |
| CreateEventModal.ReadsFieldValues | frontend/src/components/CreateEventModal.tsx:42-48 | readable fields within range give hours * 60 + minutes + round(seconds / 60) |
| CreateEventModal.ReadsPadded | frontend/src/components/CreateEventModal.tsx:33-35 | a two-digit field is read back by parseInt |
| CreateEventModal.RenderedParts | frontend/src/components/CreateEventModal.tsx:27-35 | rendered hours, minutes and seconds hold no ':' and parseInt reads each back |
| CreateEventModal.ReadsJoinedFields | frontend/src/components/CreateEventModal.tsx:27-48 | three ':'-free fields readable within range, joined by ':', give their minutes |
| CreateEventModal.ReadsRenderedFields | frontend/src/components/CreateEventModal.tsx:27-48 | hours, two-digit minutes and two-digit seconds give hours * 60 + minutes + round(seconds / 60) |
| CreateEventModal.ReadsRenderedDuration | frontend/src/components/CreateEventModal.tsx:42-48 | the same, with one extra minute exactly when the seconds are at least 30 |
| CreateEventModal.ReadsFormattedTime | frontend/src/components/CreateEventModal.tsx:24-49 | every positive whole duration in the plan's h:mm:ss form is read back as the same minutes |
| CreateEventModal.FormattedTimeIsRendered | frontend/src/utils/exportUtils.ts:20-28 | a positive whole duration is shown as its hours, two-digit minutes and "00" |
| CreateEventModal.HandleSubmit | frontend/src/components/CreateEventModal.tsx:51-83 | submission stops exactly when a non-empty duration does not parse; a date that cannot be converted gives the alert; otherwise the request carries the name, the converted date, the parsed minutes (none for an empty duration) and the three percentages |
| CreateEventModal.SubmitsFormattedTarget | frontend/src/components/CreateEventModal.tsx:51-76 | a duration in the plan's own h:mm:ss form is always accepted and sent as the same minutes, with the message cleared |
| ExportUtils.MetersToMiles | frontend/src/utils/exportUtils.ts:8-11 | '0.00' for a missing or zero distance, otherwise the miles to two decimals |
| ExportUtils.PaceParts | frontend/src/utils/exportUtils.ts:15-16 | whole minutes and rounded seconds within half a second of the pace, the seconds between 0 and 60 |
| ExportUtils.FormatPace | frontend/src/utils/exportUtils.ts:13-18 | '--:--' for a missing or zero pace |
| ExportUtils.PaceCanShowSixtySeconds | frontend/src/utils/exportUtils.ts:15-17 | a pace just under a whole minute is shown as "7:60" rather than "8:00" |
| ExportUtils.TimeParts | frontend/src/utils/exportUtils.ts:22-24 | for a non-negative duration the minutes are below 60, the seconds at most 60, and the three within half a second of the duration |
| ExportUtils.FormatTime | frontend/src/utils/exportUtils.ts:20-28 | '--:--:--' for a missing or zero duration |
| ExportUtils.WholeMinutesParts | frontend/src/utils/exportUtils.ts:22-24 | a whole number of minutes splits into its hours, the minutes left over and 0 seconds |
| ExportUtils.FormatWholeMinutes | frontend/src/utils/exportUtils.ts:20-28 | a positive whole number of minutes is shown as hours, two-digit minutes and ":00" |
| ExportUtils.FormatDateTime | frontend/src/utils/exportUtils.ts:30-36 | '--:--' for a missing or empty timestamp, otherwise its local time of day |
| ExportUtils.WaypointName | frontend/src/utils/exportUtils.ts:38-42 | 'Start' for a leg without an end waypoint; the waypoint's name when it has one; otherwise exactly "Waypoint " followed by the order index, or by nothing when the waypoint is not found or its order index is missing or 0 |
| ExportUtils.UnnamedWaypointNameShowsOrder | frontend/src/utils/exportUtils.ts:38-42 | an unnamed or unknown waypoint's cell is "Waypoint " followed by text that parses back to its non-zero order index, or by nothing |
| ExportUtils.Row | frontend/src/utils/exportUtils.ts:62-80 | a row has as many fields as the header |
| ExportUtils.TargetLine | frontend/src/utils/exportUtils.ts:86-88 | "Target Duration: 0h 0m" when the duration is missing |
| ExportUtils.TargetLineSplitsMinutes | frontend/src/utils/exportUtils.ts:86-88 | a non-negative target shows its whole hours and the minutes left over, which are below 60 and add back up to the target |
| ExportUtils.InfoLines | frontend/src/utils/exportUtils.ts:84-89 | four lines: "Event: " + the name, "Date: " + the local date text, the target duration line, and a blank line |
| ExportUtils.RowLines | frontend/src/utils/exportUtils.ts:62-91 | one line per leg, line i being leg i's thirteen cells joined with commas |
| ExportUtils.CsvLines | frontend/src/utils/exportUtils.ts:83-92 | the file has 5 + legs lines: the four event lines, the header joined with commas, then each leg's row in leg order |
| ExportUtils.JoinAvoids | frontend/src/utils/exportUtils.ts:91-92 | joining texts without a character, by a separator without it, gives text without it |
| ExportUtils.InfoLinesHaveNoNewline | frontend/src/utils/exportUtils.ts:84-89 | the event lines hold no newline when the name and the date text hold none |
| ExportUtils.RowLinesHaveNoNewline | frontend/src/utils/exportUtils.ts:91 | joined rows hold no newline when their fields hold none |
| ExportUtils.CsvLinesHaveNoNewline | frontend/src/utils/exportUtils.ts:83-91 | no line of the file holds a newline when the name, the date text and the fields hold none |
| ExportUtils.HeaderHasNoNewline | frontend/src/utils/exportUtils.ts:45-59 | the header line holds no newline |
| ExportUtils.LinesConcat | frontend/src/utils/exportUtils.ts:83-91 | the file's line list holds no newline when its parts hold none |
| ExportUtils.CsvHasOneLinePerLeg | frontend/src/utils/exportUtils.ts:83-92 | when no field, name or date holds a newline, the content splits back into exactly its 5 + legs lines |
| ExportUtils.RowSplitsIntoFields | frontend/src/utils/exportUtils.ts:45-91 | a row whose fields hold no comma splits back into its 13 fields |
| ExportUtils.ReplaceSpaceRuns | frontend/src/utils/exportUtils.ts:99 | the result holds no white space and is no longer than the name |
| ExportUtils.VisibleSkipsSpace | frontend/src/utils/exportUtils.ts:99 | dropping leading white space keeps the other characters |
| ExportUtils.ReplaceKeepsVisible | frontend/src/utils/exportUtils.ts:99 | replacing white-space runs keeps every other character, in order |
| ExportUtils.FileName | frontend/src/utils/exportUtils.ts:99 | the download name holds no white space, ends in "_plan.csv", and before that is the event name with its white-space runs replaced |
| ExportUtils.ReplaceSplitsAfterVisible | frontend/src/utils/exportUtils.ts:99 | after a visible character, the replacement of the rest is independent of what came before |
| ExportUtils.ReplaceRunWithOne | frontend/src/utils/exportUtils.ts:99 | each maximal run of white space becomes exactly one '_' in its place |
| ExportUtils.ReplaceKeepsPlainName | frontend/src/utils/exportUtils.ts:99 | a name without white space is kept unchanged |
| UiTypes.OrZero | frontend/src/components/LegsTable.tsx:100 | `x \|\| 0`: 0 for a missing or zero number, the number otherwise |
| UiTypes.FindWaypoint | frontend/src/utils/exportUtils.ts:40 | the first waypoint with the identifier; none exactly when no waypoint has it |
| Numbers.Trunc | backend/utils/pace_calculator.py:181-182 | Python int(): truncation toward zero |
| Numbers.JsRound | frontend/src/components/CreateEventModal.tsx:48 | Math.round: within half of its argument, halves rounded up |
| Numbers.PyMod60 | backend/utils/pace_calculator.py:198 | Python's x % 60 lies in [0, 60) and differs from x by a whole multiple of 60 |
| Numbers.PyMod1 | backend/utils/pace_calculator.py:199 | Python's x % 1 lies in [0, 1) and differs from x by a whole number |
| Numbers.JsRem60 | frontend/src/utils/exportUtils.ts:23 | JavaScript's x % 60 has the sign of x, below 60 in size, and differs from x by a whole multiple of 60 |
| Numbers.JsRem1 | frontend/src/utils/exportUtils.ts:24 | JavaScript's x % 1 has the sign of x, below 1 in size, and differs from x by a whole number |
| Numbers.JsIntRem | frontend/src/utils/exportUtils.ts:87 | JavaScript's integer % is the truncated remainder |
| Numbers.SumScale | backend/utils/pace_calculator.py:112-127 | scaling every term scales the sum |
| Numbers.IntSumAsReal | backend/utils/pace_calculator.py:80 | the integer sum of the stops equals the real sum of the same stops |
| Strings.NatToString | backend/utils/pace_calculator.py:183 | the rendering is non-empty and all digits |
| Strings.IntToString | backend/utils/pace_calculator.py:183 | a leading '-' for negatives, otherwise the digits |
| Strings.DigitsValueOfNatToString | backend/utils/pace_calculator.py:183 | the digits read back as the number |
| Strings.PadStart | frontend/src/utils/exportUtils.ts:17 | a text already wide enough is kept; otherwise fillers in front bring it to the width |
| Strings.ZeroPad2 | backend/utils/pace_calculator.py:183 | a digit below 10 gets a leading '0'; other numbers are rendered as they are; at least two characters |
| Strings.ZeroPad2Value | backend/utils/pace_calculator.py:183 | the two-digit rendering of 0..99 reads back as its value |
| Strings.Split | frontend/src/components/CreateEventModal.tsx:27 | at least one part, none holding the separator |
| Strings.SplitJoin | frontend/src/utils/exportUtils.ts:83-92 | splitting a join of separator-free parts gives the parts back |
| Strings.JoinLength | frontend/src/utils/exportUtils.ts:91-92 | a join is as long as its parts plus one separator between each adjacent pair |
| Strings.LastIndexOf | backend/utils/text_processor.py:73 | str.rfind: -1 exactly when the character is absent; otherwise its last index |
| Strings.TrimStart | frontend/src/components/CreateEventModal.tsx:33-35 | a suffix of the text that does not start with white space |
| Strings.JsParseInt | frontend/src/components/CreateEventModal.tsx:33-35 | parseInt: NaN for blank text, the decimal value for a string of digits |
| Strings.ParseIntOfIntToString | frontend/src/components/CreateEventModal.tsx:33-35 | parseInt reads back the decimal rendering of every integer |

## Findings

| source | as written | input that shows it | evidently intended | confidence | as-written member | corrected member |
|---|---|---|---|---|---|---|
| backend/utils/gpx_processor.py:167-179 | the running total is recorded for the chosen point before the segment into that point is added, so the reported distance from start is that of the previous point | a two-point route of positive length and a waypoint on its second point: the point is found, but its distance from start is 0 instead of the route's length | the along-route distance of the chosen point itself, as the docstring says and as the client's interpolation computes | high, not executed | GpxProcessor.FindClosestPoint, GpxProcessor.FinishReportedAtStart | GpxProcessor.FindClosestPointCorrected |

`WaypointRoutes.CreateWaypoint`, `WaypointRoutes.UpdateWaypoint` and
`Calculations.LegRanges` use the corrected search. The leg
calculation uses only the index, which both versions compute alike.

## Left out

- Great-circle distance (`haversine_distance` and the inline formulas in the
  client) and the square root in `distance_3d` are function parameters that
  are never negative. The trigonometry and floating point are not modelled.
- The GPX parser, the simplifier, the tokenizer, PDF extraction and UTF-8
  decoding are function parameters. So are the embedding service and the
  cipher, which is assumed to round-trip only where a lemma says so.
  `generate_embeddings` and `extract_text_from_pdf` are not modelled.
- Floating-point rounding: `round(x, 2)`, `toFixed`, and the drift of
  repeated float additions. The model computes over exact reals. `toFixed`,
  `parseFloat`, `toISOString` and the locale date and time renderings are
  function parameters.
- Python `datetime` and `timedelta` are real minute offsets. ISO
  timestamps, `total_seconds` and time zones are not modelled.
- `float('inf')` sentinels are Options. A route without points fails before
  they would be read.
- An explicit JSON null for a non-nullable column is not modelled: an
  event's name and planned date, a waypoint's latitude and longitude. The
  database rejects it on commit. The nullable columns are modelled with
  their NULL. These include the three percentages and a waypoint's type and
  stop time.
- Database sessions, commits, rollbacks and cascades are not modelled. The
  deletion of an event's calculated legs when its waypoints are deleted is
  left out. So are `get_event`, `delete_event`, `get_event_waypoints`,
  `get_event_legs` and `get_waypoint`: they are plain reads and deletes
  outside the modelled core.
- Rows with equal `distance_from_start` come back in an order the database
  chooses. The model fixes one such order; it is not the stable sort.
- The chat and document routes, streaming, vector search and all page
  components other than the modelled handlers are I/O or rendering.
- React state beyond the modelled outcomes is not modelled: loading flags,
  the edit form reset, `setEditingWaypoint` and the chart's min/max. So are
  the `confirm` and `alert` dialogs (their outcome is a parameter or a
  result), the request after a successful create, and the Blob download.
- White space is the set of characters listed in `Strings.IsJsSpace` and
  `TextProcessor.IsPySpace`. Other Unicode space separators are not included.
- The "decimal" format of `format_pace` is not modelled. Only the "mm:ss"
  format is used by the core.
- PaceCalculator.FormatPace: states no contract of its own. Its meaning is
  proved in `PaceCalculator.FormatPaceShowsWholeSeconds`, for paces that
  are not negative.
- ExportUtils.Row: states only the number of fields. The fields are tied to
  the source by the definitions that build them, `ExportUtils.WaypointName`,
  `ExportUtils.FormatPace` and `ExportUtils.FormatTime`.
- ExportUtils.FormatPace, ExportUtils.FormatTime: besides the placeholders,
  only the value of each part is stated (`PaceParts`, `TimeParts`,
  `FormatWholeMinutes`). The full text of a fractional value is not.
- TextProcessor.ChunkText: requires a positive chunk size, and an overlap
  below it when there are tokens. With a larger overlap the source loop never
  advances and does not terminate. A non-positive size would slice with
  Python's negative indices, which are not modelled. The only caller uses
  the defaults, 500 and 50.
- WaypointRoutes.CreateWaypoint: stores the along-route distance of the
  corrected closest-point search, `GpxProcessor.FindClosestPointCorrected`.
  The source stores the distance its search reports, which falls one segment
  short (`GpxProcessor.ReportedDistanceFallsShort`, see "## Findings").
- WaypointRoutes.UpdateWaypoint: the same divergence as `CreateWaypoint`
  when a coordinate is sent: the corrected distance is stored, not the one
  the source's search reports.
- GpxProcessor.GpxErrorText: the text of an empty route's error is the
  ValueError message of `min()` on an empty list, whose wording differs
  between Python versions. The model uses "min() arg is an empty sequence".
- `get_comparison` also returns the event's waypoints as id, name and order
  index, ordered by `order_index`. That listing is not modelled; the routes,
  legs, summary and leg rows are.
- `openrouter_api_key` is accepted by the settings request schema. It has no
  column in `user_settings`, so nothing stores it, and the model has no such
  field.
- TextProcessor.AsciiLower: lowers only the ASCII capitals. Python's
  `str.lower` also lowers other Unicode letters. That difference can only
  change the extension echoed in an "Unsupported file type" error: no
  non-ASCII letter lowers to a letter of "pdf" or "txt", so which files are
  read as PDF or text is the same.
- ElevationProfile.MarkerLabel: an order index sent as JSON `null` would
  print as "WPnull". The model has only a present or an absent order index,
  printed as "undefined". The backend sets `order_index` on every waypoint
  it creates, in `create_waypoint` and for the START and FINISH of an
  upload, so neither case comes from the API.
- A server error carries no detail. The exception text behind a 500 is not
  modelled.
- Strings.JsParseInt: contracts cover blank text and plain digit strings. A
  sign, a `0x` prefix and trailing garbage are modelled in the body but
  stated only through `ParseIntOfIntToString`.
