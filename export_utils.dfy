// The CSV export of a race plan (frontend/src/utils/exportUtils.ts): the
// value formatters, the header and one row per leg, the text of the file and
// its name. The Blob and the download link are not part of the model; date
// and time rendering in the user's locale and Number.toFixed are parameters.

module ExportUtils {
  import opened Wrappers
  import opened Strings
  import opened Numbers
  import opened UiTypes

  const MetersPerMile: real := 1609.34

  // ---------------------------------------------------------------- formatters

  /** metersToMiles: '0.00' for a missing or zero distance, otherwise miles to two decimals. */
  function MetersToMiles(meters: Option<real>, fixed: ToFixed): (r: string)
    ensures Falsy(meters) ==> r == "0.00"
    ensures !Falsy(meters) ==> r == fixed(meters.value / MetersPerMile, 2)
  {
    if Falsy(meters) then "0.00" else fixed(meters.value / MetersPerMile, 2)
  }

  /**
   * The whole minutes and rounded seconds of a pace in minutes per mile.
   * Together they are within half a second of the pace; rounding can give
   * 60 seconds.
   */
  function PaceParts(pace: real): (parts: (int, int))
    ensures 0 <= parts.1 <= 60
    ensures pace * 60.0 - 0.5 < (parts.0 * 60 + parts.1) as real <= pace * 60.0 + 0.5
  {
    var minutes := pace.Floor;
    var seconds := JsRound((pace - minutes as real) * 60.0);
    (minutes, seconds)
  }

  /** formatPace: '--:--' for a missing or zero pace, otherwise m:ss. */
  function FormatPace(pace: Option<real>): (r: string)
    ensures Falsy(pace) ==> r == "--:--"
  {
    if Falsy(pace) then "--:--"
    else
      var (minutes, seconds) := PaceParts(pace.value);
      IntToString(minutes) + ":" + ZeroPad2(seconds)
  }

  /** A pace just under a whole minute is shown with 60 seconds rather than as the next minute. */
  lemma PaceCanShowSixtySeconds()
    ensures FormatPace(Some(7.995)) == "7:60"
  {
    var p := 7.995;
    assert p.Floor == 7;
    var x := (p - 7.0) * 60.0;
    assert x == 59.7;
    assert JsRound(x) == 60;
    assert PaceParts(p) == (7, 60);
    assert DigitChar(7) == '7' && DigitChar(6) == '6' && DigitChar(0) == '0';
    assert IntToString(7) == "7";
    assert NatToString(60) == NatToString(6) + [DigitChar(0)] == "60";
    assert ZeroPad2(60) == "60";
  }

  /**
   * The hours, minutes and rounded seconds of a duration in minutes. For a
   * duration that is not negative the minutes are below 60 and the three
   * together are within half a second of the duration.
   */
  function TimeParts(t: real): (parts: (int, int, int))
    ensures t >= 0.0 ==> 0 <= parts.1 < 60 && 0 <= parts.2 <= 60
    ensures t >= 0.0 ==>
              var total := (parts.0 * 60 + parts.1) as real + parts.2 as real / 60.0;
              t - 1.0 / 120.0 < total <= t + 1.0 / 120.0
  {
    var hours := (t / 60.0).Floor;
    var mins := JsRem60(t).Floor;
    var secs := JsRound(JsRem1(t) * 60.0);
    if t >= 0.0 then
      assert JsRem60(t) == t - 60.0 * hours as real;
      assert JsRem1(t) == t - t.Floor as real;
      assert t.Floor == 60 * hours + mins by {
        var w := t - 60.0 * hours as real;
        assert (60 * hours + mins) as real <= t < (60 * hours + mins) as real + 1.0;
      }
      (hours, mins, secs)
    else (hours, mins, secs)
  }

  /** formatTime: '--:--:--' for a missing or zero duration, otherwise h:mm:ss. */
  function FormatTime(minutes: Option<real>): (r: string)
    ensures Falsy(minutes) ==> r == "--:--:--"
  {
    if Falsy(minutes) then "--:--:--"
    else
      var (hours, mins, secs) := TimeParts(minutes.value);
      IntToString(hours) + ":" + ZeroPad2(mins) + ":" + ZeroPad2(secs)
  }

  /** A whole number of minutes, split into hours and the minutes left over. */
  lemma WholeMinutesParts(t: int)
    requires t > 0
    ensures TimeParts(t as real) == (t / 60, t % 60, 0)
  {
    var q, m := t / 60, t % 60;
    var x := t as real;
    assert x == 60.0 * q as real + m as real;
    assert q as real <= x / 60.0 < q as real + 1.0;
    assert (x / 60.0).Floor == q;
    assert Trunc(x / 60.0) == q;
    assert JsRem60(x) == m as real;
    assert JsRem60(x).Floor == m;
    assert x.Floor == t;
    assert JsRem1(x) == 0.0;
  }

  /** A positive whole number of minutes is shown as its hours, two-digit minutes and ":00". */
  lemma FormatWholeMinutes(t: int)
    requires t > 0
    ensures FormatTime(Some(t as real)) == NatToString(t / 60) + ":" + ZeroPad2(t % 60) + ":00"
  {
    var h, m := t / 60, t % 60;
    WholeMinutesParts(t);
    assert !Falsy(Some(t as real));
    assert IntToString(h) == NatToString(h);
    assert ZeroPad2(0) == "00";
    assert FormatTime(Some(t as real)) == IntToString(h) + ":" + ZeroPad2(m) + ":" + ZeroPad2(0);
  }

  /** formatDateTime: '--:--' for a missing or empty timestamp, otherwise its local time of day. */
  function FormatDateTime(stamp: Option<string>, localTime: string -> string): (r: string)
    ensures stamp.None? || stamp.value == "" ==> r == "--:--"
    ensures stamp.Some? && stamp.value != "" ==> r == localTime(stamp.value)
  {
    if stamp.None? || stamp.value == "" then "--:--" else localTime(stamp.value)
  }

  /**
   * getWaypointName: 'Start' for a leg without an end waypoint; otherwise the
   * waypoint's name, or "Waypoint " and its order index (empty when it has
   * none, is 0, or the waypoint is not found).
   */
  function WaypointName(waypoints: seq<UiWaypoint>, id: Option<string>): (r: string)
    ensures id.None? || id.value == "" ==> r == "Start"
    ensures id.Some? && id.value != "" ==>
              var k := FindWaypoint(waypoints, id.value);
              && (k.Some? && waypoints[k.value].name.Some? && waypoints[k.value].name.value != "" ==>
                    r == waypoints[k.value].name.value)
              && (k.None? || waypoints[k.value].name.None? || waypoints[k.value].name.value == "" ==>
                    r == "Waypoint " + (if k.Some? && waypoints[k.value].orderIndex.Some?
                                           && waypoints[k.value].orderIndex.value != 0
                                        then IntToString(waypoints[k.value].orderIndex.value) else ""))
  {
    if id.None? || id.value == "" then "Start"
    else
      var k := FindWaypoint(waypoints, id.value);
      if k.Some? && waypoints[k.value].name.Some? && waypoints[k.value].name.value != "" then
        waypoints[k.value].name.value
      else
        var order := if k.Some? && waypoints[k.value].orderIndex.Some? && waypoints[k.value].orderIndex.value != 0
                     then IntToString(waypoints[k.value].orderIndex.value) else "";
        "Waypoint " + order
  }

  /**
   * The fallback name of an unnamed waypoint reads back to its order index:
   * parseInt of the text after "Waypoint " is that index when it is set and
   * not 0, and the text is exactly "Waypoint " otherwise.
   */
  lemma UnnamedWaypointNameShowsOrder(waypoints: seq<UiWaypoint>, id: string)
    requires id != ""
    requires var k := FindWaypoint(waypoints, id);
             k.None? || waypoints[k.value].name.None? || waypoints[k.value].name.value == ""
    ensures var r := WaypointName(waypoints, Some(id));
            var k := FindWaypoint(waypoints, id);
            && |r| >= 9 && r[..9] == "Waypoint "
            && (k.Some? && waypoints[k.value].orderIndex.Some? && waypoints[k.value].orderIndex.value != 0 ==>
                  JsParseInt(r[9..]) == waypoints[k.value].orderIndex)
            && (k.None? || waypoints[k.value].orderIndex.None? || waypoints[k.value].orderIndex.value == 0 ==>
                  r == "Waypoint ")
  {
    var r := WaypointName(waypoints, Some(id));
    var k := FindWaypoint(waypoints, id);
    if k.Some? && waypoints[k.value].orderIndex.Some? && waypoints[k.value].orderIndex.value != 0 {
      var n := waypoints[k.value].orderIndex.value;
      assert r == "Waypoint " + IntToString(n);
      assert r[9..] == IntToString(n);
      ParseIntOfIntToString(n);
    }
  }

  // ------------------------------------------------------------------- the CSV

  const Headers: seq<string> := [
    "Leg", "Waypoint", "Distance (mi)", "Elevation Gain (m)", "Elevation Loss (m)", "Base Pace",
    "Adjusted Pace", "Leg Time", "Arrival Time", "Stop Time (min)", "Exit Time",
    "Cumulative Distance (mi)", "Cumulative Time"]

  /** The header line: the header cells joined by commas. */
  const HeaderLine: string := Join(Headers, ",")

  /** `x?.toFixed(0) || '0'` */
  function WholeOrZero(x: Option<real>, fixed: ToFixed): string
  {
    if x.None? then "0" else fixed(x.value, 0)
  }

  /** The leg time shown: distance in miles times the adjusted pace, 0 unless both are truthy. */
  function LegTime(leg: UiLeg): real
  {
    if !Falsy(leg.legDistance) && !Falsy(leg.adjustedPace)
    then leg.legDistance.value / MetersPerMile * leg.adjustedPace.value
    else 0.0
  }

  /** The fields of a leg's row, in header order. */
  function Row(leg: UiLeg, waypoints: seq<UiWaypoint>, fixed: ToFixed, localTime: string -> string): (row: seq<string>)
    ensures |row| == |Headers|
  {
    [ IntToString(leg.legNumber),
      WaypointName(waypoints, leg.endWaypoint),
      MetersToMiles(leg.legDistance, fixed),
      WholeOrZero(leg.elevationGain, fixed),
      WholeOrZero(leg.elevationLoss, fixed),
      FormatPace(leg.basePace),
      FormatPace(leg.adjustedPace),
      FormatTime(Some(LegTime(leg))),
      FormatDateTime(leg.arrival, localTime),
      IntToString(if leg.stopTime.Some? then leg.stopTime.value else 0),
      FormatDateTime(leg.exit, localTime),
      MetersToMiles(leg.cumulativeDistance, fixed),
      FormatTime(leg.cumulativeTime) ]
  }

  /** The target duration line: floor(t / 60) hours and the JavaScript remainder t % 60 minutes, t being 0 when missing. */
  function TargetLine(target: Option<int>): (line: string)
    ensures target.None? ==> line == "Target Duration: 0h 0m"
  {
    var t := if target.Some? then target.value else 0;
    "Target Duration: " + IntToString(t / 60) + "h " + IntToString(JsIntRem(t, 60)) + "m"
  }

  /** A non-negative target is split into whole hours and the minutes left over. */
  lemma TargetLineSplitsMinutes(t: int)
    requires t >= 0
    ensures TargetLine(Some(t)) == "Target Duration: " + NatToString(t / 60) + "h " + NatToString(t % 60) + "m"
    ensures 0 <= t % 60 < 60 && (t / 60) * 60 + t % 60 == t
  {
  }

  /** The three lines about the event and the blank line before the header. */
  function InfoLines(event: UiEvent, localDate: string -> string): (lines: seq<string>)
    ensures |lines| == 4
    ensures lines[0] == "Event: " + event.name && lines[1] == "Date: " + localDate(event.plannedDate)
    ensures lines[2] == TargetLine(event.targetDuration) && lines[3] == ""
  {
    ["Event: " + event.name, "Date: " + localDate(event.plannedDate), TargetLine(event.targetDuration), ""]
  }

  /** One comma-joined line per leg, in input order. */
  function RowLines(legs: seq<UiLeg>, waypoints: seq<UiWaypoint>, fixed: ToFixed, localTime: string -> string)
    : (lines: seq<string>)
    ensures |lines| == |legs|
    ensures forall i :: 0 <= i < |legs| ==> lines[i] == Join(Row(legs[i], waypoints, fixed, localTime), ",")
  {
    seq(|legs|, i requires 0 <= i < |legs| => Join(Row(legs[i], waypoints, fixed, localTime), ","))
  }

  /** The lines of the file: three about the event, a blank one, the header and one per leg. */
  function CsvLines(legs: seq<UiLeg>, waypoints: seq<UiWaypoint>, event: UiEvent, fixed: ToFixed,
                    localTime: string -> string, localDate: string -> string): (lines: seq<string>)
    ensures |lines| == 5 + |legs|
    ensures lines[..4] == InfoLines(event, localDate)
    ensures lines[4] == HeaderLine
    ensures lines[5..] == RowLines(legs, waypoints, fixed, localTime)
  {
    var info, rows := InfoLines(event, localDate), RowLines(legs, waypoints, fixed, localTime);
    var lines := info + [HeaderLine] + rows;
    assert lines[..4] == info && lines[5..] == rows;
    lines
  }

  /** csvContent: the lines joined by newlines. */
  function CsvContent(legs: seq<UiLeg>, waypoints: seq<UiWaypoint>, event: UiEvent, fixed: ToFixed,
                      localTime: string -> string, localDate: string -> string): string
  {
    Join(CsvLines(legs, waypoints, event, fixed, localTime, localDate), "\n")
  }

  /** Joining parts that do not contain c with a separator that does not contain c gives text without c. */
  lemma {:induction false} JoinAvoids(parts: seq<string>, sep: string, c: char)
    requires c !in sep && forall k :: 0 <= k < |parts| ==> c !in parts[k]
    ensures c !in Join(parts, sep)
    decreases |parts|
  {
    if |parts| > 1 {
      JoinAvoids(parts[1..], sep, c);
    }
  }

  predicate NoNewlines(fields: seq<string>)
  {
    forall k :: 0 <= k < |fields| ==> '\n' !in fields[k]
  }

  lemma InfoLinesHaveNoNewline(event: UiEvent, localDate: string -> string)
    requires '\n' !in event.name && '\n' !in localDate(event.plannedDate)
    ensures NoNewlines(InfoLines(event, localDate))
  {
    var t := if event.targetDuration.Some? then event.targetDuration.value else 0;
    var lines := InfoLines(event, localDate);
    assert lines[0] == "Event: " + event.name;
    assert lines[1] == "Date: " + localDate(event.plannedDate);
    assert '\n' !in IntToString(t / 60) && '\n' !in IntToString(JsIntRem(t, 60));
  }

  lemma RowLinesHaveNoNewline(legs: seq<UiLeg>, waypoints: seq<UiWaypoint>, fixed: ToFixed, localTime: string -> string)
    requires forall i :: 0 <= i < |legs| ==> NoNewlines(Row(legs[i], waypoints, fixed, localTime))
    ensures NoNewlines(RowLines(legs, waypoints, fixed, localTime))
  {
    var lines := RowLines(legs, waypoints, fixed, localTime);
    forall k | 0 <= k < |lines|
      ensures '\n' !in lines[k]
    {
      JoinAvoids(Row(legs[k], waypoints, fixed, localTime), ",", '\n');
    }
  }

  /**
   * When the event name, the date text and every field are free of
   * newlines, the file splits back into exactly its 5 + |legs| lines.
   */
  lemma CsvHasOneLinePerLeg(legs: seq<UiLeg>, waypoints: seq<UiWaypoint>, event: UiEvent, fixed: ToFixed,
                            localTime: string -> string, localDate: string -> string)
    requires '\n' !in event.name && '\n' !in localDate(event.plannedDate)
    requires forall i :: 0 <= i < |legs| ==> NoNewlines(Row(legs[i], waypoints, fixed, localTime))
    ensures var lines := CsvLines(legs, waypoints, event, fixed, localTime, localDate);
            Split(CsvContent(legs, waypoints, event, fixed, localTime, localDate), '\n') == lines
            && |lines| == 5 + |legs|
  {
    var lines := CsvLines(legs, waypoints, event, fixed, localTime, localDate);
    CsvLinesHaveNoNewline(legs, waypoints, event, fixed, localTime, localDate);
    SplitJoin(lines, '\n');
  }

  lemma CsvLinesHaveNoNewline(legs: seq<UiLeg>, waypoints: seq<UiWaypoint>, event: UiEvent, fixed: ToFixed,
                              localTime: string -> string, localDate: string -> string)
    requires '\n' !in event.name && '\n' !in localDate(event.plannedDate)
    requires forall i :: 0 <= i < |legs| ==> NoNewlines(Row(legs[i], waypoints, fixed, localTime))
    ensures NoNewlines(CsvLines(legs, waypoints, event, fixed, localTime, localDate))
  {
    var info := InfoLines(event, localDate);
    var rows := RowLines(legs, waypoints, fixed, localTime);
    var header := HeaderLine;
    InfoLinesHaveNoNewline(event, localDate);
    RowLinesHaveNoNewline(legs, waypoints, fixed, localTime);
    HeaderHasNoNewline();
    LinesConcat(info, header, rows);
  }

  /** No header cell holds a newline, one cell at a time. */
  lemma EarlyHeaderCellsHaveNoNewline()
    ensures '\n' !in "Leg"
    ensures '\n' !in "Waypoint"
    ensures '\n' !in "Distance (mi)"
    ensures '\n' !in "Elevation Gain (m)"
    ensures '\n' !in "Elevation Loss (m)"
    ensures '\n' !in "Base Pace"
  {
  }

  lemma LaterHeaderCellsHaveNoNewline()
    ensures '\n' !in "Adjusted Pace"
    ensures '\n' !in "Leg Time"
    ensures '\n' !in "Arrival Time"
    ensures '\n' !in "Stop Time (min)"
    ensures '\n' !in "Exit Time"
    ensures '\n' !in "Cumulative Distance (mi)"
    ensures '\n' !in "Cumulative Time"
  {
  }

  lemma HeaderHasNoNewline()
    ensures '\n' !in HeaderLine
  {
    EarlyHeaderCellsHaveNoNewline();
    LaterHeaderCellsHaveNoNewline();
    forall k | 0 <= k < |Headers|
      ensures '\n' !in Headers[k]
    {
    }
    JoinAvoids(Headers, ",", '\n');
  }

  lemma LinesConcat(info: seq<string>, header: string, rows: seq<string>)
    requires NoNewlines(info) && '\n' !in header && NoNewlines(rows)
    ensures NoNewlines(info + [header] + rows)
  {
    var lines := info + [header] + rows;
    forall k | 0 <= k < |lines|
      ensures '\n' !in lines[k]
    {
      if k < |info| {
        assert lines[k] == info[k];
      } else if k > |info| {
        assert lines[k] == rows[k - |info| - 1];
      }
    }
  }

  /** A row whose fields are free of commas splits back into its 13 fields. */
  lemma RowSplitsIntoFields(leg: UiLeg, waypoints: seq<UiWaypoint>, fixed: ToFixed, localTime: string -> string)
    requires var row := Row(leg, waypoints, fixed, localTime);
             forall k :: 0 <= k < |row| ==> ',' !in row[k]
    ensures Split(Join(Row(leg, waypoints, fixed, localTime), ","), ',') == Row(leg, waypoints, fixed, localTime)
    ensures |Split(Join(Row(leg, waypoints, fixed, localTime), ","), ',')| == 13
  {
    SplitJoin(Row(leg, waypoints, fixed, localTime), ',');
  }

  // -------------------------------------------------------------- the filename

  /** `s.replace(/\s+/g, '_')`: every run of white space becomes one underscore. */
  function ReplaceSpaceRuns(s: string): (r: string)
    ensures forall i :: 0 <= i < |r| ==> !IsJsSpace(r[i])
    ensures |r| <= |s|
    decreases |s|
  {
    if |s| == 0 then ""
    else if IsJsSpace(s[0]) then "_" + ReplaceSpaceRuns(TrimStart(s))
    else [s[0]] + ReplaceSpaceRuns(s[1..])
  }

  /** The characters of s that are neither white space nor underscores. */
  function Visible(s: string): string
  {
    if |s| == 0 then ""
    else if IsJsSpace(s[0]) || s[0] == '_' then Visible(s[1..])
    else [s[0]] + Visible(s[1..])
  }

  lemma {:induction false} VisibleSkipsSpace(s: string)
    ensures Visible(TrimStart(s)) == Visible(s)
    decreases |s|
  {
    if |s| > 0 && IsJsSpace(s[0]) {
      VisibleSkipsSpace(s[1..]);
    }
  }

  /** Replacing the runs only adds underscores: every other visible character stays, in order. */
  lemma {:induction false} ReplaceKeepsVisible(s: string)
    ensures Visible(ReplaceSpaceRuns(s)) == Visible(s)
    decreases |s|
  {
    if |s| > 0 {
      if IsJsSpace(s[0]) {
        var t := TrimStart(s);
        ReplaceKeepsVisible(t);
        VisibleSkipsSpace(s);
        assert ("_" + ReplaceSpaceRuns(t))[1..] == ReplaceSpaceRuns(t);
      } else {
        ReplaceKeepsVisible(s[1..]);
        assert ([s[0]] + ReplaceSpaceRuns(s[1..]))[1..] == ReplaceSpaceRuns(s[1..]);
      }
    }
  }

  /** Every character of w is white space. */
  predicate AllSpace(w: string)
  {
    forall i :: 0 <= i < |w| ==> IsJsSpace(w[i])
  }

  /** Trimming a run of white space stops at the first character after it. */
  lemma {:induction false} TrimRun(w: string, b: string)
    requires AllSpace(w)
    requires |b| == 0 || !IsJsSpace(b[0])
    ensures TrimStart(w + b) == b
    decreases |w|
  {
    if |w| == 0 {
      assert w + b == b;
    } else {
      assert (w + b)[1..] == w[1..] + b;
      TrimRun(w[1..], b);
    }
  }

  /** Trimming a string that ends in a visible character ignores whatever follows it. */
  lemma {:induction false} TrimStartAppend(a: string, c: string)
    requires |a| > 0 && !IsJsSpace(a[|a| - 1])
    ensures TrimStart(a + c) == TrimStart(a) + c
    ensures |TrimStart(a)| > 0 && !IsJsSpace(TrimStart(a)[|TrimStart(a)| - 1])
    decreases |a|
  {
    if IsJsSpace(a[0]) {
      assert (a + c)[1..] == a[1..] + c;
      TrimStartAppend(a[1..], c);
    }
  }

  /** Replacing a string that is empty or ends in a visible character distributes over what follows it. */
  lemma {:induction false} ReplaceSplitsAfterVisible(a: string, c: string)
    requires |a| == 0 || !IsJsSpace(a[|a| - 1])
    ensures ReplaceSpaceRuns(a + c) == ReplaceSpaceRuns(a) + ReplaceSpaceRuns(c)
    decreases |a|
  {
    if |a| == 0 {
      assert a + c == c;
    } else if IsJsSpace(a[0]) {
      var t := TrimStart(a);
      assert TrimStart(a + c) == t + c && |t| < |a| && |t| > 0 && !IsJsSpace(t[|t| - 1]) by {
        TrimStartAppend(a, c);
        assert t == TrimStart(a[1..]);
      }
      ReplaceSplitsAfterVisible(t, c);
      assert (a + c)[0] == a[0];
      assert ReplaceSpaceRuns(a + c) == "_" + ReplaceSpaceRuns(t + c);
      assert ReplaceSpaceRuns(a) == "_" + ReplaceSpaceRuns(t);
      Regroup("_", ReplaceSpaceRuns(t), ReplaceSpaceRuns(c));
    } else {
      assert (a + c)[0] == a[0] && (a + c)[1..] == a[1..] + c;
      ReplaceSplitsAfterVisible(a[1..], c);
      assert ReplaceSpaceRuns(a + c) == [a[0]] + ReplaceSpaceRuns(a[1..] + c);
      Regroup([a[0]], ReplaceSpaceRuns(a[1..]), ReplaceSpaceRuns(c));
    }
  }

  /**
   * Each maximal run of white space becomes exactly one underscore in its
   * place: the run w between a (not ending in white space) and b (not
   * starting with it) contributes one '_' and nothing else.
   */
  lemma ReplaceRunWithOne(a: string, w: string, b: string)
    requires |w| > 0 && AllSpace(w)
    requires |a| == 0 || !IsJsSpace(a[|a| - 1])
    requires |b| == 0 || !IsJsSpace(b[0])
    ensures ReplaceSpaceRuns(a + w + b) == ReplaceSpaceRuns(a) + "_" + ReplaceSpaceRuns(b)
  {
    assert ReplaceSpaceRuns(w + b) == "_" + ReplaceSpaceRuns(b) by {
      assert (w + b)[0] == w[0];
      TrimRun(w, b);
    }
    ReplaceSplitsAfterVisible(a, w + b);
    Regroup(a, w, b);
    Regroup(ReplaceSpaceRuns(a), "_", ReplaceSpaceRuns(b));
  }

  /** A name without white space is kept as it is. */
  lemma {:induction false} ReplaceKeepsPlainName(s: string)
    requires forall i :: 0 <= i < |s| ==> !IsJsSpace(s[i])
    ensures ReplaceSpaceRuns(s) == s
    decreases |s|
  {
    if |s| > 0 {
      ReplaceKeepsPlainName(s[1..]);
    }
  }

  /** The download name: the event name with each white-space run replaced by '_', then "_plan.csv". */
  function FileName(eventName: string): (name: string)
    ensures forall i :: 0 <= i < |name| ==> !IsJsSpace(name[i])
    ensures |name| >= 9 && name[|name| - 9..] == "_plan.csv"
    ensures name[..|name| - 9] == ReplaceSpaceRuns(eventName)
  {
    ReplaceSpaceRuns(eventName) + "_plan.csv"
  }
}
