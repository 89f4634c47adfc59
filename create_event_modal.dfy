// The create-event form (frontend/src/components/CreateEventModal.tsx): the
// HH:MM:SS target duration is read into whole minutes, an unreadable duration
// stops the submission with a message, and the request sent carries the
// minutes, or no target at all when the field was left empty. Date parsing,
// parseFloat and the request itself are parameters; the React state other
// than the duration message is not modelled.

module CreateEventModal {
  import opened Wrappers
  import opened Strings
  import opened Numbers
  import ExportUtils

  const FormatMessage: string := "Format must be HH:MM:SS (e.g., 24:00:00 for 24 hours)"
  const NumberMessage: string := "Invalid time format"
  const RangeMessage: string := "Minutes and seconds must be less than 60"

  /** The outcome of timeToMinutes: nothing entered, a rejected entry and its message, or the minutes. */
  datatype DurationParse = NoDuration | Invalid(message: string) | Minutes(value: int)

  /**
   * timeToMinutes: the three ':'-separated fields read with parseInt; the
   * minutes and seconds must be below 60 and the seconds are rounded to the
   * nearest minute.
   */
  function TimeToMinutes(s: string): (r: DurationParse)
    ensures r.NoDuration? <==> s == ""
    ensures r.Invalid? && r.message == FormatMessage <==> s != "" && |Split(s, ':')| != 3
    ensures r.Invalid? ==> r.message in {FormatMessage, NumberMessage, RangeMessage}
    ensures r.Minutes? ==>
              var p := Split(s, ':');
              && |p| == 3
              && JsParseInt(p[0]).Some? && JsParseInt(p[1]).Some? && JsParseInt(p[2]).Some?
              && JsParseInt(p[1]).value < 60 && JsParseInt(p[2]).value < 60
  {
    if s == "" then NoDuration
    else
      var parts := Split(s, ':');
      if |parts| != 3 then Invalid(FormatMessage)
      else FieldsToMinutes(JsParseInt(parts[0]), JsParseInt(parts[1]), JsParseInt(parts[2]))
  }

  /** The three parsed fields: each must be a number, the minutes and seconds below 60. */
  function FieldsToMinutes(hours: Option<int>, minutes: Option<int>, seconds: Option<int>): (r: DurationParse)
    ensures r.Minutes? <==> hours.Some? && minutes.Some? && seconds.Some? && minutes.value < 60 && seconds.value < 60
    ensures r.Invalid? <==> !r.Minutes?
  {
    if hours.None? || minutes.None? || seconds.None? then Invalid(NumberMessage)
    else if minutes.value >= 60 || seconds.value >= 60 then Invalid(RangeMessage)
    else Minutes(hours.value * 60 + minutes.value + JsRound(seconds.value as real / 60.0))
  }

  /**
   * The duration message after timeToMinutes ran: unchanged for an empty
   * entry, the rejection's message, or cleared for a readable one.
   */
  function DurationError(previous: string, s: string): (e: string)
    ensures s == "" ==> e == previous
    ensures TimeToMinutes(s).Minutes? ==> e == ""
    ensures TimeToMinutes(s).Invalid? ==> e == TimeToMinutes(s).message && e != ""
  {
    match TimeToMinutes(s)
    case NoDuration => previous
    case Invalid(message) => message
    case Minutes(_) => ""
  }

  /** Seconds below 60 add one minute when they are at least 30, and none otherwise. */
  lemma RoundsSeconds(seconds: int)
    requires 0 <= seconds < 60
    ensures JsRound(seconds as real / 60.0) == (if seconds >= 30 then 1 else 0)
  {
    var x := seconds as real / 60.0;
    if seconds >= 30 {
      assert 1.0 <= x + 0.5 < 2.0;
    } else {
      assert 0.0 <= x + 0.5 < 1.0;
    }
  }

  /** A rendering of an integer contains no ':'. */
  lemma NoColonInIntToString(n: int)
    ensures ':' !in IntToString(n)
  {
    var s := IntToString(n);
    if n < 0 {
      assert s == "-" + NatToString(-n);
      assert forall i :: 1 <= i < |s| ==> IsDigit(s[i]) by {
        forall i | 1 <= i < |s|
          ensures IsDigit(s[i])
        {
          assert s[i] == NatToString(-n)[i - 1];
        }
      }
    }
  }

  /** Three texts joined by ':' split back into themselves when none of them holds a ':'. */
  lemma SplitThree(a: string, b: string, c: string)
    requires ':' !in a && ':' !in b && ':' !in c
    ensures Split(a + ":" + b + ":" + c, ':') == [a, b, c]
  {
    var parts := [a, b, c];
    var sep := [':'];
    assert Join([c], sep) == c;
    assert [b, c][1..] == [c];
    assert Join([b, c], sep) == b + sep + c;
    assert parts[1..] == [b, c];
    assert Join(parts, sep) == a + sep + (b + sep + c);
    assert a + sep + (b + sep + c) == a + ":" + b + ":" + c;
    assert forall k :: 0 <= k < |parts| ==> ':' !in parts[k] by {
      forall k | 0 <= k < |parts|
        ensures ':' !in parts[k]
      {
        if k == 0 {} else if k == 1 {} else {}
      }
    }
    SplitJoin(parts, ':');
  }

  /** A text that splits into three readable fields within range gives their minutes. */
  lemma ReadsFields(s: string, a: string, b: string, c: string, h: int, m: int, sec: int, total: int)
    requires total == h * 60 + m + JsRound(sec as real / 60.0)
    requires s != "" && Split(s, ':') == [a, b, c]
    requires JsParseInt(a) == Some(h) && JsParseInt(b) == Some(m) && JsParseInt(c) == Some(sec)
    requires m < 60 && sec < 60
    ensures TimeToMinutes(s) == Minutes(total)
  {
    ReadsFieldValues(h, m, sec, total);
    assert TimeToMinutes(s) == FieldsToMinutes(JsParseInt(a), JsParseInt(b), JsParseInt(c));
  }

  /** Readable fields within range give the hours times 60, the minutes and the rounded seconds. */
  lemma ReadsFieldValues(h: int, m: int, sec: int, total: int)
    requires total == h * 60 + m + JsRound(sec as real / 60.0)
    requires m < 60 && sec < 60
    ensures FieldsToMinutes(Some(h), Some(m), Some(sec)) == Minutes(total)
  {
  }

  /** Two-digit rendering of a number below 100 is read back by parseInt and holds no ':'. */
  lemma ReadsPadded(n: int)
    requires 0 <= n < 100
    ensures JsParseInt(ZeroPad2(n)) == Some(n) && ':' !in ZeroPad2(n)
  {
    var p := ZeroPad2(n);
    ZeroPad2Value(n);
    assert forall i :: 0 <= i < |p| ==> p[i] != ':';
  }

  /**
   * Hours, two-digit minutes and two-digit seconds below 60 are read back as
   * the hours times 60 plus the minutes, and one more when the seconds are
   * at least 30.
   */
  lemma ReadsRenderedDuration(hours: int, minutes: int, seconds: int, total: int)
    requires 0 <= minutes < 60 && 0 <= seconds < 60
    requires total == hours * 60 + minutes + if seconds >= 30 then 1 else 0
    ensures TimeToMinutes(IntToString(hours) + ":" + ZeroPad2(minutes) + ":" + ZeroPad2(seconds)) == Minutes(total)
  {
    RoundsSeconds(seconds);
    ReadsRenderedFields(hours, minutes, seconds, total);
  }

  /** The rendered fields are read back, the seconds rounded to the nearest minute. */
  lemma ReadsRenderedFields(hours: int, minutes: int, seconds: int, total: int)
    requires 0 <= minutes < 60 && 0 <= seconds < 60
    requires total == hours * 60 + minutes + JsRound(seconds as real / 60.0)
    ensures TimeToMinutes(IntToString(hours) + ":" + ZeroPad2(minutes) + ":" + ZeroPad2(seconds)) == Minutes(total)
  {
    RenderedParts(hours, minutes, seconds);
    ReadsJoinedFields(IntToString(hours), ZeroPad2(minutes), ZeroPad2(seconds), hours, minutes, seconds, total);
  }

  /** The rendered hours, minutes and seconds hold no ':' and parseInt reads each back. */
  lemma RenderedParts(hours: int, minutes: int, seconds: int)
    requires 0 <= minutes < 60 && 0 <= seconds < 60
    ensures ':' !in IntToString(hours) && ':' !in ZeroPad2(minutes) && ':' !in ZeroPad2(seconds)
    ensures JsParseInt(IntToString(hours)) == Some(hours)
    ensures JsParseInt(ZeroPad2(minutes)) == Some(minutes) && JsParseInt(ZeroPad2(seconds)) == Some(seconds)
  {
    ReadsPadded(minutes);
    ReadsPadded(seconds);
    NoColonInIntToString(hours);
    ParseIntOfIntToString(hours);
  }

  /** Three ':'-free fields that parseInt reads within range, joined by ':', give their minutes. */
  lemma ReadsJoinedFields(a: string, b: string, c: string, hours: int, minutes: int, seconds: int, total: int)
    requires ':' !in a && ':' !in b && ':' !in c
    requires JsParseInt(a) == Some(hours) && JsParseInt(b) == Some(minutes) && JsParseInt(c) == Some(seconds)
    requires minutes < 60 && seconds < 60
    requires total == hours * 60 + minutes + JsRound(seconds as real / 60.0)
    ensures TimeToMinutes(a + ":" + b + ":" + c) == Minutes(total)
  {
    SplitThree(a, b, c);
    ReadsFields(a + ":" + b + ":" + c, a, b, c, hours, minutes, seconds, total);
  }

  /** Every positive whole duration the plan shows as h:mm:ss is read back as the same minutes. */
  lemma ReadsFormattedTime(t: int)
    requires t > 0
    ensures TimeToMinutes(ExportUtils.FormatTime(Some(t as real))) == Minutes(t)
  {
    FormattedTimeIsRendered(t);
    ReadsRenderedDuration(t / 60, t % 60, 0, t);
  }

  /** The h:mm:ss text of a positive whole duration is its rendered hours, minutes and zero seconds. */
  lemma FormattedTimeIsRendered(t: int)
    requires t > 0
    ensures ExportUtils.FormatTime(Some(t as real)) == IntToString(t / 60) + ":" + ZeroPad2(t % 60) + ":" + ZeroPad2(0)
  {
    var rendered := IntToString(t / 60) + ":" + ZeroPad2(t % 60) + ":" + ZeroPad2(0);
    assert rendered == NatToString(t / 60) + ":" + ZeroPad2(t % 60) + ":00" by {
      assert IntToString(t / 60) == NatToString(t / 60);
      assert ZeroPad2(0) == "00";
    }
    ExportUtils.FormatWholeMinutes(t);
  }

  /** The form as typed: every field is text. */
  datatype EventForm = EventForm(
    name: string,
    plannedDate: string,
    targetDuration: string,
    gainPercent: string,
    descentPercent: string,
    fatiguePercent: string)

  /** The body of the create request; a None number is NaN or undefined. */
  datatype EventCreate = EventCreate(
    name: string,
    plannedDate: string,
    targetDurationMinutes: Option<int>,
    gainPercent: Option<real>,
    descentPercent: Option<real>,
    fatiguePercent: Option<real>)

  /**
   * What a submission leads to, with the duration message it leaves: stopped
   * before any request, an alert because the date could not be converted, or
   * the request sent.
   */
  datatype SubmitOutcome =
    | Aborted(durationError: string)
    | Alerted(durationError: string)
    | Submitted(request: EventCreate, durationError: string)

  /**
   * handleSubmit. `toIso` is `new Date(d).toISOString()`, None when it
   * throws; `parseFloat` returns None for NaN.
   */
  function HandleSubmit(form: EventForm, previousError: string, toIso: string -> Option<string>,
                        parseFloat: string -> Option<real>): (r: SubmitOutcome)
    ensures r.durationError == DurationError(previousError, form.targetDuration)
    ensures r.Aborted? <==> form.targetDuration != "" && !TimeToMinutes(form.targetDuration).Minutes?
    ensures r.Alerted? <==> !r.Aborted? && toIso(form.plannedDate).None?
    ensures r.Submitted? ==>
              && r.request.name == form.name
              && r.request.plannedDate == toIso(form.plannedDate).value
              && (r.request.targetDurationMinutes.None? <==> form.targetDuration == "")
              && (r.request.targetDurationMinutes.Some? ==>
                    TimeToMinutes(form.targetDuration) == Minutes(r.request.targetDurationMinutes.value))
              && r.request.gainPercent == parseFloat(form.gainPercent)
              && r.request.descentPercent == parseFloat(form.descentPercent)
              && r.request.fatiguePercent == parseFloat(form.fatiguePercent)
  {
    var parsed := TimeToMinutes(form.targetDuration);
    var error := DurationError(previousError, form.targetDuration);
    if form.targetDuration != "" && !parsed.Minutes? then Aborted(error)
    else
      var date := toIso(form.plannedDate);
      if date.None? then Alerted(error)
      else
        var target := if parsed.Minutes? then Some(parsed.value) else None;
        Submitted(EventCreate(form.name, date.value, target, parseFloat(form.gainPercent),
                              parseFloat(form.descentPercent), parseFloat(form.fatiguePercent)),
                  error)
  }

  /** A duration the plan itself displays is always accepted and sent as the same minutes. */
  lemma SubmitsFormattedTarget(form: EventForm, previousError: string, toIso: string -> Option<string>,
                               parseFloat: string -> Option<real>, t: int)
    requires t > 0 && form.targetDuration == ExportUtils.FormatTime(Some(t as real))
    requires toIso(form.plannedDate).Some?
    ensures var r := HandleSubmit(form, previousError, toIso, parseFloat);
            r.Submitted? && r.request.targetDurationMinutes == Some(t) && r.durationError == ""
  {
    ReadsFormattedTime(t);
  }
}
