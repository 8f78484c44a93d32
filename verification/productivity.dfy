/** Calendar shaping of the assistant's digital suite: normalising the events the
    Google Calendar API returns, rescheduling an event record, and rendering a day's
    schedule for speech. OAuth, the API client and the clock are outside the model:
    whether credentials exist and what each API call returned arrive as inputs. */
module Productivity {
  import opened Wrappers
  import opened Strings

  /** The `start` or `end` object of a Calendar event; absent keys are `None`. */
  datatype When = When(dateTime: Option<string>, date: Option<string>, timeZone: Option<string>)

  /** One entry of the `items` list of an events listing; absent keys are `None`. */
  datatype RawItem = RawItem(id: Option<string>, summary: Option<string>, start: Option<When>, end: Option<When>)

  /** A normalised event `{id, summary, start, end}`. */
  datatype Event = Event(id: Option<string>, summary: string, start: Option<string>, end: Option<string>)

  /** The `{events, error}` record of `get_today_schedule`; `error` absent is `None`. */
  datatype Schedule = Schedule(events: seq<Event>, error: Option<string>)

  const NoTitle := "(No title)"
  const ScheduleNotConfigured := "Google Calendar not configured. Add credentials to backend/credentials/."
  const RescheduleNotConfigured := "Google Calendar not configured."
  const NoEventsText := "You have no events on your calendar today."
  const ScheduleHeader := "Today's schedule:"
  const DefaultZone := "UTC"

  // ---------------------------------------------------------------- normalisation

  /** `e.get(k, {}).get("dateTime") or e.get(k, {}).get("date")`: the date-time when it
      is truthy, otherwise whatever the date is. */
  function PickTime(w: Option<When>): (r: Option<string>)
    ensures w.None? ==> r.None?
    ensures w.Some? && Truthy(w.value.dateTime) ==> r == w.value.dateTime
    ensures w.Some? && !Truthy(w.value.dateTime) ==> r == w.value.date
  {
    if w.None? then None
    else if Truthy(w.value.dateTime) then w.value.dateTime
    else w.value.date
  }

  /** One iteration of the loop over `events_result.get("items", [])` of
      `get_today_schedule`: the summary defaults to "(No title)". */
  function NormalizeItem(e: RawItem): Event {
    Event(e.id, e.summary.GetOr(NoTitle), PickTime(e.start), PickTime(e.end))
  }

  /** The whole loop: one event per item, in item order. */
  function NormalizeEvents(items: seq<RawItem>): (events: seq<Event>)
    ensures |events| == |items|
    ensures forall i :: 0 <= i < |items| ==>
      && events[i].id == items[i].id
      && events[i].summary == items[i].summary.GetOr(NoTitle)
      && events[i].start == PickTime(items[i].start)
      && events[i].end == PickTime(items[i].end)
    decreases |items|
  {
    if |items| == 0 then []
    else
      var rest := NormalizeEvents(items[1..]);
      assert forall i :: 1 <= i < |items| ==> items[i] == items[1..][i - 1];
      [NormalizeItem(items[0])] + rest
  }

  /** `get_today_schedule`: without credentials the not-configured error and no events,
      whatever the API would have answered; a failing API call becomes its message;
      otherwise every item is normalised and there is no error. */
  function GetTodaySchedule(hasCredentials: bool, listing: Outcome<seq<RawItem>>): (r: Schedule)
    ensures !hasCredentials ==> r == Schedule([], Some(ScheduleNotConfigured))
    ensures hasCredentials && listing.Raised? ==> r == Schedule([], Some(listing.message))
    ensures hasCredentials && listing.Returned? ==>
      && r.error.None?
      && r.events == NormalizeEvents(listing.value)
      && |r.events| == |listing.value|
      && forall i :: 0 <= i < |listing.value| ==>
           && r.events[i].id == listing.value[i].id
           && r.events[i].summary == listing.value[i].summary.GetOr(NoTitle)
           && r.events[i].start == PickTime(listing.value[i].start)
           && r.events[i].end == PickTime(listing.value[i].end)
  {
    if !hasCredentials then Schedule([], Some(ScheduleNotConfigured))
    else match listing
      case Raised(m) => Schedule([], Some(m))
      case Returned(items) => Schedule(NormalizeEvents(items), None)
  }

  // ---------------------------------------------------------------- speech

  /** `start.split("T")[1][:5]` when the start contains "T", the start itself otherwise. */
  function ShortTime(start: string): (r: string)
    ensures 'T' !in start ==> r == start
    ensures 'T' in start ==> |r| <= 5 && 'T' !in r
  {
    if 'T' in start then
      var pieces := Split(start, 'T');
      assert |pieces| >= 2;
      var seg := pieces[1];
      if |seg| <= 5 then seg else seg[..5]
    else start
  }

  /** The shortened time is what follows the first "T": at most five characters of it,
      stopping early only at the end of the string or at the next "T". */
  lemma ShortTimeAfterFirstT(start: string, i: nat)
    requires i < |start| && start[i] == 'T' && 'T' !in start[..i]
    ensures var r := ShortTime(start);
      && IsPrefix(r, start[i + 1..])
      && |r| <= 5
      && (|r| < 5 ==> i + 1 + |r| == |start| || start[i + 1 + |r|] == 'T')
  {
    var rest := start[i + 1..];
    assert start == start[..i] + ['T'] + rest;
    SplitAfterPiece(start[..i], 'T', rest);
    SplitHead(rest, 'T');
  }

  predicate AllStarted(events: seq<Event>) {
    forall i :: 0 <= i < |events| ==> events[i].start.Some?
  }

  function EventLine(e: Event): string
    requires e.start.Some?
  {
    "  - " + e.summary + " at " + ShortTime(e.start.value)
  }

  /** The lines of a non-empty schedule: the header, then one line per event in order. */
  function ScheduleLines(events: seq<Event>): (r: seq<string>)
    requires AllStarted(events)
    ensures |r| == |events| + 1 && r[0] == ScheduleHeader
    ensures forall i :: 0 <= i < |events| ==> r[i + 1] == EventLine(events[i])
  {
    [ScheduleHeader] + seq(|events|, i requires 0 <= i < |events| => EventLine(events[i]))
  }

  /** `format_schedule_for_speech`. `None` stands for the TypeError Python raises when
      an event's start is `None` (`"T" in None`); an error in the record wins over
      everything else, and an empty day has its own sentence. */
  function FormatSchedule(s: Schedule): (r: Option<string>)
    ensures Truthy(s.error) ==> r == Some("Calendar: " + s.error.value)
    ensures !Truthy(s.error) && s.events == [] ==> r == Some(NoEventsText)
    ensures !Truthy(s.error) && s.events != [] ==>
      && (r.Some? <==> AllStarted(s.events))
      && (r.Some? ==> IsPrefix(ScheduleHeader + "\n", r.value))
    ensures r.Some? ==> r.value != ""
  {
    if Truthy(s.error) then Some("Calendar: " + s.error.value)
    else if s.events == [] then Some(NoEventsText)
    else if AllStarted(s.events) then
      var lines := ScheduleLines(s.events);
      Some(Join(lines, "\n"))
    else None
  }

  /** The shortened time only holds characters of the start. */
  lemma ShortTimeChars(st: string)
    ensures forall c :: c in ShortTime(st) ==> c in st
  {
    if 'T' in st {
      var i :| 0 <= i < |st| && st[i] == 'T';
      FirstIndexOf(st, 'T', i);
      var f :| 0 <= f < |st| && st[f] == 'T' && 'T' !in st[..f];
      ShortTimeAfterFirstT(st, f);
      PrefixOfSuffixChars(ShortTime(st), st, f + 1);
    }
  }

  lemma PrefixOfSuffixChars(t: string, st: string, j: nat)
    requires j <= |st| && IsPrefix(t, st[j..])
    ensures forall c :: c in t ==> c in st
  {
    forall c | c in t ensures c in st {
      var k :| 0 <= k < |t| && t[k] == c;
      assert st[j..][k] == st[j + k];
    }
  }

  lemma EventLineNoBreak(e: Event)
    requires e.start.Some? && '\n' !in e.summary && '\n' !in e.start.value
    ensures '\n' !in EventLine(e)
  {
    ShortTimeChars(e.start.value);
  }

  /** When no summary or start contains a line break, splitting the schedule speech at
      line breaks gives back the header and exactly one line per event, in order. */
  lemma ScheduleSpeechLines(s: Schedule)
    requires !Truthy(s.error) && s.events != [] && AllStarted(s.events)
    requires forall i :: 0 <= i < |s.events| ==> '\n' !in s.events[i].summary && '\n' !in s.events[i].start.value
    ensures FormatSchedule(s).Some?
    ensures Split(FormatSchedule(s).value, '\n') == ScheduleLines(s.events)
    ensures |Split(FormatSchedule(s).value, '\n')| == |s.events| + 1
  {
    var lines := ScheduleLines(s.events);
    forall k | 0 <= k < |lines| ensures '\n' !in lines[k] {
      if k > 0 {
        EventLineNoBreak(s.events[k - 1]);
      }
    }
    SplitJoin(lines, '\n');
  }

  /** Every occurrence has a first occurrence. */
  lemma FirstIndexOf(s: string, c: char, i: nat)
    requires i < |s| && s[i] == c
    ensures exists f :: 0 <= f < |s| && s[f] == c && c !in s[..f]
    decreases i
  {
    if c in s[..i] {
      var j :| 0 <= j < i && s[..i][j] == c;
      FirstIndexOf(s, c, j);
    }
  }

  // ---------------------------------------------------------------- rescheduling

  /** A Calendar event as `events().get` returns it: the `start` and `end` objects and
      every other field, left opaque. */
  datatype CalEvent = CalEvent(start: Option<When>, end: Option<When>, otherFields: map<string, string>)

  /** `event.get(k, {}).get("timeZone", "UTC")`: the object's own zone when it names
      one, "UTC" when the object or its zone key is absent. */
  function KeptZone(w: Option<When>): (r: string)
    ensures w.Some? && w.value.timeZone.Some? ==> r == w.value.timeZone.value
    ensures w.None? || w.value.timeZone.None? ==> r == DefaultZone
  {
    if w.Some? && w.value.timeZone.Some? then w.value.timeZone.value else DefaultZone
  }

  /** The record update of `reschedule_event`: the start becomes the new date-time in
      the old time zone, the end is replaced only when a new end is given, and every
      other field is kept. No time zone ever changes. */
  function Rescheduled(e: CalEvent, newStart: string, newEnd: Option<string>): (r: CalEvent)
    ensures r.otherFields == e.otherFields
    ensures r.start == Some(When(Some(newStart), None, Some(KeptZone(e.start))))
    ensures Truthy(newEnd) ==> r.end == Some(When(newEnd, None, Some(KeptZone(e.end))))
    ensures !Truthy(newEnd) ==> r.end == e.end
    ensures KeptZone(r.start) == KeptZone(e.start) && KeptZone(r.end) == KeptZone(e.end)
  {
    var start := When(Some(newStart), None, Some(KeptZone(e.start)));
    var end := if Truthy(newEnd) then Some(When(newEnd, None, Some(KeptZone(e.end)))) else e.end;
    e.(start := Some(start), end := end)
  }

  /** Rescheduling twice to the same times is rescheduling once. */
  lemma RescheduledIdempotent(e: CalEvent, newStart: string, newEnd: Option<string>)
    ensures Rescheduled(Rescheduled(e, newStart, newEnd), newStart, newEnd) == Rescheduled(e, newStart, newEnd)
  {
  }

  /** The `{success, error}` record of `reschedule_event`. */
  datatype RescheduleResult = RescheduleResult(success: bool, error: Option<string>)

  /** The result of `reschedule_event` and the event body handed to `events().update`
      (`None` when the update was never reached). */
  datatype Rescheduling = Rescheduling(result: RescheduleResult, sent: Option<CalEvent>)

  /** `reschedule_event`: fetch, update the record, send it back. Without credentials
      nothing is fetched or sent; any API failure becomes the error. */
  function RescheduleEvent(hasCredentials: bool, fetched: Outcome<CalEvent>, newStart: string,
                           newEnd: Option<string>, update: Outcome<()>): (r: Rescheduling)
    ensures r.result.success <==> r.result.error.None?
    ensures !hasCredentials ==> r == Rescheduling(RescheduleResult(false, Some(RescheduleNotConfigured)), None)
    ensures hasCredentials && fetched.Raised? ==>
      r == Rescheduling(RescheduleResult(false, Some(fetched.message)), None)
    ensures hasCredentials && fetched.Returned? ==>
      && r.sent == Some(Rescheduled(fetched.value, newStart, newEnd))
      && (r.result.success <==> update.Returned?)
      && (update.Raised? ==> r.result.error == Some(update.message))
  {
    if !hasCredentials then Rescheduling(RescheduleResult(false, Some(RescheduleNotConfigured)), None)
    else match fetched
      case Raised(m) => Rescheduling(RescheduleResult(false, Some(m)), None)
      case Returned(event) =>
        var body := Rescheduled(event, newStart, newEnd);
        match update
        case Returned(_) => Rescheduling(RescheduleResult(true, None), Some(body))
        case Raised(m) => Rescheduling(RescheduleResult(false, Some(m)), Some(body))
  }
}
