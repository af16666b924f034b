/** The heating-schedule calendar of a zone: each day of a date range
    takes the blocks of its day type, every block that heats becomes an
    event of that day, and the calendar shows the first event by start
    that is still running or yet to come.

    Dates are day numbers counted from 1970-01-01 (a Thursday) and times
    are seconds from the start of day 0, both in local time. */
module Calendar {
  import opened Common

  /** The first second of a day. */
  function DayStart(day: int): int { day * 86400 }

  /** `date.weekday()`: Monday is 0, Sunday 6. */
  function Weekday(day: int): (w: int)
    ensures 0 <= w < 7
  {
    (day + 3) % 7
  }

  /** The day types of a timetable; an unknown one reads as ONE_DAY. */
  function DayTypes(timetable: string): seq<string> {
    if timetable == "THREE_DAY" then ["MONDAY_TO_FRIDAY", "SATURDAY", "SUNDAY"]
    else if timetable == "SEVEN_DAY" then ["MONDAY", "TUESDAY", "WEDNESDAY", "THURSDAY", "FRIDAY", "SATURDAY", "SUNDAY"]
    else ["MONDAY_TO_SUNDAY"]
  }

  /** The weekdays a day type covers; none for an unknown one. */
  function DayTypeWeekdays(dayType: string): set<int> {
    if dayType == "MONDAY_TO_SUNDAY" then {0, 1, 2, 3, 4, 5, 6}
    else if dayType == "MONDAY_TO_FRIDAY" then {0, 1, 2, 3, 4}
    else if dayType == "SATURDAY" then {5}
    else if dayType == "SUNDAY" then {6}
    else if dayType == "MONDAY" then {0}
    else if dayType == "TUESDAY" then {1}
    else if dayType == "WEDNESDAY" then {2}
    else if dayType == "THURSDAY" then {3}
    else if dayType == "FRIDAY" then {4}
    else {}
  }

  /** In every timetable, each weekday belongs to exactly one of its day
      types. */
  lemma DayTypesPartitionWeek(timetable: string, weekday: int)
    requires 0 <= weekday < 7
    ensures exists i :: 0 <= i < |DayTypes(timetable)| && weekday in DayTypeWeekdays(DayTypes(timetable)[i])
    ensures forall i, j :: 0 <= i < j < |DayTypes(timetable)| ==>
              !(weekday in DayTypeWeekdays(DayTypes(timetable)[i]) && weekday in DayTypeWeekdays(DayTypes(timetable)[j]))
  {
    var types := DayTypes(timetable);
    if timetable == "THREE_DAY" {
      assert types == ["MONDAY_TO_FRIDAY", "SATURDAY", "SUNDAY"];
      var i := if weekday < 5 then 0 else if weekday == 5 then 1 else 2;
      assert weekday in DayTypeWeekdays(types[i]);
    } else if timetable == "SEVEN_DAY" {
      assert weekday in DayTypeWeekdays(types[weekday]);
    } else {
      assert weekday in DayTypeWeekdays(types[0]);
    }
  }

  /** A block's start or end as the schedules file stores it: no key, a
      null value, or a text. */
  datatype TimeField = Absent | Null | Text(text: string)

  /** A schedule block as the schedules file stores it. `temperature` is
      the rendered Celsius value, None when the block has no temperature
      or an empty one. */
  datatype Block = Block(start: TimeField, end: TimeField, power: Option<string>, temperature: Option<string>)

  /** `block.get(key, "00:00")`: a missing key reads as midnight; a null
      value stays None, and splitting it raises. */
  function TimeText(f: TimeField): Option<string> {
    match f
    case Absent => Some("00:00")
    case Null => None
    case Text(t) => Some(t)
  }

  /** The start and end of a block, in seconds after midnight, when both
      times can be read. */
  predicate TimesRead(block: Block) {
    TimeText(block.start).Some? && ClockTime(TimeText(block.start).value).Some?
    && TimeText(block.end).Some? && ClockTime(TimeText(block.end).value).Some?
  }

  /** A zone's schedule: its timetable type and its blocks by day type. */
  datatype Schedule = Schedule(timetable: Option<string>, blocksByDay: map<string, seq<Block>>)

  datatype Event = Event(start: int, end: int, summary: string)

  /** `_get_blocks_for_weekday`: the blocks of the first day type of the
      timetable that covers the weekday, none when it has no entry. */
  function BlocksForWeekday(weekday: int, timetable: string, blocksByDay: map<string, seq<Block>>): seq<Block> {
    BlocksOfFirstCovering(weekday, DayTypes(timetable), blocksByDay)
  }

  function BlocksOfFirstCovering(weekday: int, dayTypes: seq<string>, blocksByDay: map<string, seq<Block>>): (r: seq<Block>)
    ensures (forall t :: t in dayTypes ==> weekday !in DayTypeWeekdays(t)) ==> r == []
  {
    if |dayTypes| == 0 then []
    else if weekday in DayTypeWeekdays(dayTypes[0]) then
      (if dayTypes[0] in blocksByDay then blocksByDay[dayTypes[0]] else [])
    else BlocksOfFirstCovering(weekday, dayTypes[1..], blocksByDay)
  }

  /** A weekday takes the blocks stored under its own day type, or none
      when that day type has no entry. */
  lemma BlocksOfOwnDayType(timetable: string, weekday: int, blocksByDay: map<string, seq<Block>>, i: nat)
    requires i < |DayTypes(timetable)| && weekday in DayTypeWeekdays(DayTypes(timetable)[i])
    ensures BlocksForWeekday(weekday, timetable, blocksByDay) ==
              var t := DayTypes(timetable)[i]; if t in blocksByDay then blocksByDay[t] else []
  {
    DayTypesPartitionWeek(timetable, weekday);
    var types := DayTypes(timetable);
    var k := 0;
    while k < i
      invariant 0 <= k <= i
      invariant BlocksForWeekday(weekday, timetable, blocksByDay) == BlocksOfFirstCovering(weekday, types[k..], blocksByDay)
    {
      assert types[k..][1..] == types[k + 1..];
      k := k + 1;
    }
  }

  /** `HH:MM` read as two integers by `int()` (blanks around them and a
      sign allowed) within a clock's range, as `datetime` demands;
      anything else makes the conversion fail. */
  function ClockTime(text: string): (r: Option<int>)
    ensures r.Some? ==> 0 <= r.value <= 23 * 3600 + 59 * 60 && r.value % 60 == 0
  {
    var parts := Split(text, ":");
    if |parts| != 2 then None
    else
      var h := ParseInt(Strip(parts[0]));
      var m := ParseInt(Strip(parts[1]));
      if h.None? || m.None? || !(0 <= h.value <= 23) || !(0 <= m.value <= 59) then None
      else Some(h.value * 3600 + m.value * 60)
  }

  /** Two fields that `int()` reads as an hour and a minute in range,
      split at the colon, read as that time of day. */
  lemma ClockTimeReadsFields(a: string, b: string, h: int, m: int)
    requires Split(a + ":" + b, ":") == [a, b]
    requires ParseInt(Strip(a)) == Some(h) && ParseInt(Strip(b)) == Some(m)
    requires 0 <= h <= 23 && 0 <= m <= 59
    ensures ClockTime(a + ":" + b) == Some(h * 3600 + m * 60)
  {
  }

  /** A zero-padded `HH:MM` within a clock's range reads back as its
      seconds after midnight. */
  lemma ClockTimeReadsPadded(h: nat, m: nat)
    requires h <= 23 && m <= 59
    ensures ClockTime(Pad2(h) + ":" + Pad2(m)) == Some(h * 3600 + m * 60)
  {
    var a, b := Pad2(h), Pad2(m);
    assert Split(a + ":" + b, ":") == [a, b] by {
      assert ':' !in a && ':' !in b by {
        assert !IsDigit(':');
      }
      SplitAfter(a, ":", b);
      SplitNoSeparator(b, ":");
    }
    assert ParseInt(Strip(a)) == Some(h) by { Pad2Parses(h); }
    assert ParseInt(Strip(b)) == Some(m) by { Pad2Parses(m); }
    ClockTimeReadsFields(a, b, h, m);
  }

  /** What a block turns into. `Failed` is the exception a malformed or
      null time raises, which ends the whole listing. */
  datatype Conversion = NoEvent | Made(event: Event) | Failed

  /** The unit after an event's temperature. The calendar source file
      spells the degree sign as the two characters U+00C2 U+00B0 (a UTF-8
      degree sign read back as Latin-1), so its summaries end in "Â°C";
      the model keeps the text as written. */
  const UnitText: string := "\U{00C2}\U{00B0}C"

  /** `_block_to_event`: no event for a block that is not ON or has no
      temperature; an end of "00:00" after a start that is not "00:00"
      means 23:59:59 of the same day; a block that does not end after it
      starts gives no event. */
  function BlockToEvent(block: Block, day: int, zoneName: string): (r: Conversion)
    ensures r.Made? ==> DayStart(day) <= r.event.start < r.event.end < DayStart(day + 1)
    ensures block.power != Some("ON") || block.temperature.None? ==> r.NoEvent?
    ensures r.Failed? <==> block.power == Some("ON") && block.temperature.Some? && !TimesRead(block)
    ensures block.power == Some("ON") && block.temperature.Some? && TimesRead(block) ==>
              var startText := TimeText(block.start).value;
              var endText := TimeText(block.end).value;
              var start := DayStart(day) + ClockTime(startText).value;
              var end := DayStart(day) + if endText == "00:00" && startText != "00:00" then 23 * 3600 + 59 * 60 + 59
                                         else ClockTime(endText).value;
              (r.Made? <==> start < end)
              && (r.Made? ==> r.event.start == start && r.event.end == end
                              && r.event.summary == zoneName + " " + block.temperature.value + UnitText)
  {
    if block.power.GetOr("OFF") != "ON" then NoEvent
    else if block.temperature.None? then NoEvent
    else if !TimesRead(block) then Failed
    else
      var startText := TimeText(block.start).value;
      var endText := TimeText(block.end).value;
      var start := DayStart(day) + ClockTime(startText).value;
      var end :=
        if endText == "00:00" && startText != "00:00" then DayStart(day) + 23 * 3600 + 59 * 60 + 59
        else DayStart(day) + ClockTime(endText).value;
      if start >= end then NoEvent
      else Made(Event(start, end, zoneName + " " + block.temperature.value + UnitText))
  }

  /** Midnight reads as zero seconds. */
  lemma ClockTimeMidnight()
    ensures ClockTime("00:00") == Some(0)
  {
    ClockTimeReadsPadded(0, 0);
    assert Pad2(0) + ":" + Pad2(0) == "00:00";
  }

  /** An ON block with a temperature that starts at a readable time other
      than "00:00" and ends at "00:00" runs to 23:59:59 of its day. */
  lemma MidnightEndRunsToDayEnd(startText: string, temperature: string, day: int, zoneName: string)
    requires ClockTime(startText).Some? && startText != "00:00"
    ensures BlockToEvent(Block(Text(startText), Text("00:00"), Some("ON"), Some(temperature)), day, zoneName)
              == Made(Event(DayStart(day) + ClockTime(startText).value, DayStart(day) + 86399, zoneName + " " + temperature + UnitText))
  {
    ClockTimeMidnight();
  }

  /** A missing start reads as midnight, while a null one raises once the
      block is ON with a temperature. */
  lemma AbsentAndNullStart(endText: string, temperature: string, day: int, zoneName: string)
    requires ClockTime(endText).Some? && ClockTime(endText).value > 0
    ensures BlockToEvent(Block(Absent, Text(endText), Some("ON"), Some(temperature)), day, zoneName)
              == Made(Event(DayStart(day), DayStart(day) + ClockTime(endText).value, zoneName + " " + temperature + UnitText))
    ensures BlockToEvent(Block(Null, Text(endText), Some("ON"), Some(temperature)), day, zoneName).Failed?
  {
    ClockTimeMidnight();
  }

  /** The events of one day's blocks, in block order; None when a block's
      time is malformed. */
  function BlockEvents(blocks: seq<Block>, day: int, zoneName: string): (r: Option<seq<Event>>)
    ensures r.Some? ==> forall e :: e in r.value ==> DayStart(day) <= e.start < e.end < DayStart(day + 1)
    ensures r.Some? ==> |r.value| <= |blocks|
  {
    if |blocks| == 0 then Some([])
    else
      var c := BlockToEvent(blocks[0], day, zoneName);
      var rest := BlockEvents(blocks[1..], day, zoneName);
      if c.Failed? || rest.None? then None
      else if c.Made? then Some([c.event] + rest.value)
      else rest
  }

  /** The events of one day of a schedule. */
  function DayEvents(schedule: Schedule, day: int, zoneName: string): Option<seq<Event>> {
    var blocks := BlocksForWeekday(Weekday(day), schedule.timetable.GetOr("ONE_DAY"), schedule.blocksByDay);
    BlockEvents(blocks, day, zoneName)
  }

  /** The events of the dates `first` up to, not including, `last`, date
      by date, for any way `days` of listing one date's events; None as
      soon as one date's listing fails. */
  function EventsOver(days: int -> Option<seq<Event>>, first: int, last: int): Option<seq<Event>>
    decreases last - first
  {
    if first >= last then Some([])
    else
      var head := days(first);
      var rest := EventsOver(days, first + 1, last);
      if head.None? || rest.None? then None else Some(head.value + rest.value)
  }

  /** One date's events from a zone's schedule, as a function of the date. */
  function DayEventsOf(schedule: Schedule, zoneName: string): int -> Option<seq<Event>> {
    day => DayEvents(schedule, day, zoneName)
  }

  /** The events of the days `first` up to, not including, `last`, day by
      day; None when one day's listing fails. */
  function EventsBetween(schedule: Schedule, first: int, last: int, zoneName: string): Option<seq<Event>>
    decreases last - first
  {
    if first >= last then Some([])
    else
      var head := DayEvents(schedule, first, zoneName);
      var rest := EventsBetween(schedule, first + 1, last, zoneName);
      if head.None? || rest.None? then None else Some(head.value + rest.value)
  }

  /** The range's events are the walk over its dates with the schedule's
      listing of one date. */
  lemma {:induction false} EventsBetweenIsWalk(schedule: Schedule, first: int, last: int, zoneName: string)
    ensures EventsBetween(schedule, first, last, zoneName) == EventsOver(DayEventsOf(schedule, zoneName), first, last)
    decreases last - first
  {
    if first < last {
      EventsBetweenIsWalk(schedule, first + 1, last, zoneName);
      assert DayEventsOf(schedule, zoneName)(first) == DayEvents(schedule, first, zoneName);
    }
  }

  /** Every listed event lies within the range and starts before it ends. */
  lemma {:induction false} EventsWithinRange(schedule: Schedule, first: int, last: int, zoneName: string)
    requires EventsBetween(schedule, first, last, zoneName).Some?
    ensures var es := EventsBetween(schedule, first, last, zoneName).value;
            forall e :: e in es ==> DayStart(first) <= e.start < e.end <= DayStart(last)
    decreases last - first
  {
    if first < last {
      EventsWithinRange(schedule, first + 1, last, zoneName);
      var head := DayEvents(schedule, first, zoneName).value;
      var rest := EventsBetween(schedule, first + 1, last, zoneName).value;
      assert forall e :: e in head + rest ==> e in head || e in rest;
    }
  }

  /** The day an event starts on. */
  function DayOf(e: Event): int {
    e.start / 86400
  }

  lemma DayOfWithin(e: Event, day: int)
    requires DayStart(day) <= e.start < DayStart(day + 1)
    ensures DayOf(e) == day
  {
  }

  /** Every event of `es` starts on `day`. */
  predicate OnDay(es: seq<Event>, day: int) {
    forall e :: e in es ==> DayOf(e) == day
  }

  /** Every event of `es` starts on a day from `first` up to, not
      including, `last`, and a later day's event never comes before an
      earlier day's. */
  predicate InDateOrder(es: seq<Event>, first: int, last: int) {
    (forall e :: e in es ==> first <= DayOf(e) < last)
    && (forall i, j :: 0 <= i < j < |es| ==> DayOf(es[i]) <= DayOf(es[j]))
  }

  /** Every event of one day's listing starts on that day. */
  lemma DayEventsOnDay(schedule: Schedule, day: int, zoneName: string)
    requires DayEvents(schedule, day, zoneName).Some?
    ensures OnDay(DayEvents(schedule, day, zoneName).value, day)
  {
    forall e | e in DayEvents(schedule, day, zoneName).value
      ensures DayOf(e) == day
    {
      DayOfWithin(e, day);
    }
  }

  /** Events of one day followed by events of later days, themselves in
      date order, are in date order. */
  lemma ConcatInDateOrder(head: seq<Event>, rest: seq<Event>, first: int, last: int)
    requires first < last && OnDay(head, first) && InDateOrder(rest, first + 1, last)
    ensures InDateOrder(head + rest, first, last)
  {
    var es := head + rest;
    forall i, j | 0 <= i < j < |es|
      ensures DayOf(es[i]) <= DayOf(es[j])
    {
      if j < |head| {
        assert es[i] in head && es[j] in head;
      } else if i < |head| {
        assert es[i] in head;
        assert es[j] == rest[j - |head|] && es[j] in rest;
      } else {
        assert es[i] == rest[i - |head|] && es[j] == rest[j - |head|];
      }
    }
    assert forall e :: e in es ==> e in head || e in rest;
  }

  /** A walk over the dates whose every date lists only events of that
      date lists them in date order. */
  lemma {:induction false} WalkInDateOrder(days: int -> Option<seq<Event>>, first: int, last: int)
    requires EventsOver(days, first, last).Some?
    requires forall d :: first <= d < last && days(d).Some? ==> OnDay(days(d).value, d)
    ensures InDateOrder(EventsOver(days, first, last).value, first, last)
    decreases last - first
  {
    if first < last {
      WalkInDateOrder(days, first + 1, last);
      ConcatInDateOrder(days(first).value, EventsOver(days, first + 1, last).value, first, last);
    }
  }

  /** Every listed event starts on a day of the range, and events come
      day by day: one of a later day is never listed before one of an
      earlier day. */
  lemma EventsInDateOrder(schedule: Schedule, first: int, last: int, zoneName: string)
    requires EventsBetween(schedule, first, last, zoneName).Some?
    ensures InDateOrder(EventsBetween(schedule, first, last, zoneName).value, first, last)
  {
    var days := DayEventsOf(schedule, zoneName);
    EventsBetweenIsWalk(schedule, first, last, zoneName);
    forall d | first <= d < last && days(d).Some?
      ensures OnDay(days(d).value, d)
    {
      DayEventsOnDay(schedule, d, zoneName);
    }
    WalkInDateOrder(days, first, last);
  }

  /** `acc` followed by the events of `r`, None when `r` is None. */
  function Then(acc: seq<Event>, r: Option<seq<Event>>): Option<seq<Event>> {
    if r.None? then None else Some(acc + r.value)
  }

  lemma ThenNeutral(acc: seq<Event>, r: Option<seq<Event>>)
    ensures Then([], r) == r
    ensures Then(acc, Some([])) == Some(acc)
  {
    if r.Some? {
      assert [] + r.value == r.value;
    }
    assert acc + [] == acc;
  }

  /** One step of the walk over the dates: the events gathered so far and
      those of the dates left make up the whole range. */
  lemma WalkStep(days: int -> Option<seq<Event>>, startDate: int, endDate: int, acc: seq<Event>, current: int)
    requires current < endDate
    requires EventsOver(days, startDate, endDate) == Then(acc, EventsOver(days, current, endDate))
    ensures days(current).None? ==> EventsOver(days, startDate, endDate).None?
    ensures days(current).Some? ==> EventsOver(days, startDate, endDate)
                                      == Then(acc + days(current).value, EventsOver(days, current + 1, endDate))
  {
    var rest := EventsOver(days, current + 1, endDate);
    if days(current).Some? && rest.Some? {
      assert acc + (days(current).value + rest.value) == (acc + days(current).value) + rest.value;
    }
  }

  /** The loop of `async_get_events` over the dates: from `startDate`
      while before `endDate`, appending each date's events, and giving
      up with None as soon as one date's listing fails. */
  method WalkDates(days: int -> Option<seq<Event>>, startDate: int, endDate: int) returns (events: Option<seq<Event>>)
    ensures events == EventsOver(days, startDate, endDate)
  {
    var acc: seq<Event> := [];
    var current := startDate;
    ThenNeutral(acc, EventsOver(days, current, endDate));
    while current < endDate
      invariant EventsOver(days, startDate, endDate) == Then(acc, EventsOver(days, current, endDate))
      decreases endDate - current
    {
      var day := days(current);
      WalkStep(days, startDate, endDate, acc, current);
      if day.None? {
        return None;
      }
      acc := acc + day.value;
      current := current + 1;
    }
    ThenNeutral(acc, Some([]));
    return Some(acc);
  }

  /** `async_get_events`: the events of the dates from `startDate` while
      before `endDate`, each date's blocks in order; None when a block's
      time is malformed, which raises in the source. */
  method GetEvents(schedule: Schedule, startDate: int, endDate: int, zoneName: string) returns (events: Option<seq<Event>>)
    ensures events == EventsBetween(schedule, startDate, endDate, zoneName)
  {
    events := WalkDates(DayEventsOf(schedule, zoneName), startDate, endDate);
    EventsBetweenIsWalk(schedule, startDate, endDate, zoneName);
  }

  /** The test `async_update` applies: the event is running now or starts
      later. */
  predicate Current(e: Event, now: int) {
    (e.start <= now < e.end) || e.start > now
  }

  /** For an event that ends after it starts, the test reads as "has not
      ended yet". */
  lemma CurrentMeansNotEnded(e: Event, now: int)
    requires e.start < e.end
    ensures Current(e, now) <==> now < e.end
  {
  }

  /** The first event, in the order of a stable sort by start, that
      passes the test: the passing event with the least start, the
      earliest listed among equal starts. */
  function SelectEvent(events: seq<Event>, now: int): (r: Option<Event>)
    ensures r.None? <==> forall e :: e in events ==> !Current(e, now)
    ensures r.Some? ==> r.value in events && Current(r.value, now)
                        && forall e :: e in events && Current(e, now) ==> r.value.start <= e.start
  {
    if |events| == 0 then None
    else
      var rest := SelectEvent(events[1..], now);
      assert forall e :: e in events ==> e == events[0] || e in events[1..];
      if Current(events[0], now) && (rest.None? || events[0].start <= rest.value.start) then Some(events[0])
      else rest
  }

  /** Every current event listed before position `i` starts later than
      the one at `i`. */
  predicate FirstOfStart(events: seq<Event>, now: int, i: int) {
    0 <= i < |events|
    && forall k :: 0 <= k < i && Current(events[k], now) ==> events[k].start > events[i].start
  }

  lemma FirstOfStartShift(events: seq<Event>, now: int, j: int)
    requires |events| > 0 && FirstOfStart(events[1..], now, j)
    requires Current(events[0], now) ==> events[0].start > events[j + 1].start
    ensures FirstOfStart(events, now, j + 1)
  {
    forall k | 0 <= k < j + 1 && Current(events[k], now)
      ensures events[k].start > events[j + 1].start
    {
      if k > 0 {
        assert events[k] == events[1..][k - 1] && events[j + 1] == events[1..][j];
      }
    }
  }

  /** Among events with the least start, the selection is the one listed
      first: every current event listed before it starts later. */
  lemma {:induction false} SelectEarliestListed(events: seq<Event>, now: int)
    ensures var r := SelectEvent(events, now);
            r.Some? ==> exists i :: FirstOfStart(events, now, i) && events[i] == r.value
  {
    if |events| > 0 {
      var rest := SelectEvent(events[1..], now);
      if Current(events[0], now) && (rest.None? || events[0].start <= rest.value.start) {
        assert FirstOfStart(events, now, 0);
      } else if rest.Some? {
        assert SelectEvent(events, now) == rest;
        SelectEarliestListed(events[1..], now);
        var j :| FirstOfStart(events[1..], now, j) && events[1..][j] == rest.value;
        assert events[j + 1] == rest.value;
        FirstOfStartShift(events, now, j);
      }
    }
  }

  /** The calendar entity of one zone. */
  class ZoneCalendar {
    var zoneName: string
    var schedule: Schedule
    var event: Option<Event>

    constructor (name: string, zoneSchedule: Schedule)
      ensures zoneName == name && schedule == zoneSchedule && event.None?
    {
      zoneName, schedule, event := name, zoneSchedule, None;
    }

    /** `async_update` at `now`: lists today's events and keeps the first
        that is running or still to come; a malformed schedule raises
        before the event is touched. */
    method Update(now: int)
      modifies this
      ensures zoneName == old(zoneName) && schedule == old(schedule)
      ensures var today := now / 86400;
              var es := EventsBetween(schedule, today, today + 1, zoneName);
              (es.None? ==> event == old(event))
              && (es.Some? ==> event == SelectEvent(es.value, now))
              && (es.Some? && event.Some? ==> now < event.value.end && event.value.start < DayStart(today + 1))
    {
      var today := now / 86400;
      var events := GetEvents(schedule, today, today + 1, zoneName);
      if events.Some? {
        event := SelectEvent(events.value, now);
        if event.Some? {
          var e := event.value;
          assert e in events.value;
          EventsWithinRange(schedule, today, today + 1, zoneName);
          CurrentMeansNotEnded(e, now);
        }
      }
    }
  }
}
