/** The polling schedule of the integration's setup: day or night by the
    configured hours, a custom interval or one from a table keyed by the
    account's daily API limit, the full-or-quick choice of each sync, the
    `HH:MM:SS` duration accepted by the timer services, and the choice of
    the one config entry that survives when several exist. The clock's
    hour, the rate-limit file and the sync's outcome are inputs. */
module Scheduler {
  import opened Common

  const DefaultDayInterval := 30
  const DefaultNightInterval := 120
  const FullSyncIntervalSeconds := 6 * 3600
  const TestModeLimit := 100

  /** Rows (limit threshold, day minutes, night minutes), checked in order. */
  const PollingIntervals: seq<(int, int, int)> :=
    [(100, 30, 120), (1000, 15, 60), (5000, 10, 30), (20000, 5, 15)]

  /** `is_daytime`: the day begins at the day start hour and ends as the
      night start hour begins. */
  predicate IsDaytime(dayStart: int, nightStart: int, hour: int)
    ensures IsDaytime(dayStart, nightStart, hour) ==> dayStart < nightStart && hour != nightStart
    ensures hour == dayStart && dayStart < nightStart ==> IsDaytime(dayStart, nightStart, hour)
  {
    dayStart <= hour < nightStart
  }

  /** When the day would start at or after the night, no hour is daytime. */
  lemma NoDayWhenInverted(dayStart: int, nightStart: int, hour: int)
    requires dayStart >= nightStart
    ensures !IsDaytime(dayStart, nightStart, hour)
  {
  }

  /** The settings `get_polling_interval` reads. `fileLimit` is the limit
      stored in the rate-limit file, None when the file or the field is
      missing. */
  datatype PollingConfig = PollingConfig(
    dayStart: int, nightStart: int,
    customDay: Option<int>, customNight: Option<int>,
    testMode: bool, weatherEnabled: bool)

  /** The table row chosen for a limit, searching from row `i`: the first
      whose threshold is at least the limit, else the last row. */
  function TableRow(limit: int, i: nat): (row: (int, int, int))
    requires i < |PollingIntervals|
    ensures row in PollingIntervals
    decreases |PollingIntervals| - i
  {
    if limit <= PollingIntervals[i].0 || i == |PollingIntervals| - 1 then PollingIntervals[i]
    else TableRow(limit, i + 1)
  }

  /** The interval for the current period, from the table. */
  function TableInterval(limit: int, daytime: bool): (minutes: int)
    ensures exists k :: 0 <= k < |PollingIntervals|
                        && minutes == (if daytime then PollingIntervals[k].1 else PollingIntervals[k].2)
                        && (limit <= PollingIntervals[k].0 || k == |PollingIntervals| - 1)
                        && forall j :: 0 <= j < k ==> limit > PollingIntervals[j].0
  {
    var row := TableRow(limit, 0);
    if daytime then row.1 else row.2
  }

  /** `get_polling_interval`: the custom interval for the current period
      if set; otherwise, with a known nonzero limit (100 in test mode), the
      table; otherwise 30 by day and 120 by night. */
  function PollingInterval(cfg: PollingConfig, hour: int, fileLimit: Option<int>): (minutes: int)
    ensures var daytime := IsDaytime(cfg.dayStart, cfg.nightStart, hour);
            var custom := if daytime then cfg.customDay else cfg.customNight;
            (custom.Some? ==> minutes == custom.value)
            && (custom.None? && !cfg.testMode && (fileLimit.None? || fileLimit == Some(0)) ==>
                  minutes == (if daytime then DefaultDayInterval else DefaultNightInterval))
            && (custom.None? && cfg.testMode ==> minutes == TableInterval(TestModeLimit, daytime))
            && (custom.None? && !cfg.testMode && fileLimit.Some? && fileLimit.value != 0 ==>
                  minutes == TableInterval(fileLimit.value, daytime))
  {
    var daytime := IsDaytime(cfg.dayStart, cfg.nightStart, hour);
    var custom := if daytime then cfg.customDay else cfg.customNight;
    if custom.Some? then custom.value
    else
      var effective := if cfg.testMode then Some(TestModeLimit) else fileLimit;
      if effective.Some? && effective.value != 0 then TableInterval(effective.value, daytime)
      else if daytime then DefaultDayInterval else DefaultNightInterval
  }

  /** The table search as the source writes it: a loop over the rows that
      returns at the first threshold not below the limit. */
  method LookupTable(limit: int, daytime: bool) returns (minutes: int)
    ensures minutes == TableInterval(limit, daytime)
  {
    var i := 0;
    while i < |PollingIntervals|
      invariant 0 <= i <= |PollingIntervals|
      invariant i < |PollingIntervals| ==> TableRow(limit, 0) == TableRow(limit, i)
      invariant i == |PollingIntervals| ==> TableRow(limit, 0) == PollingIntervals[|PollingIntervals| - 1]
      decreases |PollingIntervals| - i
    {
      var (threshold, day, night) := PollingIntervals[i];
      if limit <= threshold {
        return if daytime then day else night;
      }
      i := i + 1;
    }
    var (_, day, night) := PollingIntervals[|PollingIntervals| - 1];
    minutes := if daytime then day else night;
  }

  /** In test mode the limit is taken as 100, whatever the file says. */
  lemma TestModePinsLimit(cfg: PollingConfig, hour: int, fileLimit: Option<int>)
    requires cfg.testMode
    requires (if IsDaytime(cfg.dayStart, cfg.nightStart, hour) then cfg.customDay else cfg.customNight).None?
    ensures PollingInterval(cfg, hour, fileLimit) == PollingInterval(cfg, hour, Some(TestModeLimit))
    ensures PollingInterval(cfg, hour, fileLimit)
            == if IsDaytime(cfg.dayStart, cfg.nightStart, hour) then 30 else 120
  {
  }

  /** The other period's custom interval never matters. */
  lemma OtherPeriodIgnored(cfg: PollingConfig, hour: int, fileLimit: Option<int>, other: Option<int>)
    ensures IsDaytime(cfg.dayStart, cfg.nightStart, hour) ==>
              PollingInterval(cfg.(customNight := other), hour, fileLimit) == PollingInterval(cfg, hour, fileLimit)
    ensures !IsDaytime(cfg.dayStart, cfg.nightStart, hour) ==>
              PollingInterval(cfg.(customDay := other), hour, fileLimit) == PollingInterval(cfg, hour, fileLimit)
  {
  }

  /** Limits above the last threshold use the last row. */
  lemma HighLimitsUseLastRow(limit: int, daytime: bool)
    requires limit > 20000
    ensures TableInterval(limit, daytime) == if daytime then 5 else 15
  {
  }

  /** A higher limit never polls less often, and in every row the day
      interval is at most the night interval. */
  lemma TableMonotone(low: int, high: int, daytime: bool)
    requires low <= high
    ensures TableInterval(high, daytime) <= TableInterval(low, daytime)
    ensures TableInterval(low, true) <= TableInterval(low, false)
  {
  }

  // ---------------------------------------------------------------------
  // Quota warning for custom intervals

  const LowTierQuota := 500

  /** A configured custom interval, with Python's `or` default (an unset
      or zero interval counts as the default). */
  function IntervalOr(custom: Option<nat>, default: nat): nat {
    if custom.Some? && custom.value != 0 then custom.value else default
  }

  /** `_log_quota_warning_if_needed`: warn when 16 day hours and 8 night
      hours of syncs, at one call per sync (two with weather), exceed 500
      calls a day. `960 / day + 480 / night` is compared multiplied out. */
  predicate QuotaWarning(customDay: Option<nat>, customNight: Option<nat>, weatherEnabled: bool)
    ensures QuotaWarning(customDay, customNight, weatherEnabled) <==>
              var day := IntervalOr(customDay, DefaultDayInterval) as real;
              var night := IntervalOr(customNight, DefaultNightInterval) as real;
              (960.0 / day + 480.0 / night) * (if weatherEnabled then 2.0 else 1.0) > LowTierQuota as real
  {
    var day := IntervalOr(customDay, DefaultDayInterval);
    var night := IntervalOr(customNight, DefaultNightInterval);
    var callsPerSync := if weatherEnabled then 2 else 1;
    OverQuotaIsRate(day, night, callsPerSync);
    OverQuota(day, night, callsPerSync)
  }

  /** The multiplied-out estimate for positive intervals. */
  predicate OverQuota(day: int, night: int, k: int) {
    (960 * night + 480 * day) * k > LowTierQuota * day * night
  }

  /** For positive intervals, the multiplied-out comparison is the
      calls-per-day estimate computed with division. */
  lemma OverQuotaIsRate(day: int, night: int, k: int)
    requires day > 0 && night > 0 && k > 0
    ensures OverQuota(day, night, k) <==> (960.0 / day as real + 480.0 / night as real) * k as real > LowTierQuota as real
  {
    var d, n, c := day as real, night as real, k as real;
    var rate := (960.0 / d + 480.0 / n) * c;
    assert (960.0 / d) * d == 960.0 && (480.0 / n) * n == 480.0;
    assert rate * (d * n) == (960.0 * n + 480.0 * d) * c;
    assert d * n > 0.0;
    assert ((960 * night + 480 * day) * k) as real == (960.0 * n + 480.0 * d) * c;
    assert (LowTierQuota * day * night) as real == 500.0 * (d * n);
    assert rate > 500.0 <==> rate * (d * n) > 500.0 * (d * n);
  }

  /** Shortening the day interval keeps an estimate over the quota:
      `960 * night * k > day * (500 * night - 480 * k)` and the right side
      only shrinks (or is negative throughout). */
  lemma ShorterDay(day: int, day2: int, night: int, k: int)
    requires 0 < day <= day2 && 0 < night && 0 < k
    requires OverQuota(day2, night, k)
    ensures OverQuota(day, night, k)
  {
    var c := LowTierQuota * night - 480 * k;
    assert 960 * night * k > day2 * c;
    if c >= 0 {
      MulMonotone(day, day2, c);
    } else {
      MulMonotone(c, 0, day);
    }
  }

  /** The same for the night interval. */
  lemma ShorterNight(day: int, night: int, night2: int, k: int)
    requires 0 < day && 0 < night <= night2 && 0 < k
    requires OverQuota(day, night2, k)
    ensures OverQuota(day, night, k)
  {
    var c := LowTierQuota * day - 960 * k;
    assert 480 * day * k > night2 * c;
    if c >= 0 {
      MulMonotone(night, night2, c);
    } else {
      MulMonotone(c, 0, night);
    }
  }

  /** Longer intervals never raise a warning that shorter ones did not. */
  lemma WarningMonotone(day: nat, night: nat, day2: nat, night2: nat, weather: bool)
    requires 0 < day <= day2 && 0 < night <= night2
    requires QuotaWarning(Some(day2), Some(night2), weather)
    ensures QuotaWarning(Some(day), Some(night), weather)
  {
    var k := if weather then 2 else 1;
    ShorterDay(day, day2, night2, k);
    ShorterNight(day, night, night2, k);
  }

  lemma MulMonotone(a: int, b: int, c: nat)
    requires a <= b
    ensures a * c <= b * c
  {
  }

  /** The default intervals stay far below the warning line, with weather
      on or off. */
  lemma DefaultsDoNotWarn(weather: bool)
    ensures !QuotaWarning(None, None, weather)
  {
  }

  /** A one-minute day interval always warns. */
  lemma EveryMinuteWarns(night: Option<nat>, weather: bool)
    ensures QuotaWarning(Some(1), night, weather)
  {
    var n := IntervalOr(night, DefaultNightInterval);
    assert 960 * n + 480 > LowTierQuota * n;
  }

  // ---------------------------------------------------------------------
  // The sync loop

  /** A sync is full when none has succeeded yet or the last full one was
      at least six hours ago. */
  predicate FullSyncDue(lastFullSync: Option<int>, now: int) {
    lastFullSync.None? || now - lastFullSync.value >= FullSyncIntervalSeconds
  }

  /** The state `sync_tado` and `schedule_next_sync` share: the interval
      last chosen, when the last full sync succeeded, the interval of the
      installed sync timer (None before the first one) and how many timers
      have been installed so far. */
  class SyncLoop {
    var currentInterval: int
    var lastFullSync: Option<int>
    var timer: Option<int>
    var timerInstalls: nat

    constructor ()
      ensures currentInterval == 0 && lastFullSync.None? && timer.None? && timerInstalls == 0
    {
      currentInterval := 0;
      lastFullSync := None;
      timer := None;
      timerInstalls := 0;
    }

    /** `schedule_next_sync`: cancels the installed timer and installs one
        new timer at the interval for the current hour and limit, on every
        call. */
    method ScheduleNextSync(cfg: PollingConfig, hour: int, fileLimit: Option<int>)
      modifies this
      ensures currentInterval == PollingInterval(cfg, hour, fileLimit)
      ensures timer == Some(currentInterval) && timerInstalls == old(timerInstalls) + 1
      ensures lastFullSync == old(lastFullSync)
    {
      var newInterval := PollingInterval(cfg, hour, fileLimit);
      if newInterval != currentInterval {
        currentInterval := newInterval;
      }
      timer := Some(newInterval);
      timerInstalls := timerInstalls + 1;
    }

    /** `sync_tado`: in test mode with 100 calls used it only reschedules;
        otherwise it runs a full or quick sync, records the moment `doneAt`
        of a successful full one, and reschedules. */
    method SyncTado(cfg: PollingConfig, hour: int, fileLimit: Option<int>, usedInFile: Option<int>,
                    now: int, syncOk: bool, doneAt: int)
      returns (ran: bool, full: bool)
      modifies this
      ensures ran <==> !(cfg.testMode && usedInFile.GetOr(0) >= TestModeLimit)
      ensures ran ==> (full <==> FullSyncDue(old(lastFullSync), now))
      ensures lastFullSync == (if ran && full && syncOk then Some(doneAt) else old(lastFullSync))
      ensures currentInterval == PollingInterval(cfg, hour, fileLimit)
      ensures timer == Some(currentInterval) && timerInstalls == old(timerInstalls) + 1
    {
      full := false;
      if cfg.testMode && usedInFile.GetOr(0) >= TestModeLimit {
        ran := false;
        ScheduleNextSync(cfg, hour, fileLimit);
        return;
      }
      ran := true;
      if lastFullSync.None? {
        full := true;
      } else if now - lastFullSync.value >= FullSyncIntervalSeconds {
        full := true;
      }
      if syncOk && full {
        lastFullSync := Some(doneAt);
      }
      ScheduleNextSync(cfg, hour, fileLimit);
    }
  }

  /** Two syncs less than six hours after a successful full one are both
      quick. */
  method QuickWithinSixHours(loop: SyncLoop, cfg: PollingConfig, t0: int, t1: int, t2: int)
    returns (full0: bool, full1: bool, full2: bool)
    requires !cfg.testMode
    requires loop.lastFullSync.None? && t0 <= t1 <= t2 < t0 + FullSyncIntervalSeconds
    modifies loop
    ensures full0 && !full1 && !full2
  {
    var _, f0 := loop.SyncTado(cfg, 12, None, None, t0, true, t0);
    var _, f1 := loop.SyncTado(cfg, 12, None, None, t1, true, t1);
    var _, f2 := loop.SyncTado(cfg, 12, None, None, t2, false, t2);
    full0, full1, full2 := f0, f1, f2;
  }

  // ---------------------------------------------------------------------
  // Timer durations

  /** The `time_period` a timer service receives: a duration, or text. */
  datatype TimePeriod = Duration(totalSeconds: int) | Text(text: string)

  const MinTimerMinutes := 5
  const MaxTimerMinutes := 1440

  /** `int(seconds / 60)`: whole minutes, truncated toward zero. */
  function WholeMinutes(seconds: int): int {
    if seconds >= 0 then seconds / 60 else -((-seconds) / 60)
  }

  /** The fields of an `HH:MM:SS` text, each read by `int()` (blanks
      around it and a sign allowed) and within its range, as minutes;
      seconds never add a minute. */
  function ClockMinutes(text: string): (r: Option<int>)
    ensures r.Some? ==> 0 <= r.value <= 24 * 60 + 59
  {
    ClockFieldMinutes(Split(text, ":"))
  }

  /** The minutes of the colon-separated fields: exactly three, in range. */
  function ClockFieldMinutes(parts: seq<string>): (r: Option<int>)
    ensures r.Some? ==> 0 <= r.value <= 24 * 60 + 59
  {
    if |parts| != 3 then None
    else
      var h := ParseInt(Strip(parts[0]));
      var m := ParseInt(Strip(parts[1]));
      var s := ParseInt(Strip(parts[2]));
      if h.None? || m.None? || s.None? then None
      else if !(0 <= h.value <= 24) || !(0 <= m.value <= 59) || !(0 <= s.value <= 59) then None
      else Some(h.value * 60 + m.value + s.value / 60)
  }

  /** The duration check of the climate and hot-water timer services: the
      minutes of a non-empty period, accepted only within 5..1440. */
  function TimerMinutes(period: TimePeriod): (r: Option<int>)
    ensures r.Some? ==> MinTimerMinutes <= r.value <= MaxTimerMinutes
    ensures period.Duration? && period.totalSeconds != 0 ==>
              (r.Some? <==> MinTimerMinutes * 60 <= period.totalSeconds < (MaxTimerMinutes + 1) * 60)
  {
    var minutes :=
      match period
      case Duration(secs) => if secs == 0 then None else Some(WholeMinutes(secs))
      case Text(t) => if t == "" then None else ClockMinutes(t);
    if minutes.Some? && MinTimerMinutes <= minutes.value <= MaxTimerMinutes then minutes else None
  }

  /** Three fields that `int()` reads as hours, minutes and seconds in
      range, split at the colons, read as `HH * 60 + MM`. */
  lemma ClockMinutesReadsFields(a: string, b: string, c: string, h: int, m: int, s: int)
    requires Split(a + ":" + b + ":" + c, ":") == [a, b, c]
    requires ParseInt(Strip(a)) == Some(h) && ParseInt(Strip(b)) == Some(m) && ParseInt(Strip(c)) == Some(s)
    requires 0 <= h <= 24 && 0 <= m <= 59 && 0 <= s <= 59
    ensures ClockMinutes(a + ":" + b + ":" + c) == Some(h * 60 + m)
  {
    assert ClockFieldMinutes([a, b, c]) == Some(h * 60 + m) by {
      assert s / 60 == 0;
    }
  }

  /** `HH:MM:SS` with two-digit fields reads as `HH * 60 + MM`. */
  lemma {:induction false} ClockFieldsRead(h: nat, m: nat, s: nat)
    requires h <= 24 && m <= 59 && s <= 59
    ensures ClockMinutes(Pad2(h) + ":" + Pad2(m) + ":" + Pad2(s)) == Some(h * 60 + m)
  {
    var a, b, c := Pad2(h), Pad2(m), Pad2(s);
    assert Split(a + ":" + b + ":" + c, ":") == [a, b, c] by {
      assert ':' !in a && ':' !in b && ':' !in c by {
        assert !IsDigit(':');
      }
      SplitAfter(a, ":", b + ":" + c);
      assert a + ":" + b + ":" + c == a + ":" + (b + ":" + c);
      SplitAfter(b, ":", c);
      SplitNoSeparator(c, ":");
    }
    assert ParseInt(Strip(a)) == Some(h) by { Pad2Parses(h); }
    assert ParseInt(Strip(b)) == Some(m) by { Pad2Parses(m); }
    assert ParseInt(Strip(c)) == Some(s) by { Pad2Parses(s); }
    ClockMinutesReadsFields(a, b, c, h, m, s);
  }

  /** A two-digit `HH:MM:SS` text within the timer range is accepted as
      its whole minutes. */
  lemma TimerReadsClock(text: string, h: nat, m: nat, s: nat)
    requires h <= 24 && m <= 59 && s <= 59 && MinTimerMinutes <= h * 60 + m <= MaxTimerMinutes
    requires text == Pad2(h) + ":" + Pad2(m) + ":" + Pad2(s)
    ensures TimerMinutes(Text(text)) == Some(h * 60 + m)
  {
    ClockFieldsRead(h, m, s);
  }

  /** The documented examples: "01:30:00" is 90 minutes and "00:15:30" is
      15 (the 30 seconds are dropped). */
  lemma TimerExamples(ninety: string, fifteen: string)
    requires ninety == "01:30:00" && fifteen == "00:15:30"
    ensures TimerMinutes(Text(ninety)) == Some(90)
    ensures TimerMinutes(Text(fifteen)) == Some(15)
  {
    NinetyPadded(ninety);
    TimerReadsClock(ninety, 1, 30, 0);
    FifteenPadded(fifteen);
    TimerReadsClock(fifteen, 0, 15, 30);
  }

  lemma NinetyPadded(ninety: string)
    requires ninety == "01:30:00"
    ensures ninety == Pad2(1) + ":" + Pad2(30) + ":" + Pad2(0)
  {
  }

  lemma FifteenPadded(fifteen: string)
    requires fifteen == "00:15:30"
    ensures fifteen == Pad2(0) + ":" + Pad2(15) + ":" + Pad2(30)
  {
  }

  // ---------------------------------------------------------------------
  // Duplicate config entries

  datatype Entry = Entry(version: int, entryId: string)

  /** Python's ordering of strings: lexicographic by character. */
  predicate LexLess(a: string, b: string)
    decreases |a|
  {
    if |a| == 0 then |b| > 0
    else if |b| == 0 then false
    else if a[0] != b[0] then a[0] < b[0]
    else LexLess(a[1..], b[1..])
  }

  lemma {:induction false} LexLessIrreflexive(a: string)
    ensures !LexLess(a, a)
    decreases |a|
  {
    if |a| > 0 {
      LexLessIrreflexive(a[1..]);
    }
  }

  lemma {:induction false} LexLessTotal(a: string, b: string)
    ensures a == b || LexLess(a, b) || LexLess(b, a)
    decreases |a|
  {
    if |a| > 0 && |b| > 0 && a[0] == b[0] {
      LexLessTotal(a[1..], b[1..]);
      if a[1..] == b[1..] {
        assert a == [a[0]] + a[1..] && b == [b[0]] + b[1..];
      }
    }
  }

  lemma {:induction false} LexLessTransitive(a: string, b: string, c: string)
    requires LexLess(a, b) && LexLess(b, c)
    ensures LexLess(a, c)
    decreases |a|
  {
    if |a| > 0 && a[0] == b[0] && b[0] == c[0] {
      LexLessTransitive(a[1..], b[1..], c[1..]);
    }
  }

  lemma LexLessAsymmetric(a: string, b: string)
    requires LexLess(a, b)
    ensures !LexLess(b, a)
  {
    if LexLess(b, a) {
      LexLessTransitive(a, b, a);
      LexLessIrreflexive(a);
    }
  }

  /** The sort key (version, entry id), compared as a tuple. */
  predicate KeyLess(x: Entry, y: Entry) {
    x.version < y.version || (x.version == y.version && LexLess(x.entryId, y.entryId))
  }

  /** The first entry of the list sorted by descending key. */
  function Keeper(entries: seq<Entry>): (k: Entry)
    requires |entries| > 0
    ensures k in entries
    decreases |entries|
  {
    if |entries| == 1 then entries[0]
    else
      var best := Keeper(entries[1..]);
      if KeyLess(entries[0], best) then best else entries[0]
  }

  /** No entry has a greater key than the keeper. */
  lemma {:induction false} KeeperIsMaximal(entries: seq<Entry>)
    requires |entries| > 0
    ensures forall e :: e in entries ==> !KeyLess(Keeper(entries), e)
    decreases |entries|
  {
    var k := Keeper(entries);
    if |entries| == 1 {
      LexLessIrreflexive(k.entryId);
      return;
    }
    var rest := entries[1..];
    KeeperIsMaximal(rest);
    var best := Keeper(rest);
    forall e | e in entries
      ensures !KeyLess(k, e)
    {
      if KeyLess(entries[0], best) {
        assert k == best;
        if e == entries[0] {
          KeyAsymmetric(e, best);
        } else {
          assert e in rest;
        }
      } else if e == entries[0] {
        LexLessIrreflexive(e.entryId);
      } else {
        assert e in rest;
        if KeyLess(k, e) {
          KeyTotal(entries[0], best);
          if entries[0] != best {
            KeyTransitive(best, entries[0], e);
          }
        }
      }
    }
  }

  lemma KeyAsymmetric(x: Entry, y: Entry)
    requires KeyLess(x, y)
    ensures !KeyLess(y, x)
  {
    if x.version == y.version {
      LexLessAsymmetric(x.entryId, y.entryId);
    }
  }

  lemma KeyTotal(x: Entry, y: Entry)
    ensures x == y || KeyLess(x, y) || KeyLess(y, x)
  {
    LexLessTotal(x.entryId, y.entryId);
  }

  lemma KeyTransitive(x: Entry, y: Entry, z: Entry)
    requires KeyLess(x, y) && KeyLess(y, z)
    ensures KeyLess(x, z)
  {
    if x.version == y.version && y.version == z.version {
      LexLessTransitive(x.entryId, y.entryId, z.entryId);
    }
  }

  /** Whether setting up `current` goes on: always for a single entry,
      otherwise only for the keeper. */
  predicate SetupProceeds(entries: seq<Entry>, current: Entry)
    ensures |entries| > 1 && SetupProceeds(entries, current) ==>
              exists k :: k in entries && k.entryId == current.entryId && forall x :: x in entries ==> !KeyLess(k, x)
  {
    |entries| <= 1 || (KeeperIsMaximal(entries); current.entryId == Keeper(entries).entryId)
  }

  /** With distinct entry ids exactly the maximal entry proceeds, and every
      other one stops. */
  lemma OnlyKeeperProceeds(entries: seq<Entry>, e: Entry)
    requires |entries| > 1 && e in entries
    requires forall i, j :: 0 <= i < j < |entries| ==> entries[i].entryId != entries[j].entryId
    ensures SetupProceeds(entries, e) <==> forall x :: x in entries ==> !KeyLess(e, x)
  {
    var k := Keeper(entries);
    KeeperIsMaximal(entries);
    if e.entryId == k.entryId {
      var i :| 0 <= i < |entries| && entries[i] == e;
      var j :| 0 <= j < |entries| && entries[j] == k;
      assert i == j;
    } else {
      assert e != k;
      KeyTotal(e, k);
    }
  }
}
