/** The diagnostic and zone sensors: the API reset time and the call
    statistics read from the call history, the zone counts, the readings
    of the zone sensors, the weather state and the per-device sensors
    created once per serial number. Time is integer seconds; call
    timestamps are the tracker's records. */
module Sensor {
  import opened Common
  import opened CallTracker

  const SecondsPerHour := 3600
  const Window := 24 * SecondsPerHour

  // ---------------------------------------------------------------------
  // API reset sensor

  /** The timestamp of the oldest call after `cutoff`, None when there is
      none. */
  function OldestAfter(calls: seq<CallRecord>, cutoff: int): (r: Option<int>)
    ensures r.None? <==> forall c :: c in calls ==> c.timestamp <= cutoff
    ensures r.Some? ==> r.value > cutoff && exists c :: c in calls && c.timestamp == r.value
    ensures r.Some? ==> forall c :: c in calls && c.timestamp > cutoff ==> r.value <= c.timestamp
    decreases |calls|
  {
    if calls == [] then None
    else
      var rest := OldestAfter(calls[1..], cutoff);
      assert forall c :: c in calls <==> c == calls[0] || c in calls[1..];
      var t := calls[0].timestamp;
      if t <= cutoff then rest
      else if rest.None? || t <= rest.value then Some(t)
      else rest
  }

  /** Whole minutes from `now` until `reset`, as `int(seconds / 60)`
      rounds them (toward zero; the difference is never negative here). */
  function MinutesUntil(reset: int, now: int): int {
    (reset - now) / 60
  }

  /** `"{h}h {m}m"` for a number of minutes. */
  function ResetHuman(minutes: int): string {
    IntToString(minutes / 60) + "h " + IntToString(minutes % 60) + "m"
  }

  /** What the reset sensor shows: the reset time, the minutes until it
      and the text. */
  datatype ResetInfo = ResetInfo(value: Option<int>, minutes: Option<int>, human: string)

  /** The reset computed from the call history: 24 hours after the oldest
      call of the last 24 hours. */
  function ResetFromHistory(h: seq<Bucket>, now: int): (r: ResetInfo)
    ensures AllCalls(h) == [] ==> r == ResetInfo(None, None, "No history")
    ensures AllCalls(h) != [] && OldestAfter(AllCalls(h), now - Window).None? ==>
              r == ResetInfo(None, None, "No calls in last 24h")
    ensures r.value.Some? <==> r.minutes.Some?
    ensures r.value.Some? ==>
              var oldest := OldestAfter(AllCalls(h), now - Window);
              oldest.Some? && r.value.value == oldest.value + Window
              && r.minutes.value == MinutesUntil(r.value.value, now) && r.human == ResetHuman(r.minutes.value)
  {
    var all := AllCalls(h);
    if all == [] then ResetInfo(None, None, "No history")
    else
      var oldest := OldestAfter(all, now - Window);
      if oldest.None? then ResetInfo(None, None, "No calls in last 24h")
      else
        var reset := oldest.value + Window;
        var minutes := MinutesUntil(reset, now);
        ResetInfo(Some(reset), Some(minutes), ResetHuman(minutes))
  }

  /** With no call stamped in the future, the minutes until the reset lie
      in 0..1440. */
  lemma ResetMinutesBounded(h: seq<Bucket>, now: int)
    requires forall c :: c in AllCalls(h) ==> c.timestamp <= now
    ensures var r := ResetFromHistory(h, now);
            r.minutes.Some? ==> 0 <= r.minutes.value <= 24 * 60
  {
    var r := ResetFromHistory(h, now);
    if r.minutes.Some? {
      var oldest := OldestAfter(AllCalls(h), now - Window);
      var c :| c in AllCalls(h) && c.timestamp == oldest.value;
      assert now - Window < oldest.value <= now;
      assert 0 < oldest.value + Window - now <= Window;
    }
  }

  /** The digits before the first character that is not a digit. */
  lemma DigitPrefixDetermined(a: string, b: string, x: string, y: string)
    requires AllDigits(a) && AllDigits(b) && |x| > 0 && |y| > 0 && !IsDigit(x[0]) && !IsDigit(y[0])
    requires a + x == b + y
    ensures a == b && x == y
  {
    assert a == (a + x)[..|a|];
    assert b == (b + y)[..|b|];
    assert x == (a + x)[|a|..];
    assert y == (b + y)[|b|..];
  }

  /** The hours-and-minutes text of two digit runs determines both. */
  lemma HoursMinutesDigitsInjective(a1: string, b1: string, a2: string, b2: string)
    requires AllDigits(a1) && AllDigits(b1) && AllDigits(a2) && AllDigits(b2)
    requires a1 + "h " + b1 + "m" == a2 + "h " + b2 + "m"
    ensures a1 == a2 && b1 == b2
  {
    var x1, x2 := "h " + b1 + "m", "h " + b2 + "m";
    assert a1 + "h " + b1 + "m" == a1 + x1;
    assert a2 + "h " + b2 + "m" == a2 + x2;
    assert x1[0] == 'h' && x2[0] == 'h';
    DigitPrefixDetermined(a1, a2, x1, x2);
    assert b1 + "m" == x1[2..] && b2 + "m" == x2[2..];
    DigitPrefixDetermined(b1, b2, "m", "m");
  }

  /** Different non-negative minute counts read differently: the text
      determines the count. */
  lemma ResetHumanInjective(m1: nat, m2: nat)
    requires ResetHuman(m1) == ResetHuman(m2)
    ensures m1 == m2
  {
    var q1, q2, r1, r2 := m1 / 60, m2 / 60, m1 % 60, m2 % 60;
    assert ResetHuman(m1) == NatToString(q1) + "h " + NatToString(r1) + "m";
    assert ResetHuman(m2) == NatToString(q2) + "h " + NatToString(r2) + "m";
    HoursMinutesDigitsInjective(NatToString(q1), NatToString(r1), NatToString(q2), NatToString(r2));
    NatToStringRoundTrip(q1);
    NatToStringRoundTrip(q2);
    NatToStringRoundTrip(r1);
    NatToStringRoundTrip(r2);
  }

  /** The parts of the rate-limit file the sensors read, each None when
      missing; `resetAt` is None also for "unknown" or an unreadable date,
      and `resetSeconds` for "unknown". */
  datatype RateLimitFile = RateLimitFile(
    limit: Option<int>, status: Option<string>, resetHuman: Option<string>,
    resetAt: Option<int>, resetSeconds: Option<int>)

  /** The reset read from the rate-limit file, when the history cannot be
      read: a zero or missing reset in seconds gives no minutes. */
  function ResetFromRateLimit(d: RateLimitFile): (r: ResetInfo)
    ensures r.value == d.resetAt
    ensures r.minutes.Some? <==> d.resetSeconds.Some? && d.resetSeconds.value != 0
    ensures r.minutes.Some? ==> r.minutes.value * 60 <= d.resetSeconds.value < r.minutes.value * 60 + 60
    ensures d.resetHuman.None? ==> r.human == "unknown"
  {
    ResetInfo(d.resetAt,
              if d.resetSeconds.Some? && d.resetSeconds.value != 0 then Some(d.resetSeconds.value / 60) else None,
              d.resetHuman.GetOr("unknown"))
  }

  /** The API reset sensor. */
  class ApiResetSensor {
    var available: bool
    var value: Option<int>
    var resetHuman: Option<string>
    var resetMinutes: Option<int>
    var status: Option<string>

    constructor ()
      ensures !available && value.None? && resetHuman.None? && resetMinutes.None? && status.None?
    {
      available, value, resetHuman, resetMinutes, status := false, None, None, None, None;
    }

    /** `update`: `history` is the call history, None when it cannot be
        read, and `rateLimit` the rate-limit file, None when it cannot be
        read. The history decides the reset; without it the rate-limit
        file does, and without both the sensor becomes unavailable with no
        value. The status comes from the rate-limit file, "unknown" when
        it cannot be read. */
    method Update(history: Option<seq<Bucket>>, rateLimit: Option<RateLimitFile>, now: int)
      modifies this
      ensures history.None? && rateLimit.None? ==>
                !available && value.None? && resetHuman == old(resetHuman)
                && resetMinutes == old(resetMinutes) && status == old(status)
      ensures history.Some? || rateLimit.Some? ==>
                var r := if history.Some? then ResetFromHistory(history.value, now) else ResetFromRateLimit(rateLimit.value);
                available && value == r.value && resetMinutes == r.minutes && resetHuman == Some(r.human)
                && status == Some(if rateLimit.Some? then rateLimit.value.status.GetOr("unknown") else "unknown")
    {
      if history.None? && rateLimit.None? {
        available, value := false, None;
        return;
      }
      var r := if history.Some? then ResetFromHistory(history.value, now) else ResetFromRateLimit(rateLimit.value);
      value, resetMinutes, resetHuman := r.value, r.minutes, Some(r.human);
      available := true;
      status := Some(if rateLimit.Some? then rateLimit.value.status.GetOr("unknown") else "unknown");
    }
  }

  // ---------------------------------------------------------------------
  // API limit sensor

  /** The number of calls stamped after `cutoff`. */
  function CountAfter(calls: seq<CallRecord>, cutoff: int): (n: nat)
    ensures n <= |calls|
    ensures n == 0 <==> forall c :: c in calls ==> c.timestamp <= cutoff
    decreases |calls|
  {
    if calls == [] then 0
    else
      assert forall c :: c in calls <==> c == calls[0] || c in calls[1..];
      (if calls[0].timestamp > cutoff then 1 else 0) + CountAfter(calls[1..], cutoff)
  }

  /** The call statistics of the limit sensor. */
  datatype CallStats = CallStats(recentCalls: seq<CallRecord>, recentCount: nat, last24hCount: nat, totalTracked: nat)

  const RecentCallsShown := 100

  /** The statistics of a history: the newest 100 calls, newest first,
      the number of calls of the last 24 hours and the number of calls. */
  function StatsOf(h: seq<Bucket>, now: int): (s: CallStats)
    ensures s.totalTracked == |AllCalls(h)|
    ensures s.recentCount == |s.recentCalls| <= RecentCallsShown
    ensures s.recentCount == if |AllCalls(h)| < RecentCallsShown then |AllCalls(h)| else RecentCallsShown
    ensures s.recentCount <= s.totalTracked && s.last24hCount <= s.totalTracked
    ensures NewestFirst(s.recentCalls)
    ensures multiset(s.recentCalls) <= multiset(AllCalls(h))
    ensures forall c, d :: c in multiset(AllCalls(h)) - multiset(s.recentCalls) && d in s.recentCalls ==>
              c.timestamp <= d.timestamp
    ensures s.last24hCount == CountAfter(AllCalls(h), now - Window)
  {
    var all := AllCalls(h);
    var sorted := SortNewestFirst(all);
    var recent := PrefixTo(sorted, RecentCallsShown);
    PrefixKeepsOrder(sorted, |recent|);
    PrefixKeepsNewest(sorted, |recent|);
    CallStats(recent, |recent|, CountAfter(all, now - Window), |all|)
  }

  /** The newest call shown comes no earlier than any call tracked. */
  lemma RecentCallsStartWithNewest(h: seq<Bucket>, now: int, c: CallRecord)
    requires c in AllCalls(h)
    ensures var s := StatsOf(h, now);
            |s.recentCalls| > 0 && s.recentCalls[0].timestamp >= c.timestamp
  {
    var sorted := SortNewestFirst(AllCalls(h));
    assert c in multiset(sorted);
    var k :| 0 <= k < |sorted| && sorted[k] == c;
    assert StatsOf(h, now).recentCalls[0] == sorted[0];
  }

  /** The API limit sensor. */
  class ApiLimitSensor {
    var available: bool
    var value: Option<int>
    var stats: Option<CallStats>

    constructor ()
      ensures !available && value.None? && stats.None?
    {
      available, value, stats := false, None, None;
    }

    /** `update`: without the rate-limit file the sensor becomes
        unavailable and keeps its statistics; otherwise it shows the limit
        (available only with one) and the statistics of the history, all
        zero when the history cannot be read. */
    method Update(rateLimit: Option<RateLimitFile>, history: Option<seq<Bucket>>, now: int)
      modifies this
      ensures rateLimit.None? ==> !available && value == old(value) && stats == old(stats)
      ensures rateLimit.Some? ==>
                value == rateLimit.value.limit && available == value.Some?
                && stats == Some(if history.Some? then StatsOf(history.value, now) else CallStats([], 0, 0, 0))
    {
      if rateLimit.None? {
        available := false;
        return;
      }
      value := rateLimit.value.limit;
      available := value.Some?;
      stats := Some(if history.Some? then StatsOf(history.value, now) else CallStats([], 0, 0, 0));
    }
  }

  // ---------------------------------------------------------------------
  // Zone count sensor

  /** The number of zones whose type is `t`. */
  function CountType(types: seq<Option<string>>, t: string): (n: nat)
    ensures n <= |types|
    decreases |types|
  {
    if types == [] then 0 else (if types[0] == Some(t) then 1 else 0) + CountType(types[1..], t)
  }

  datatype ZoneCounts = ZoneCounts(total: nat, heating: nat, hotWater: nat, ac: nat)

  /** The zone count sensor's value and attributes, for the types of the
      zones listed (None for a zone without a type). */
  function CountZones(types: seq<Option<string>>): (c: ZoneCounts)
    ensures c.total == |types|
    ensures c.heating + c.hotWater + c.ac <= c.total
  {
    TypedZonesBounded(types);
    ZoneCounts(|types|, CountType(types, "HEATING"), CountType(types, "HOT_WATER"), CountType(types, "AIR_CONDITIONING"))
  }

  /** No zone is counted under two types. */
  lemma {:induction false} TypedZonesBounded(types: seq<Option<string>>)
    ensures CountType(types, "HEATING") + CountType(types, "HOT_WATER") + CountType(types, "AIR_CONDITIONING") <= |types|
    decreases |types|
  {
    if types != [] {
      TypedZonesBounded(types[1..]);
      assert "HEATING" != "HOT_WATER" by { assert "HEATING"[1] != "HOT_WATER"[1]; }
      assert "HEATING" != "AIR_CONDITIONING" by { assert "HEATING"[0] != "AIR_CONDITIONING"[0]; }
      assert "HOT_WATER" != "AIR_CONDITIONING" by { assert "HOT_WATER"[0] != "AIR_CONDITIONING"[0]; }
    }
  }

  // ---------------------------------------------------------------------
  // Zone sensors

  /** The part of a zone's state the zone sensors read; each None when the
      file has none. */
  datatype ZoneState = ZoneState(
    overlayType: Option<string>, power: Option<string>, target: Option<int>,
    heatingPower: Option<int>, acPower: Option<int>)

  /** The readings of a zone's heating power, AC power, target and mode
      sensors. */
  datatype ZoneReadings = ZoneReadings(heatingPower: int, acPower: int, target: Option<int>, mode: string)

  /** The mode sensor's text: Off whenever the power is OFF, whatever the
      overlay; else Manual under a manual overlay, else Schedule. */
  function ModeText(power: Option<string>, overlayType: Option<string>): (m: string)
    ensures m == "Off" <==> power == Some("OFF")
    ensures m == "Manual" <==> power != Some("OFF") && overlayType == Some("MANUAL")
    ensures m == "Schedule" <==> power != Some("OFF") && overlayType != Some("MANUAL")
  {
    if power == Some("OFF") then "Off" else if overlayType == Some("MANUAL") then "Manual" else "Schedule"
  }

  /** A zone's readings: a missing power percentage reads 0, and there is
      a target only while the power is ON. */
  function Readings(z: ZoneState): (r: ZoneReadings)
    ensures z.heatingPower.None? ==> r.heatingPower == 0
    ensures z.heatingPower.Some? ==> r.heatingPower == z.heatingPower.value
    ensures z.acPower.None? ==> r.acPower == 0
    ensures z.acPower.Some? ==> r.acPower == z.acPower.value
    ensures r.target.Some? ==> z.power == Some("ON") && r.target == z.target
    ensures z.power == Some("ON") ==> r.target == z.target
    ensures r.mode == ModeText(z.power, z.overlayType)
  {
    ZoneReadings(z.heatingPower.GetOr(0), z.acPower.GetOr(0),
                 if z.power == Some("ON") then z.target else None, ModeText(z.power, z.overlayType))
  }

  /** The mode and target sensors agree: a zone shown as Off shows no
      target. */
  lemma OffZoneHasNoTarget(z: ZoneState)
    requires Readings(z).mode == "Off"
    ensures Readings(z).target.None?
  {
  }

  // ---------------------------------------------------------------------
  // Weather

  const WeatherStateMap: map<string, string> := map[
    "CLOUDY_MOSTLY" := "Mostly Cloudy",
    "CLOUDY_PARTLY" := "Partly Cloudy",
    "CLOUDY" := "Cloudy",
    "DRIZZLE" := "Drizzle",
    "FOGGY" := "Foggy",
    "NIGHT_CLEAR" := "Clear Night",
    "NIGHT_CLOUDY" := "Cloudy Night",
    "RAIN" := "Rain",
    "SCATTERED_RAIN" := "Scattered Rain",
    "SNOW" := "Snow",
    "SUN" := "Sunny",
    "THUNDERSTORMS" := "Thunderstorms",
    "WINDY" := "Windy"]

  /** The weather sensor's value: a known state by its display name, any
      other state as it is, nothing without a state. */
  function WeatherDisplay(raw: Option<string>): (shown: Option<string>)
    ensures shown.None? <==> raw.None?
    ensures raw.Some? && raw.value !in WeatherStateMap ==> shown == raw
    ensures raw.Some? && raw.value in WeatherStateMap ==> shown == Some(WeatherStateMap[raw.value])
  {
    if raw.Some? && raw.value in WeatherStateMap then Some(WeatherStateMap[raw.value]) else raw
  }

  /** The raw state a display name stands for. */
  function WeatherStateOf(name: string): Option<string> {
    if name == "Mostly Cloudy" then Some("CLOUDY_MOSTLY")
    else if name == "Partly Cloudy" then Some("CLOUDY_PARTLY")
    else if name == "Cloudy" then Some("CLOUDY")
    else if name == "Drizzle" then Some("DRIZZLE")
    else if name == "Foggy" then Some("FOGGY")
    else if name == "Clear Night" then Some("NIGHT_CLEAR")
    else if name == "Cloudy Night" then Some("NIGHT_CLOUDY")
    else if name == "Rain" then Some("RAIN")
    else if name == "Scattered Rain" then Some("SCATTERED_RAIN")
    else if name == "Snow" then Some("SNOW")
    else if name == "Sunny" then Some("SUN")
    else if name == "Thunderstorms" then Some("THUNDERSTORMS")
    else if name == "Windy" then Some("WINDY")
    else None
  }

  /** Every known state's display name leads back to it, so different
      known states show different names. */
  lemma WeatherDisplayRoundTrip(raw: string)
    requires raw in WeatherStateMap
    ensures WeatherDisplay(Some(raw)).Some? && WeatherStateOf(WeatherDisplay(Some(raw)).value) == Some(raw)
  {
  }

  // ---------------------------------------------------------------------
  // Device sensors

  /** A device as the zones file lists it, with the zone it belongs to. */
  datatype DeviceEntry = DeviceEntry(zoneId: string, serial: Option<string>, hasBattery: bool, hasConnection: bool)

  datatype SensorKind = Battery | Connection

  datatype DeviceSensor = DeviceSensor(kind: SensorKind, zoneId: string, serial: string)

  /** The sensors of one device: battery when it reports a battery state,
      connection when it reports a connection state. */
  function SensorsOf(d: DeviceEntry, serial: string): (s: seq<DeviceSensor>)
    ensures |s| <= 2 && forall x :: x in s ==> x.serial == serial && x.zoneId == d.zoneId
    ensures |s| == 2 ==> s[0].kind == Battery && s[1].kind == Connection
  {
    (if d.hasBattery then [DeviceSensor(Battery, d.zoneId, serial)] else [])
    + (if d.hasConnection then [DeviceSensor(Connection, d.zoneId, serial)] else [])
  }

  /** The device sensors for `devices`, in file order, skipping a device
      without a serial or with a serial already in `seen`. */
  function DeviceSensors(devices: seq<DeviceEntry>, seen: set<string>): seq<DeviceSensor>
    decreases |devices|
  {
    if devices == [] then []
    else
      var d := devices[0];
      if d.serial.Some? && d.serial.value != "" && d.serial.value !in seen then
        SensorsOf(d, d.serial.value) + DeviceSensors(devices[1..], seen + {d.serial.value})
      else DeviceSensors(devices[1..], seen)
  }

  /** Each serial has at most one sensor of each kind. */
  predicate OncePerSerial(s: seq<DeviceSensor>) {
    forall i, j :: 0 <= i < j < |s| && s[i].serial == s[j].serial ==> s[i].kind != s[j].kind
  }

  /** No serial already seen gets a sensor, and each serial gets at most
      one sensor of each kind. */
  lemma {:induction false} DeviceSensorsOncePerSerial(devices: seq<DeviceEntry>, seen: set<string>)
    ensures forall x :: x in DeviceSensors(devices, seen) ==> x.serial !in seen
    ensures OncePerSerial(DeviceSensors(devices, seen))
    decreases |devices|
  {
    if devices != [] {
      var d := devices[0];
      if d.serial.Some? && d.serial.value != "" && d.serial.value !in seen {
        var serial := d.serial.value;
        DeviceSensorsOncePerSerial(devices[1..], seen + {serial});
        var head := SensorsOf(d, serial);
        var tail := DeviceSensors(devices[1..], seen + {serial});
        var s := head + tail;
        assert s == DeviceSensors(devices, seen);
        forall i, j | 0 <= i < j < |s| && s[i].serial == s[j].serial
          ensures s[i].kind != s[j].kind
        {
          if j < |head| {
            assert |head| == 2;
          } else if i >= |head| {
            assert s[i] == tail[i - |head|] && s[j] == tail[j - |head|];
          }
        }
        assert OncePerSerial(s);
      } else {
        DeviceSensorsOncePerSerial(devices[1..], seen);
        assert DeviceSensors(devices, seen) == DeviceSensors(devices[1..], seen);
      }
    }
  }

  /** The device sensors created at setup, device by device with the set
      of serials seen so far. */
  method SetupDeviceSensors(devices: seq<DeviceEntry>) returns (sensors: seq<DeviceSensor>)
    ensures sensors == DeviceSensors(devices, {})
    ensures OncePerSerial(sensors)
  {
    var seen: set<string> := {};
    sensors := [];
    for i := 0 to |devices|
      invariant sensors + DeviceSensors(devices[i..], seen) == DeviceSensors(devices, {})
    {
      assert devices[i..][1..] == devices[i + 1..];
      var d := devices[i];
      if d.serial.Some? && d.serial.value != "" && d.serial.value !in seen {
        sensors := sensors + SensorsOf(d, d.serial.value);
        seen := seen + {d.serial.value};
      }
    }
    assert devices[|devices|..] == [];
    DeviceSensorsOncePerSerial(devices, {});
  }
}
