/** The hot-water timer buttons: three preset durations per hot-water
    zone, each pressing the timer service of the zone's water heater with
    its duration written as `HH:MM:00`. */
module Button {
  import opened Common
  import opened Scheduler

  /** The preset durations, in minutes. */
  const TimerPresets: seq<nat> := [30, 60, 90]

  /** A zone as the zones file lists it; `name` is None when the file has
      no name for it. */
  datatype Zone = Zone(id: string, name: Option<string>, zoneType: string)

  datatype TimerButton = TimerButton(zoneId: string, zoneName: string, duration: nat)

  /** The zone's name, "Zone <id>" when it has none. */
  function ZoneName(z: Zone): string {
    z.name.GetOr("Zone " + z.id)
  }

  /** A zone name in lower case with blanks turned into underscores, as
      entity ids and unique ids spell it. */
  function Slug(name: string): (r: string)
    ensures |r| == |name|
    ensures ' ' !in r
  {
    var r := ReplaceSpaces(Lower(name));
    assert forall i :: 0 <= i < |r| ==> r[i] != ' ';
    r
  }

  /** The water heater a button drives. */
  function WaterHeaterEntityId(zoneName: string): (id: string)
    ensures |id| == 13 + |zoneName|
    ensures id[..13] == "water_heater." && id[13..] == Slug(zoneName)
  {
    "water_heater." + Slug(zoneName)
  }

  /** The button's unique id. */
  function UniqueId(b: TimerButton): string {
    "tado_ce_" + Slug(b.zoneName) + "_timer_" + NatToString(b.duration) + "min"
  }

  /** The `time_period` a press sends: hours and minutes of the duration,
      each two digits at least, and zero seconds. */
  function TimePeriodText(duration: nat): (text: string)
    ensures |text| >= 8
  {
    Pad2(duration / 60) + ":" + Pad2(duration % 60) + ":00"
  }

  /** The timer service reads back exactly the pressed duration, for every
      duration the service accepts. */
  lemma TimePeriodRoundTrip(duration: nat)
    requires MinTimerMinutes <= duration <= MaxTimerMinutes
    ensures TimerMinutes(Text(TimePeriodText(duration))) == Some(duration)
  {
    var h, m := duration / 60, duration % 60;
    assert Pad2(0) == "00";
    assert TimePeriodText(duration) == Pad2(h) + ":" + Pad2(m) + ":" + Pad2(0);
    ClockFieldsRead(h, m, 0);
    assert h * 60 + m == duration;
  }

  /** The presets' texts. */
  lemma PresetTexts(half: string, hour: string, hourAndHalf: string)
    requires half == "00:30:00" && hour == "01:00:00" && hourAndHalf == "01:30:00"
    ensures TimePeriodText(30) == half && TimePeriodText(60) == hour && TimePeriodText(90) == hourAndHalf
  {
    assert Pad2(0) == "00" && Pad2(1) == "01";
    assert NatToString(3) == "3" && NatToString(30) == NatToString(3) + "0";
    assert Pad2(30) == "30";
  }

  /** The buttons of one zone: the three presets for a hot-water zone,
      none for any other. */
  function ZoneButtons(z: Zone): (bs: seq<TimerButton>)
    ensures z.zoneType == "HOT_WATER" ==> |bs| == |TimerPresets|
    ensures z.zoneType != "HOT_WATER" ==> bs == []
    ensures forall i :: 0 <= i < |bs| ==> bs[i] == TimerButton(z.id, ZoneName(z), TimerPresets[i])
  {
    if z.zoneType == "HOT_WATER" then
      seq(|TimerPresets|, i requires 0 <= i < |TimerPresets| => TimerButton(z.id, ZoneName(z), TimerPresets[i]))
    else []
  }

  function HotWaterZones(zones: seq<Zone>): nat {
    if |zones| == 0 then 0
    else (if zones[0].zoneType == "HOT_WATER" then 1 else 0) + HotWaterZones(zones[1..])
  }

  /** The buttons created at setup, zone by zone in file order. */
  function SetupButtons(zones: seq<Zone>): (bs: seq<TimerButton>)
    ensures |bs| == |TimerPresets| * HotWaterZones(zones)
    ensures forall b :: b in bs ==> b.duration in TimerPresets
  {
    if |zones| == 0 then [] else ZoneButtons(zones[0]) + SetupButtons(zones[1..])
  }

  /** Two buttons of the same zone with different durations have
      different unique ids. */
  lemma {:induction false} UniqueIdInjective(b1: TimerButton, b2: TimerButton)
    requires b1.zoneName == b2.zoneName && b1.duration != b2.duration
    ensures UniqueId(b1) != UniqueId(b2)
  {
    var p := "tado_ce_" + Slug(b1.zoneName) + "_timer_";
    var a, b := NatToString(b1.duration), NatToString(b2.duration);
    assert UniqueId(b1) == p + a + "min" && UniqueId(b2) == p + b + "min";
    if UniqueId(b1) == UniqueId(b2) {
      assert |a| == |b|;
      assert a == UniqueId(b1)[|p|..|p| + |a|];
      assert b == UniqueId(b2)[|p|..|p| + |b|];
      NatToStringRoundTrip(b1.duration);
      NatToStringRoundTrip(b2.duration);
      assert false;
    }
  }

  /** Each hot-water zone gets exactly three buttons with pairwise
      distinct unique ids. */
  lemma ZoneButtonIdsDistinct(z: Zone)
    requires z.zoneType == "HOT_WATER"
    ensures |ZoneButtons(z)| == 3
    ensures forall i, j :: 0 <= i < j < 3 ==> UniqueId(ZoneButtons(z)[i]) != UniqueId(ZoneButtons(z)[j])
  {
    var bs := ZoneButtons(z);
    forall i, j | 0 <= i < j < 3
      ensures UniqueId(bs[i]) != UniqueId(bs[j])
    {
      UniqueIdInjective(bs[i], bs[j]);
    }
  }
}
