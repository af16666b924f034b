/** The climate entities: heating zones and air-conditioning zones. Each
    derives its mode, action and settings from the zone's state, and an
    AC zone builds its overlay payload from the requested change, its
    current state and the capabilities of the mode it sends.
    Temperatures are uninterpreted numbers here: nothing below computes with
    them, only compares them with zero (Python's truth test). */
module Climate {
  import opened Common

  type Celsius = int

  /** The climate modes of the home-automation side. */
  datatype HvacMode = Off | Heat | Cool | Dry | FanOnly | HeatCool | Auto

  datatype HvacAction = Heating | Cooling | Drying | Fan | Idle | ActionOff

  // ---------------------------------------------------------------------
  // Mode and fan tables

  /** `TADO_TO_HA_HVAC_MODE`. */
  function TadoToHaHvac(tadoMode: string): Option<HvacMode> {
    if tadoMode == "COOL" then Some(Cool)
    else if tadoMode == "HEAT" then Some(Heat)
    else if tadoMode == "DRY" then Some(Dry)
    else if tadoMode == "FAN" then Some(FanOnly)
    else if tadoMode == "AUTO" then Some(HeatCool)
    else None
  }

  /** `HA_TO_TADO_HVAC_MODE`, the table built by swapping keys and values. */
  function HaToTadoHvac(mode: HvacMode): Option<string> {
    match mode
    case Cool => Some("COOL")
    case Heat => Some("HEAT")
    case Dry => Some("DRY")
    case FanOnly => Some("FAN")
    case HeatCool => Some("AUTO")
    case _ => None
  }

  /** The two mode tables are inverse to each other, in both directions. */
  lemma HvacTablesInverse(tadoMode: string, mode: HvacMode)
    ensures TadoToHaHvac(tadoMode) == Some(mode) <==> HaToTadoHvac(mode) == Some(tadoMode)
  {
  }

  /** No Tado mode reads as OFF or as "follow the schedule". */
  lemma TadoModesNeverOffOrAuto(tadoMode: string)
    ensures TadoToHaHvac(tadoMode) != Some(Off) && TadoToHaHvac(tadoMode) != Some(Auto)
  {
  }

  const FanAuto := "auto"
  const FanLow := "low"
  const FanMedium := "medium"
  const FanHigh := "high"

  /** `TADO_TO_HA_FAN`: the device's fan levels folded onto four speeds. */
  function TadoToHaFan(level: string): (f: Option<string>)
    ensures f.Some? ==> f.value in {FanAuto, FanLow, FanMedium, FanHigh}
  {
    if level == "AUTO" then Some(FanAuto)
    else if level in {"SILENT", "LEVEL1", "LEVEL2", "LOW"} then Some(FanLow)
    else if level in {"LEVEL3", "MIDDLE"} then Some(FanMedium)
    else if level in {"LEVEL4", "LEVEL5", "HIGH"} then Some(FanHigh)
    else None
  }

  /** `HA_TO_TADO_FAN`. */
  function HaToTadoFan(fan: string): Option<string> {
    if fan == FanAuto then Some("AUTO")
    else if fan == FanLow then Some("LEVEL1")
    else if fan == FanMedium then Some("LEVEL3")
    else if fan == FanHigh then Some("LEVEL5")
    else None
  }

  /** Each of the four speeds is sent as a level that reads back as the
      same speed. */
  lemma FanRoundTrip(fan: string)
    requires fan in {FanAuto, FanLow, FanMedium, FanHigh}
    ensures HaToTadoFan(fan).Some? && TadoToHaFan(HaToTadoFan(fan).value) == Some(fan)
  {
  }

  // ---------------------------------------------------------------------
  // Heating zones

  /** The part of a heating zone's state that `update` reads; `power`,
      `overlayType` and the temperature are None when the file has none,
      `heatingPower` is the heating percentage (0 when the file has no
      percentage, None when it holds null). */
  datatype HeatingZone = HeatingZone(
    power: Option<string>, target: Option<Celsius>, overlayType: Option<string>, heatingPower: Option<int>)

  /** A heating zone's entity. */
  class HeatingClimate {
    var available: bool
    var hvacMode: Option<HvacMode>
    var hvacAction: Option<HvacAction>
    var target: Option<Celsius>
    var overlayType: Option<string>
    var heatingPower: Option<int>

    constructor ()
      ensures !available && hvacMode.None? && hvacAction.None? && target.None?
      ensures overlayType.None? && heatingPower.None?
    {
      available, hvacMode, hvacAction, target, overlayType, heatingPower := false, None, None, None, None, None;
    }

    /** `update` with the zone's state, None when the zone is missing from
        the file (or the file cannot be read): the entity becomes
        unavailable and keeps everything else. Otherwise a MANUAL overlay
        shows HEAT when the power is ON and OFF when it is not, any other
        overlay (or none) shows AUTO; the action is HEATING exactly when
        the power is ON and heating power is above zero, and with the power
        not ON there is no target and the action is OFF. */
    method Update(zone: Option<HeatingZone>)
      modifies this
      ensures zone.None? ==> !available && hvacMode == old(hvacMode) && hvacAction == old(hvacAction)
                             && target == old(target) && overlayType == old(overlayType) && heatingPower == old(heatingPower)
      ensures zone.Some? ==>
                var z := zone.value;
                available && overlayType == z.overlayType && heatingPower == z.heatingPower
                && (hvacMode == Some(Heat) <==> z.overlayType == Some("MANUAL") && z.power == Some("ON"))
                && (hvacMode == Some(Off) <==> z.overlayType == Some("MANUAL") && z.power != Some("ON"))
                && (hvacMode == Some(Auto) <==> z.overlayType != Some("MANUAL"))
                && (hvacAction == Some(Heating) <==> z.power == Some("ON") && z.heatingPower.Some? && z.heatingPower.value > 0)
                && (z.power != Some("ON") ==> target.None? && hvacAction == Some(ActionOff))
                && (z.power == Some("ON") ==> target == z.target && hvacAction.Some? && hvacAction.value in {Heating, Idle})
      ensures zone.Some? ==> (hvacAction == Some(Heating) ==> hvacMode != Some(Off))
      ensures zone.Some? ==> (target.Some? ==> hvacMode != Some(Off))
    {
      if zone.None? {
        available := false;
        return;
      }
      var z := zone.value;
      heatingPower := z.heatingPower;
      if heatingPower.Some? && heatingPower.value > 0 {
        hvacAction := Some(Heating);
      } else {
        hvacAction := Some(Idle);
      }
      overlayType := z.overlayType;
      if z.power == Some("ON") {
        target := z.target;
        hvacMode := if overlayType == Some("MANUAL") then Some(Heat) else Some(Auto);
      } else {
        hvacMode := if overlayType == Some("MANUAL") then Some(Off) else Some(Auto);
        target := None;
        hvacAction := Some(ActionOff);
      }
      available := true;
    }
  }

  /** How an overlay ends. */
  datatype Termination = Timer(durationInSeconds: int) | TadoMode | Manual

  /** The termination of a heating timer: a timer for a nonzero duration,
      the next schedule block when asked for, else manual. */
  function HeatingTermination(durationMinutes: Option<int>, overlay: Option<string>): (t: Termination)
    ensures t.Timer? <==> durationMinutes.Some? && durationMinutes.value != 0
    ensures t.Timer? ==> t.durationInSeconds == durationMinutes.value * 60
    ensures t.TadoMode? <==> !t.Timer? && overlay == Some("next_time_block")
  {
    if durationMinutes.Some? && durationMinutes.value != 0 then Timer(durationMinutes.value * 60)
    else if overlay == Some("next_time_block") then TadoMode
    else Manual
  }

  /** A timer's length in seconds gives back the minutes asked for. */
  lemma TimerMinutesRecovered(minutes: int, overlay: Option<string>)
    requires minutes != 0
    ensures HeatingTermination(Some(minutes), overlay).durationInSeconds / 60 == minutes
    ensures HeatingTermination(Some(minutes), overlay).durationInSeconds % 60 == 0
  {
  }

  // ---------------------------------------------------------------------
  // Air-conditioning capabilities

  /** The Celsius temperature capabilities of a mode; all None for an
      empty or missing table. */
  datatype CelsiusRange = CelsiusRange(min: Option<int>, max: Option<int>, step: Option<int>)

  /** One mode's capabilities: each field None when its key is absent. */
  datatype ModeCaps = ModeCaps(
    fanLevel: Option<seq<string>>, verticalSwing: Option<seq<string>>,
    horizontalSwing: Option<seq<string>>, temperatures: Option<CelsiusRange>)

  type AcCaps = map<string, ModeCaps>

  const AcModeOrder: seq<string> := ["COOL", "HEAT", "DRY", "FAN"]
  const HaModeOrder: seq<HvacMode> := [Cool, Heat, Dry, FanOnly]

  /** The HVAC modes offered: OFF first, then each of COOL, HEAT, DRY and
      FAN the device supports, then HEAT_COOL when it supports AUTO. */
  method BuildHvacModes(caps: AcCaps) returns (modes: seq<HvacMode>)
    ensures |modes| >= 1 && modes[0] == Off
    ensures forall i, j :: 0 <= i < j < |modes| ==> modes[i] != modes[j]
    ensures forall k :: 0 <= k < 4 ==> (HaModeOrder[k] in modes <==> AcModeOrder[k] in caps)
    ensures HeatCool in modes <==> "AUTO" in caps
    ensures forall m :: m in modes ==> m == Off || m == HeatCool || m in HaModeOrder
  {
    modes := [Off];
    for i := 0 to 4
      invariant |modes| >= 1 && modes[0] == Off
      invariant forall a, b :: 0 <= a < b < |modes| ==> modes[a] != modes[b]
      invariant forall k :: 0 <= k < 4 ==> (HaModeOrder[k] in modes <==> k < i && AcModeOrder[k] in caps)
      invariant forall m :: m in modes ==> m == Off || m in HaModeOrder
    {
      var tadoMode := AcModeOrder[i];
      if tadoMode in caps {
        var haMode := TadoToHaHvac(tadoMode);
        assert haMode == Some(HaModeOrder[i]);
        if haMode.Some? && haMode.value !in modes {
          modes := modes + [haMode.value];
        }
      }
    }
    if "AUTO" in caps && HeatCool !in modes {
      modes := modes + [HeatCool];
    }
  }

  /** Every fan level any mode lists. */
  function FanLevels(caps: AcCaps): set<string> {
    set m, l | m in caps && caps[m].fanLevel.Some? && l in caps[m].fanLevel.value :: l
  }

  /** The fan modes offered: with no fan levels, all four speeds;
      otherwise, in speed order, each speed some listed level folds onto. */
  function FanModes(levels: set<string>): (fans: seq<string>)
    ensures levels == {} ==> fans == [FanAuto, FanLow, FanMedium, FanHigh]
  {
    if levels == {} then [FanAuto, FanLow, FanMedium, FanHigh]
    else
      (if "AUTO" in levels then [FanAuto] else [])
      + (if exists l :: l in levels && l in {"SILENT", "LEVEL1", "LEVEL2", "LOW"} then [FanLow] else [])
      + (if exists l :: l in levels && l in {"LEVEL3", "MIDDLE"} then [FanMedium] else [])
      + (if exists l :: l in levels && l in {"LEVEL4", "LEVEL5", "HIGH"} then [FanHigh] else [])
  }

  /** With some fan levels listed, the fan modes offered are exactly the
      speeds the listed levels read as. */
  lemma FanModesAreImages(levels: set<string>, fan: string)
    requires levels != {}
    ensures fan in FanModes(levels) <==> exists l :: l in levels && TadoToHaFan(l) == Some(fan)
  {
    var fans := FanModes(levels);
    if fan in fans {
      if fan == FanAuto {
        assert TadoToHaFan("AUTO") == Some(FanAuto);
      } else if fan == FanLow {
        var l :| l in levels && l in {"SILENT", "LEVEL1", "LEVEL2", "LOW"};
        assert TadoToHaFan(l) == Some(FanLow);
      } else if fan == FanMedium {
        var l :| l in levels && l in {"LEVEL3", "MIDDLE"};
        assert TadoToHaFan(l) == Some(FanMedium);
      } else {
        assert fan == FanHigh;
        var l :| l in levels && l in {"LEVEL4", "LEVEL5", "HIGH"};
        assert TadoToHaFan(l) == Some(FanHigh);
      }
    }
    if exists l :: l in levels && TadoToHaFan(l) == Some(fan) {
      var l :| l in levels && TadoToHaFan(l) == Some(fan);
      if l == "AUTO" {
        assert fan == FanAuto;
      } else if l in {"SILENT", "LEVEL1", "LEVEL2", "LOW"} {
        assert fan == FanLow;
      } else if l in {"LEVEL3", "MIDDLE"} {
        assert fan == FanMedium;
      } else {
        assert fan == FanHigh;
      }
    }
  }

  const AllAcModes: seq<string> := ["COOL", "HEAT", "DRY", "FAN", "AUTO"]

  predicate NonEmpty(o: Option<seq<string>>) {
    o.Some? && |o.value| > 0
  }

  /** Whether any of the five modes lists a swing: the swing modes are
      then offered. */
  predicate HasSwing(caps: AcCaps) {
    exists m :: m in AllAcModes && m in caps && (NonEmpty(caps[m].verticalSwing) || NonEmpty(caps[m].horizontalSwing))
  }

  /** The swing modes offered. */
  function SwingModes(caps: AcCaps): (modes: Option<seq<string>>)
    ensures modes.Some? <==> HasSwing(caps)
  {
    if HasSwing(caps) then Some(["off", "vertical", "horizontal", "both"]) else None
  }

  /** The temperature table of the first of COOL, HEAT, AUTO and DRY that
      has one, searching from `i`. */
  function FirstTemperatures(caps: AcCaps, i: nat): (r: Option<CelsiusRange>)
    requires i <= 4
    ensures r.None? <==> forall k :: i <= k < 4 ==> !(TempModeOrder[k] in caps && caps[TempModeOrder[k]].temperatures.Some?)
    ensures r.Some? ==>
              exists k :: i <= k < 4 && TempModeOrder[k] in caps && caps[TempModeOrder[k]].temperatures == r
                          && forall j :: i <= j < k ==> !(TempModeOrder[j] in caps && caps[TempModeOrder[j]].temperatures.Some?)
    decreases 4 - i
  {
    if i == 4 then None
    else
      var m := TempModeOrder[i];
      if m in caps && caps[m].temperatures.Some? then caps[m].temperatures else FirstTemperatures(caps, i + 1)
  }

  const TempModeOrder: seq<string> := ["COOL", "HEAT", "AUTO", "DRY"]

  /** The (min, max, step) of the target temperature: the first table
      found, each missing value defaulting; 16 to 30 in steps of 1 when
      no mode has a table or the table found is empty. */
  function TemperatureRange(caps: AcCaps): (r: (int, int, int))
    ensures FirstTemperatures(caps, 0).None? ==> r == (16, 30, 1)
    ensures FirstTemperatures(caps, 0) == Some(CelsiusRange(None, None, None)) ==> r == (16, 30, 1)
    ensures var t := FirstTemperatures(caps, 0);
            && (t.Some? && t.value.min.Some? ==> r.0 == t.value.min.value)
            && (t.Some? && t.value.max.Some? ==> r.1 == t.value.max.value)
            && (t.Some? && t.value.step.Some? ==> r.2 == t.value.step.value)
            && (t.None? || t.value.min.None? ==> r.0 == 16)
            && (t.None? || t.value.max.None? ==> r.1 == 30)
            && (t.None? || t.value.step.None? ==> r.2 == 1)
  {
    var t := FirstTemperatures(caps, 0);
    if t.None? then (16, 30, 1)
    else (t.value.min.GetOr(16), t.value.max.GetOr(30), t.value.step.GetOr(1))
  }

  // ---------------------------------------------------------------------
  // Air-conditioning zones

  /** The part of an AC zone's state that `update` reads; each field None
      when the file has none. */
  datatype AcZone = AcZone(
    power: Option<string>, target: Option<Celsius>, mode: Option<string>,
    fanLevel: Option<string>, fanSpeed: Option<string>,
    verticalSwing: Option<string>, horizontalSwing: Option<string>,
    acPower: Option<string>, overlayType: Option<string>)

  /** The swing mode shown for the two swing settings (a missing one
      counts as OFF). */
  function SwingFromPair(vertical: Option<string>, horizontal: Option<string>): string {
    var v := vertical.GetOr("OFF") != "OFF";
    var h := horizontal.GetOr("OFF") != "OFF";
    if v && h then "both" else if v then "vertical" else if h then "horizontal" else "off"
  }

  /** The swing settings `async_set_swing_mode` sends; a legacy "on" turns
      the vertical swing on, anything else unknown turns both off. */
  function SwingPair(swingMode: string): (string, string) {
    if swingMode == "off" then ("OFF", "OFF")
    else if swingMode == "vertical" then ("ON", "OFF")
    else if swingMode == "horizontal" then ("OFF", "ON")
    else if swingMode == "both" then ("ON", "ON")
    else (if swingMode == "on" then "ON" else "OFF", "OFF")
  }

  /** Each unified swing mode, once sent, reads back as itself. */
  lemma SwingRoundTrip(swingMode: string)
    requires swingMode in {"off", "vertical", "horizontal", "both"}
    ensures var (v, h) := SwingPair(swingMode); SwingFromPair(Some(v), Some(h)) == swingMode
  {
  }

  /** The action of a powered AC: by its mode while its compressor
      reports ON, else idle. */
  function AcAction(acPower: Option<string>, mode: Option<string>): (a: HvacAction)
    ensures a != ActionOff
    ensures a != Idle ==> acPower == Some("ON")
  {
    if acPower != Some("ON") then Idle
    else if mode == Some("COOL") then Cooling
    else if mode == Some("HEAT") then Heating
    else if mode == Some("DRY") then Drying
    else if mode == Some("FAN") then Fan
    else Idle
  }

  /** `x or y` on texts: the first when set and not empty. */
  function OrElse(x: Option<string>, y: Option<string>): Option<string> {
    if x.Some? && x.value != "" then x else y
  }

  /** What an AC overlay sets: always power ON, for a mode. */
  datatype AcSetting = AcSetting(
    mode: string, temperature: Option<Celsius>, fanLevel: Option<string>,
    verticalSwing: Option<string>, horizontalSwing: Option<string>)

  datatype AcOverlay = AcOverlay(setting: AcSetting, termination: Termination)

  /** The mode an overlay sets: the one asked for, else the Tado name of
      the mode shown (COOL when it has none), else COOL when the mode
      shown is OFF, AUTO or unknown. */
  function OverlayMode(mode: Option<string>, shown: Option<HvacMode>): (m: string)
    ensures mode.Some? && mode.value != "" ==> m == mode.value
    ensures (mode.None? || mode.value == "") && (shown.None? || shown.value in {Off, Auto}) ==> m == "COOL"
    ensures (mode.None? || mode.value == "") && shown.Some? && HaToTadoHvac(shown.value).Some? ==> m == HaToTadoHvac(shown.value).value
  {
    if mode.Some? && mode.value != "" then mode.value
    else if shown.Some? && shown.value != Off && shown.value != Auto then HaToTadoHvac(shown.value).GetOr("COOL")
    else "COOL"
  }

  /** The overlay temperature: none for FAN, else the one asked for, else
      the target shown, else 24. */
  function OverlayTemperature(mode: string, temperature: Option<Celsius>, target: Option<Celsius>): (t: Option<Celsius>)
    ensures t.None? <==> mode == "FAN"
    ensures t.Some? ==> t.value != 0
    ensures mode != "FAN" && temperature.Some? && temperature.value != 0 ==> t == temperature
    ensures mode != "FAN" && (temperature.None? || temperature.value == 0) ==>
              t == if target.Some? && target.value != 0 then target else Some(24)
  {
    if mode == "FAN" then None
    else if temperature.Some? && temperature.value != 0 then temperature
    else if target.Some? && target.value != 0 then target
    else Some(24)
  }

  /** The overlay fan level, sent only when the mode lists fan levels: the
      one asked for, else the level of the fan mode shown, else AUTO. */
  function OverlayFan(listed: bool, fanLevel: Option<string>, shown: Option<string>): (f: Option<string>)
    ensures f.Some? <==> listed
    ensures listed && fanLevel.Some? && fanLevel.value != "" ==> f == fanLevel
    ensures (listed && (fanLevel.None? || fanLevel.value == "") && shown.Some?
             && shown.value in {FanAuto, FanLow, FanMedium, FanHigh}) ==> f == HaToTadoFan(shown.value)
  {
    if !listed then None
    else if fanLevel.Some? && fanLevel.value != "" then fanLevel
    else if shown.Some? && shown.value != "" then Some(HaToTadoFan(shown.value).GetOr("AUTO"))
    else Some("AUTO")
  }

  /** One overlay swing setting, sent only when the mode lists it: the one
      asked for, else ON when the swing shown includes this direction. */
  function OverlaySwing(listed: bool, asked: Option<string>, shown: Option<string>, direction: string): (s: Option<string>)
    ensures s.Some? <==> listed
    ensures listed && asked.Some? ==> s == asked
    ensures listed && asked.None? ==> (s == Some("ON") <==> shown == Some(direction) || shown == Some("both"))
    ensures listed && asked.None? ==> s.value in {"ON", "OFF"}
  {
    if !listed then None
    else if asked.Some? then asked
    else if shown == Some(direction) || shown == Some("both") then Some("ON")
    else Some("OFF")
  }

  /** An AC overlay ends after a timer for a nonzero duration, else only
      by hand. */
  function AcTermination(durationMinutes: Option<int>): (t: Termination)
    ensures t.Timer? <==> durationMinutes.Some? && durationMinutes.value != 0
    ensures t.Timer? ==> t.durationInSeconds == durationMinutes.value * 60
    ensures !t.Timer? ==> t == Manual
  {
    if durationMinutes.Some? && durationMinutes.value != 0 then Timer(durationMinutes.value * 60) else Manual
  }

  /** An air-conditioning zone's entity. */
  class AcClimate {
    const caps: AcCaps
    var available: bool
    var hvacMode: Option<HvacMode>
    var hvacAction: Option<HvacAction>
    var target: Option<Celsius>
    var fanMode: Option<string>
    var swingMode: Option<string>
    var overlayType: Option<string>

    constructor (capabilities: AcCaps)
      ensures caps == capabilities && !available
      ensures hvacMode.None? && hvacAction.None? && target.None? && fanMode.None? && swingMode.None? && overlayType.None?
    {
      caps := capabilities;
      available, hvacMode, hvacAction, target, fanMode, swingMode, overlayType := false, None, None, None, None, None, None;
    }

    /** `update`: unavailable, with nothing else changed, when the zone is
        missing; with the power ON the mode, fan and swing come from the
        setting (an unknown mode reads AUTO, an unknown fan auto); with
        the power not ON the mode and action are OFF and the target, fan
        and swing are kept. */
    method Update(zone: Option<AcZone>)
      modifies this
      ensures zone.None? ==> !available && hvacMode == old(hvacMode) && hvacAction == old(hvacAction)
                             && target == old(target) && fanMode == old(fanMode) && swingMode == old(swingMode)
                             && overlayType == old(overlayType)
      ensures zone.Some? ==>
                var z := zone.value;
                available && overlayType == z.overlayType
                && (z.power == Some("ON") ==>
                      target == z.target
                      && hvacMode == Some(TadoToHaHvac(z.mode.GetOr("")).GetOr(Auto))
                      && fanMode == Some(TadoToHaFan(OrElse(z.fanLevel, z.fanSpeed).GetOr("")).GetOr(FanAuto))
                      && swingMode == Some(SwingFromPair(z.verticalSwing, z.horizontalSwing))
                      && hvacAction == Some(AcAction(z.acPower, z.mode)))
                && (z.power != Some("ON") ==>
                      hvacMode == Some(Off) && hvacAction == Some(ActionOff)
                      && target == old(target) && fanMode == old(fanMode) && swingMode == old(swingMode))
      ensures zone.Some? ==> (hvacAction == Some(ActionOff) <==> hvacMode == Some(Off))
    {
      if zone.None? {
        available := false;
        return;
      }
      var z := zone.value;
      overlayType := z.overlayType;
      if z.power == Some("ON") {
        target := z.target;
        hvacMode := Some(TadoToHaHvac(z.mode.GetOr("")).GetOr(Auto));
        TadoModesNeverOffOrAuto(z.mode.GetOr(""));
        fanMode := Some(TadoToHaFan(OrElse(z.fanLevel, z.fanSpeed).GetOr("")).GetOr(FanAuto));
        swingMode := Some(SwingFromPair(z.verticalSwing, z.horizontalSwing));
        hvacAction := Some(AcAction(z.acPower, z.mode));
      } else {
        hvacMode := Some(Off);
        hvacAction := Some(ActionOff);
      }
      available := true;
    }

    /** The capabilities of a mode; none when the mode is not listed. */
    function CapsOf(mode: string): ModeCaps
      reads this
    {
      if mode in caps then caps[mode] else ModeCaps(None, None, None, None)
    }

    /** `_async_set_ac_overlay`'s payload. Each argument is None when not
        given; texts count as given only when not empty and numbers only
        when not zero, as Python's truth test has it (the swing settings
        count whenever given). */
    function Payload(temperature: Option<Celsius>, mode: Option<string>, fanLevel: Option<string>,
                     verticalSwing: Option<string>, horizontalSwing: Option<string>,
                     durationMinutes: Option<int>): (p: AcOverlay)
      reads this
      ensures p.setting.temperature.None? <==> p.setting.mode == "FAN"
      ensures p.setting.fanLevel.Some? <==> CapsOf(p.setting.mode).fanLevel.Some?
      ensures p.setting.verticalSwing.Some? <==> CapsOf(p.setting.mode).verticalSwing.Some?
      ensures p.setting.horizontalSwing.Some? <==> CapsOf(p.setting.mode).horizontalSwing.Some?
      ensures mode.Some? && mode.value != "" ==> p.setting.mode == mode.value
      ensures p.termination.Timer? <==> durationMinutes.Some? && durationMinutes.value != 0
      ensures p.termination.Timer? ==> p.termination.durationInSeconds == durationMinutes.value * 60
      ensures !p.termination.Timer? ==> p.termination == Manual
    {
      var chosen := OverlayMode(mode, hvacMode);
      var modeCaps := CapsOf(chosen);
      var setting := AcSetting(
        chosen,
        OverlayTemperature(chosen, temperature, target),
        OverlayFan(modeCaps.fanLevel.Some?, fanLevel, fanMode),
        OverlaySwing(modeCaps.verticalSwing.Some?, verticalSwing, swingMode, "vertical"),
        OverlaySwing(modeCaps.horizontalSwing.Some?, horizontalSwing, swingMode, "horizontal"));
      AcOverlay(setting, AcTermination(durationMinutes))
    }

    /** `async_set_swing_mode`: sends the swing pair for the mode and, when
        the request succeeds, shows the new swing mode. */
    method SetSwingMode(newSwing: string, requestOk: bool) returns (sent: AcOverlay)
      modifies this
      ensures sent == old(Payload(None, None, None, Some(SwingPair(newSwing).0), Some(SwingPair(newSwing).1), None))
      ensures swingMode == (if requestOk then Some(newSwing) else old(swingMode))
      ensures hvacMode == old(hvacMode) && target == old(target) && fanMode == old(fanMode)
      ensures available == old(available) && hvacAction == old(hvacAction) && overlayType == old(overlayType)
    {
      var (v, h) := SwingPair(newSwing);
      sent := Payload(None, None, None, Some(v), Some(h), None);
      if requestOk {
        swingMode := Some(newSwing);
      }
    }
  }

  /** Without an explicit mode, the payload keeps the mode shown: a mode
      that has a Tado name is sent under it, so reading the setting back
      gives the same mode; with no mode, OFF or AUTO shown, COOL is sent. */
  lemma PayloadKeepsShownMode(c: AcClimate, temperature: Option<Celsius>, fanLevel: Option<string>,
                              verticalSwing: Option<string>, horizontalSwing: Option<string>, durationMinutes: Option<int>)
    ensures var p := c.Payload(temperature, None, fanLevel, verticalSwing, horizontalSwing, durationMinutes);
            (c.hvacMode.Some? && c.hvacMode.value in HaModeOrder + [HeatCool] ==> TadoToHaHvac(p.setting.mode) == c.hvacMode)
            && (c.hvacMode.None? || c.hvacMode.value in {Off, Auto} ==> p.setting.mode == "COOL")
  {
    var p := c.Payload(temperature, None, fanLevel, verticalSwing, horizontalSwing, durationMinutes);
    if c.hvacMode.Some? && c.hvacMode.value in HaModeOrder + [HeatCool] {
      var m := c.hvacMode.value;
      assert HaToTadoHvac(m).Some?;
      HvacTablesInverse(HaToTadoHvac(m).value, m);
    }
  }

  /** A swing mode chosen from the offered list, when the mode sent lists
      both swings, is sent as its pair and reads back as itself. */
  lemma SwingSentReadsBack(c: AcClimate, swing: string)
    requires swing in {"off", "vertical", "horizontal", "both"}
    ensures var p := c.Payload(None, None, None, Some(SwingPair(swing).0), Some(SwingPair(swing).1), None);
            p.setting.verticalSwing.Some? && p.setting.horizontalSwing.Some? ==>
              SwingFromPair(p.setting.verticalSwing, p.setting.horizontalSwing) == swing
  {
    SwingRoundTrip(swing);
  }
}
