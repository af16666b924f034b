/** The hot-water entity: its operation mode (auto, heat or off) read from
    the zone's overlay, and the overlay requests it sends to change it,
    with one retry and a rollback when both attempts fail. The outcome of
    each request is a parameter. */
module WaterHeater {
  import opened Common
  import opened Climate

  const StateAuto := "auto"
  const StateHeat := "heat"
  const StateOff := "off"

  /** `max_retries`: the first attempt and one retry. */
  const MaxAttempts := 2

  /** The operation mode shown for a zone's overlay: the schedule (auto)
      without an overlay or an overlay type; heat under a timer; under a
      manual overlay off when the power is OFF and heat otherwise; auto
      for any other overlay type. */
  function OperationFor(hasOverlay: bool, overlayType: Option<string>, power: Option<string>): (op: string)
    ensures op in {StateAuto, StateHeat, StateOff}
    ensures op == StateOff <==> hasOverlay && overlayType == Some("MANUAL") && power == Some("OFF")
    ensures op == StateHeat <==> hasOverlay && (overlayType == Some("TIMER") || (overlayType == Some("MANUAL") && power != Some("OFF")))
    ensures !hasOverlay || overlayType.None? ==> op == StateAuto
  {
    if !hasOverlay || overlayType.None? then StateAuto
    else if overlayType.value == "TIMER" then StateHeat
    else if overlayType.value == "MANUAL" then (if power == Some("OFF") then StateOff else StateHeat)
    else StateAuto
  }

  /** The part of a hot-water zone's state that `update` reads: the link
      state, the power, whether an overlay is present, its type and the
      target temperature (each None when the file has none). */
  datatype HotWaterZone = HotWaterZone(
    linkState: Option<string>, power: Option<string>, hasOverlay: bool,
    overlayType: Option<string>, target: Option<Celsius>)

  /** What a hot-water overlay sets. */
  datatype HotWaterSetting = HotWaterSetting(power: string, temperature: Option<Celsius>)

  /** A request to the API: remove the overlay, or set one. */
  datatype Request = DeleteOverlay | SetOverlay(setting: HotWaterSetting, termination: Termination)

  /** Whether a home id is configured (present and not empty). */
  predicate HasHomeId(homeId: Option<string>) {
    homeId.Some? && homeId.value != ""
  }

  /** The overlay `_async_set_timer` sends: power ON, the temperature only
      when one is given, ended by a timer. */
  function TimerRequest(durationMinutes: int, temperature: Option<Celsius>): (r: Request)
    ensures r.SetOverlay? && r.setting.power == "ON" && r.setting.temperature == temperature
    ensures r.termination == Timer(durationMinutes * 60)
  {
    SetOverlay(HotWaterSetting("ON", temperature), Timer(durationMinutes * 60))
  }

  /** The request one attempt of `async_set_operation_mode` makes, None
      when it makes none: auto removes the overlay; heat starts a timer of
      the configured length and off sets a manual overlay with the power
      OFF, both only with a home id; an unknown mode makes no request. */
  function ModeRequest(mode: string, timerMinutes: int, homeId: Option<string>): (r: Option<Request>)
    ensures r.None? <==> mode !in {StateAuto, StateHeat, StateOff} || (mode != StateAuto && !HasHomeId(homeId))
    ensures mode == StateAuto ==> r == Some(DeleteOverlay)
    ensures mode == StateHeat && r.Some? ==> r.value.SetOverlay? && r.value.setting == HotWaterSetting("ON", None)
                                              && r.value.termination == Timer(timerMinutes * 60)
    ensures mode == StateOff && r.Some? ==> r.value == SetOverlay(HotWaterSetting("OFF", None), Manual)
  {
    if mode == StateAuto then Some(DeleteOverlay)
    else if mode == StateHeat then (if HasHomeId(homeId) then Some(TimerRequest(timerMinutes, None)) else None)
    else if mode == StateOff then (if HasHomeId(homeId) then Some(SetOverlay(HotWaterSetting("OFF", None), Manual)) else None)
    else None
  }

  /** The overlay type shown after a mode has been set. */
  function ModeOverlayType(mode: string): Option<string> {
    if mode == StateHeat then Some("TIMER") else if mode == StateOff then Some("MANUAL") else None
  }

  /** The overlay a successful mode change leaves behind reads back, at
      the next update, as the mode that was set. */
  lemma ModeReadsBack(mode: string, timerMinutes: int, homeId: Option<string>)
    requires ModeRequest(mode, timerMinutes, homeId).Some?
    ensures var r := ModeRequest(mode, timerMinutes, homeId).value;
            OperationFor(r.SetOverlay?, ModeOverlayType(mode), if r.SetOverlay? then Some(r.setting.power) else None) == mode
  {
  }

  /** The entity of one hot-water zone. */
  class TadoWaterHeater {
    var homeId: Option<string>
    var available: bool
    var currentOperation: Option<string>
    var target: Option<Celsius>
    var supportsTemperature: bool
    var overlayType: Option<string>

    constructor ()
      ensures homeId.None? && !available && currentOperation.None? && target.None?
      ensures !supportsTemperature && overlayType.None?
    {
      homeId, available, currentOperation, target := None, false, None, None;
      supportsTemperature, overlayType := false, None;
    }

    /** `update`: `configHomeId` is the home id of the configuration file
        and `zone` the zone's state, None when the zone is missing. A
        missing zone or a link that is not ONLINE makes the entity
        unavailable and keeps the mode, target and overlay shown. Once a
        target temperature has been seen, temperature control stays on. */
    method Update(configHomeId: Option<string>, zone: Option<HotWaterZone>)
      modifies this
      ensures homeId == configHomeId
      ensures old(supportsTemperature) ==> supportsTemperature
      ensures zone.None? || zone.value.linkState != Some("ONLINE") ==>
                !available && currentOperation == old(currentOperation) && target == old(target)
                && overlayType == old(overlayType) && supportsTemperature == old(supportsTemperature)
      ensures zone.Some? && zone.value.linkState == Some("ONLINE") ==>
                var z := zone.value;
                available && target == z.target && overlayType == z.overlayType
                && currentOperation == Some(OperationFor(z.hasOverlay, z.overlayType, z.power))
                && supportsTemperature == (old(supportsTemperature) || z.target.Some?)
    {
      homeId := configHomeId;
      if zone.None? || zone.value.linkState != Some("ONLINE") {
        available := false;
        return;
      }
      var z := zone.value;
      overlayType := z.overlayType;
      target := z.target;
      if target.Some? && !supportsTemperature {
        supportsTemperature := true;
      }
      currentOperation := Some(OperationFor(z.hasOverlay, overlayType, z.power));
      available := true;
    }

    /** `async_set_operation_mode`: `outcomes[i]` is whether the request of
        attempt `i` succeeds. Each attempt makes the mode's request; the
        first success shows the new mode and stops; when no attempt
        succeeds the mode shown before the call is restored. An unknown
        mode, or heat or off without a home id, sends nothing. */
    method SetOperationMode(mode: string, timerMinutes: int, outcomes: seq<bool>)
      returns (success: bool, sent: seq<Request>)
      requires |outcomes| == MaxAttempts
      modifies this
      ensures ModeRequest(mode, timerMinutes, old(homeId)).None? ==> sent == [] && !success
      ensures var r := ModeRequest(mode, timerMinutes, old(homeId));
              r.Some? ==> success == (outcomes[0] || outcomes[1])
                          && sent == (if outcomes[0] then [r.value] else [r.value, r.value])
      ensures success ==> currentOperation == Some(mode) && overlayType == ModeOverlayType(mode)
      ensures !success ==> currentOperation == old(currentOperation) && overlayType == old(overlayType)
      ensures homeId == old(homeId) && available == old(available) && target == old(target)
      ensures supportsTemperature == old(supportsTemperature)
    {
      var previous := currentOperation;
      var request := ModeRequest(mode, timerMinutes, homeId);
      success := false;
      sent := [];
      var attempt := 0;
      while attempt < MaxAttempts && !success
        invariant 0 <= attempt <= MaxAttempts
        invariant request.None? ==> sent == [] && !success
        invariant request.Some? ==> sent == seq(attempt, _ => request.value)
        invariant request.Some? ==> success == (exists i :: 0 <= i < attempt && outcomes[i])
        invariant request.Some? ==> forall i :: 0 <= i < attempt - 1 ==> !outcomes[i]
        invariant success ==> currentOperation == Some(mode) && overlayType == ModeOverlayType(mode)
        invariant !success ==> currentOperation == old(currentOperation) && overlayType == old(overlayType)
        invariant homeId == old(homeId) && available == old(available) && target == old(target)
        invariant supportsTemperature == old(supportsTemperature)
      {
        if request.Some? {
          sent := sent + [request.value];
          success := outcomes[attempt];
        }
        if success {
          currentOperation := Some(mode);
          overlayType := ModeOverlayType(mode);
        }
        attempt := attempt + 1;
      }
      if !success {
        currentOperation := previous;
      }
      if request.Some? {
        if outcomes[0] {
          assert attempt == 1;
          assert sent == [request.value];
        } else {
          assert attempt == 2;
          assert sent == [request.value, request.value];
        }
      }
    }

    /** `async_set_timer`: without a home id nothing is sent; otherwise the
        timer overlay is sent and, when it succeeds, heat is shown. */
    method SetTimer(durationMinutes: int, temperature: Option<Celsius>, outcome: bool)
      returns (success: bool, sent: Option<Request>)
      modifies this
      ensures !HasHomeId(homeId) ==> sent.None? && !success
      ensures HasHomeId(homeId) ==> sent == Some(TimerRequest(durationMinutes, temperature)) && success == outcome
      ensures currentOperation == if success then Some(StateHeat) else old(currentOperation)
      ensures homeId == old(homeId) && available == old(available) && target == old(target)
      ensures overlayType == old(overlayType) && supportsTemperature == old(supportsTemperature)
    {
      if !HasHomeId(homeId) {
        return false, None;
      }
      sent := Some(TimerRequest(durationMinutes, temperature));
      success := outcome;
      if success {
        currentOperation := Some(StateHeat);
      }
    }

    /** `_async_turn_on`: without a home id nothing is sent; otherwise a
        manual overlay with the power ON, which when it succeeds shows heat. */
    method TurnOn(outcome: bool) returns (success: bool, sent: Option<Request>)
      modifies this
      ensures !HasHomeId(homeId) ==> sent.None? && !success
      ensures HasHomeId(homeId) ==> sent == Some(SetOverlay(HotWaterSetting("ON", None), Manual)) && success == outcome
      ensures currentOperation == if success then Some(StateHeat) else old(currentOperation)
      ensures homeId == old(homeId) && available == old(available) && target == old(target)
      ensures overlayType == old(overlayType) && supportsTemperature == old(supportsTemperature)
    {
      if !HasHomeId(homeId) {
        return false, None;
      }
      sent := Some(SetOverlay(HotWaterSetting("ON", None), Manual));
      success := outcome;
      if success {
        currentOperation := Some(StateHeat);
      }
    }

    /** `_async_turn_off`: without a home id nothing is sent; otherwise a
        manual overlay with the power OFF, which when it succeeds shows off. */
    method TurnOff(outcome: bool) returns (success: bool, sent: Option<Request>)
      modifies this
      ensures !HasHomeId(homeId) ==> sent.None? && !success
      ensures HasHomeId(homeId) ==> sent == Some(SetOverlay(HotWaterSetting("OFF", None), Manual)) && success == outcome
      ensures currentOperation == if success then Some(StateOff) else old(currentOperation)
      ensures homeId == old(homeId) && available == old(available) && target == old(target)
      ensures overlayType == old(overlayType) && supportsTemperature == old(supportsTemperature)
    {
      if !HasHomeId(homeId) {
        return false, None;
      }
      sent := Some(SetOverlay(HotWaterSetting("OFF", None), Manual));
      success := outcome;
      if success {
        currentOperation := Some(StateOff);
      }
    }

    /** `async_set_temperature`: nothing is sent without a temperature,
        without temperature control or without a home id; otherwise a
        manual overlay with the temperature, which when it succeeds is
        shown as the target with the mode heat. */
    method SetTemperature(temperature: Option<Celsius>, outcome: bool) returns (sent: Option<Request>)
      modifies this
      ensures sent.Some? <==> temperature.Some? && supportsTemperature && HasHomeId(homeId)
      ensures sent.Some? ==> sent.value == SetOverlay(HotWaterSetting("ON", temperature), Manual)
      ensures sent.Some? && outcome ==>
                target == temperature && currentOperation == Some(StateHeat) && overlayType == Some("MANUAL")
      ensures !(sent.Some? && outcome) ==>
                target == old(target) && currentOperation == old(currentOperation) && overlayType == old(overlayType)
      ensures homeId == old(homeId) && available == old(available) && supportsTemperature == old(supportsTemperature)
    {
      if temperature.None? || !supportsTemperature || !HasHomeId(homeId) {
        return None;
      }
      sent := Some(SetOverlay(HotWaterSetting("ON", temperature), Manual));
      if outcome {
        target := temperature;
        currentOperation := Some(StateHeat);
        overlayType := Some("MANUAL");
      }
    }
  }
}
