/** The integration's options: validators for updates, getters that fall
    back to defaults on any invalid stored value, the merge that writes
    the options into the shared configuration file without touching the
    refresh token or home id, and the (deprecated) synchronous update.
    Option values are JSON-like; a Python bool is also an int, as
    `isinstance(True, int)` holds. */
module ConfigManager {
  import opened Common

  /** A stored option value. `Float(whole)` is a float whose `int()` is
      `whole` (its fraction plays no part anywhere below). */
  datatype Value = Null | Bool(b: bool) | Int(i: int) | Float(whole: int) | Str(s: string)

  type Options = map<string, Value>

  const DefaultDayStartHour := 7
  const DefaultNightStartHour := 23
  const DefaultRetentionDays := 14
  const DefaultHotWaterTimerDuration := 60
  const DefaultRefreshDebounceSeconds := 15

  /** `isinstance(v, int)`, with its value: bools count as 0 and 1. */
  function AsInt(v: Value): Option<int> {
    match v
    case Int(i) => Some(i)
    case Bool(b) => Some(if b then 1 else 0)
    case _ => None
  }

  /** An option's stored value, or the given default when absent. */
  function Get(options: Options, key: string, default: Value): Value {
    if key in options then options[key] else default
  }

  // ---------------------------------------------------------------------
  // Validators: None when valid, else the message

  function ValidateHour(v: Value, field: string): (error: Option<string>)
    ensures error.None? <==> AsInt(v).Some? && 0 <= AsInt(v).value <= 23
  {
    if AsInt(v).None? then Some(field + " must be an integer")
    else if AsInt(v).value < 0 || AsInt(v).value > 23 then Some(field + " must be between 0 and 23")
    else None
  }

  function ValidateInterval(v: Value, field: string): (error: Option<string>)
    ensures error.None? <==> v.Null? || (AsInt(v).Some? && 1 <= AsInt(v).value <= 1440)
  {
    if v.Null? then None
    else if AsInt(v).None? then Some(field + " must be an integer or null")
    else if AsInt(v).value < 1 || AsInt(v).value > 1440 then Some(field + " must be between 1 and 1440 minutes")
    else None
  }

  function ValidateRetentionDays(v: Value): (error: Option<string>)
    ensures error.None? <==> AsInt(v).Some? && 0 <= AsInt(v).value <= 365
  {
    if AsInt(v).None? then Some("api_history_retention_days must be an integer")
    else if AsInt(v).value < 0 || AsInt(v).value > 365 then Some("api_history_retention_days must be between 0 and 365")
    else None
  }

  /** Each hour on its own; equal hours (uniform polling) are accepted. */
  function ValidateDayNightHours(day: Value, night: Value): (error: Option<string>)
    ensures error.None? <==> ValidateHour(day, "day_start_hour").None? && ValidateHour(night, "night_start_hour").None?
  {
    var d := ValidateHour(day, "day_start_hour");
    if d.Some? then d else ValidateHour(night, "night_start_hour")
  }

  lemma UniformHoursAccepted(h: int)
    requires 0 <= h <= 23
    ensures ValidateDayNightHours(Int(h), Int(h)).None?
  {
  }

  /** The flags an update must give as true bools, checked in this order. */
  const BoolFields: seq<string> := ["weather_enabled", "mobile_devices_enabled", "test_mode_enabled"]

  /** The first of the flag fields present in `updates` with a non-bool. */
  function CheckBools(updates: Options, fields: seq<string>): (error: Option<string>)
    ensures error.None? <==> forall f :: f in fields && f in updates ==> updates[f].Bool?
  {
    if |fields| == 0 then None
    else if fields[0] in updates && !updates[fields[0]].Bool? then Some(fields[0] + " must be a boolean")
    else CheckBools(updates, fields[1..])
  }

  /** Runs the checks in order and keeps the first failure. */
  function FirstError(errors: seq<Option<string>>): (r: Option<string>)
    ensures r.None? <==> forall i :: 0 <= i < |errors| ==> errors[i].None?
    ensures r.Some? ==> exists i :: 0 <= i < |errors| && errors[i] == r && forall j :: 0 <= j < i ==> errors[j].None?
  {
    if |errors| == 0 then None
    else if errors[0].Some? then errors[0]
    else
      var r := FirstError(errors[1..]);
      assert forall i :: 1 <= i < |errors| ==> errors[i] == errors[1..][i - 1];
      r
  }

  /** The hour check of one key when it is present; an absent key passes. */
  function HourIfPresent(updates: Options, key: string): (error: Option<string>)
    ensures error.None? <==> (key in updates ==> ValidateHour(updates[key], key).None?)
  {
    if key in updates then ValidateHour(updates[key], key) else None
  }

  /** The interval check of one key when it is present. */
  function IntervalIfPresent(updates: Options, key: string): (error: Option<string>)
    ensures error.None? <==> (key in updates ==> ValidateInterval(updates[key], key).None?)
  {
    if key in updates then ValidateInterval(updates[key], key) else None
  }

  /** The retention check when the key is present. */
  function RetentionIfPresent(updates: Options): (error: Option<string>)
    ensures error.None? <==> ("api_history_retention_days" in updates ==> ValidateRetentionDays(updates["api_history_retention_days"]).None?)
  {
    if "api_history_retention_days" in updates then ValidateRetentionDays(updates["api_history_retention_days"]) else None
  }

  /** The day/night pair check, run when either hour is updated, with the
      current value standing in for the one not updated. */
  function PairIfUpdated(options: Options, updates: Options): Option<string> {
    if "day_start_hour" in updates || "night_start_hour" in updates then
      var day := if "day_start_hour" in updates then updates["day_start_hour"] else Int(DayStartHour(options));
      var night := if "night_start_hour" in updates then updates["night_start_hour"] else Int(NightStartHour(options));
      ValidateDayNightHours(day, night)
    else None
  }

  /** The pair check adds no failure of its own: the stand-in hours are
      always valid. */
  lemma PairFollowsHours(options: Options, updates: Options)
    requires HourIfPresent(updates, "day_start_hour").None? && HourIfPresent(updates, "night_start_hour").None?
    ensures PairIfUpdated(options, updates).None?
  {
  }

  /** The checks of `validate_config_updates`, in the order it runs them. */
  function UpdateChecks(options: Options, updates: Options): seq<Option<string>> {
    [HourIfPresent(updates, "day_start_hour"),
     HourIfPresent(updates, "night_start_hour"),
     PairIfUpdated(options, updates),
     IntervalIfPresent(updates, "custom_day_interval"),
     IntervalIfPresent(updates, "custom_night_interval"),
     RetentionIfPresent(updates),
     CheckBools(updates, BoolFields)]
  }

  /** `validate_config_updates`: each key that is present is checked by its
      own validator; the day/night pair is checked again with the current
      value standing in for the one not updated. */
  function ValidateConfigUpdates(options: Options, updates: Options): (error: Option<string>)
    ensures error.Some? ==> exists k :: k in updates && k in CheckedKeys
  {
    var error := FirstError(UpdateChecks(options, updates));
    assert error.Some? ==> exists k :: k in updates && k in CheckedKeys by {
      if forall k :: k in updates ==> k !in CheckedKeys {
        var es := UpdateChecks(options, updates);
        assert forall i :: 0 <= i < |es| ==> es[i].None?;
      }
    }
    error
  }

  /** The keys `validate_config_updates` looks at. */
  const CheckedKeys: set<string> :=
    {"day_start_hour", "night_start_hour", "custom_day_interval", "custom_night_interval",
     "api_history_retention_days", "weather_enabled", "mobile_devices_enabled", "test_mode_enabled"}

  /** An update is accepted exactly when every key it carries passes its
      own check; keys without a check are not looked at. */
  lemma ValidUpdateIff(options: Options, updates: Options)
    ensures ValidateConfigUpdates(options, updates).None? <==>
              ("day_start_hour" in updates ==> ValidateHour(updates["day_start_hour"], "").None?)
              && ("night_start_hour" in updates ==> ValidateHour(updates["night_start_hour"], "").None?)
              && ("custom_day_interval" in updates ==> ValidateInterval(updates["custom_day_interval"], "").None?)
              && ("custom_night_interval" in updates ==> ValidateInterval(updates["custom_night_interval"], "").None?)
              && ("api_history_retention_days" in updates ==> ValidateRetentionDays(updates["api_history_retention_days"]).None?)
              && (forall f :: f in BoolFields && f in updates ==> updates[f].Bool?)
  {
    var es := UpdateChecks(options, updates);
    if es[0].None? && es[1].None? {
      PairFollowsHours(options, updates);
    }
    assert FirstError(es).None? <==> es[0].None? && es[1].None? && es[2].None? && es[3].None? && es[4].None? && es[5].None? && es[6].None?;
  }

  /** An empty update is always accepted. */
  lemma EmptyUpdateValid(options: Options)
    ensures ValidateConfigUpdates(options, map[]).None?
  {
    ValidUpdateIff(options, map[]);
  }

  // ---------------------------------------------------------------------
  // Getters

  /** A stored number as the getters read it: floats truncated. */
  function Truncated(v: Value): Value {
    if v.Float? then Int(v.whole) else v
  }

  /** The shared shape of the hour, retention and duration getters: the
      stored value (floats truncated) when it is an int in range, else the
      default. */
  function RangedGetter(options: Options, key: string, default: int, lo: int, hi: int): (r: int)
    requires lo <= default <= hi
    ensures lo <= r <= hi
    ensures var v := Truncated(Get(options, key, Int(default)));
            r == (if AsInt(v).Some? && lo <= AsInt(v).value <= hi then AsInt(v).value else default)
  {
    var v := Truncated(Get(options, key, Int(default)));
    if AsInt(v).None? || AsInt(v).value < lo || AsInt(v).value > hi then default else AsInt(v).value
  }

  function DayStartHour(options: Options): (h: int)
    ensures ValidateHour(Int(h), "day_start_hour").None?
  {
    RangedGetter(options, "day_start_hour", DefaultDayStartHour, 0, 23)
  }

  function NightStartHour(options: Options): (h: int)
    ensures ValidateHour(Int(h), "night_start_hour").None?
  {
    RangedGetter(options, "night_start_hour", DefaultNightStartHour, 0, 23)
  }

  function RetentionDays(options: Options): (d: int)
    ensures ValidateRetentionDays(Int(d)).None?
  {
    RangedGetter(options, "api_history_retention_days", DefaultRetentionDays, 0, 365)
  }

  function HotWaterTimerDuration(options: Options): (m: int)
    ensures 5 <= m <= 1440
  {
    RangedGetter(options, "hot_water_timer_duration", DefaultHotWaterTimerDuration, 5, 1440)
  }

  /** The custom interval getters: no float conversion here, and anything
      but an int in 1..1440 reads as unset. */
  function CustomInterval(options: Options, key: string): (r: Option<int>)
    ensures ValidateInterval(if r.Some? then Int(r.value) else Null, key).None?
    ensures r.Some? <==> key in options && AsInt(options[key]).Some? && 1 <= AsInt(options[key]).value <= 1440
  {
    var v := Get(options, key, Null);
    if AsInt(v).Some? && 1 <= AsInt(v).value <= 1440 then AsInt(v) else None
  }

  /** A float stored for an hour is truncated before the range check. */
  lemma FloatHourTruncated(options: Options, whole: int)
    requires "day_start_hour" in options && options["day_start_hour"] == Float(whole)
    ensures DayStartHour(options) == if 0 <= whole <= 23 then whole else DefaultDayStartHour
  {
  }

  /** A text option read as a number: blank text is no number. */
  function TextNumber(s: string): Option<int> {
    if Strip(s) == "" then None else ParseInt(Strip(s))
  }

  /** A digit text reads as its number. */
  lemma DigitsTextNumber(digits: string)
    requires |digits| > 0 && AllDigits(digits)
    ensures TextNumber(digits) == Some(DigitsValue(digits))
  {
    DigitsParse(digits);
  }

  /** `get_refresh_debounce_seconds`: an int, a float (truncated) or a
      numeric text; blank or non-numeric text, or anything outside 1..60,
      gives 15. */
  function RefreshDebounceSeconds(options: Options): (r: int)
    ensures 1 <= r <= 60
    ensures "refresh_debounce_seconds" !in options ==> r == DefaultRefreshDebounceSeconds
    ensures "refresh_debounce_seconds" in options ==>
              match options["refresh_debounce_seconds"]
              case Int(i) => r == if 1 <= i <= 60 then i else DefaultRefreshDebounceSeconds
              case Float(w) => r == if 1 <= w <= 60 then w else DefaultRefreshDebounceSeconds
              case Bool(b) => r == if b then 1 else DefaultRefreshDebounceSeconds
              case Null => r == DefaultRefreshDebounceSeconds
              case Str(t) => (Strip(t) == "" ==> r == DefaultRefreshDebounceSeconds)
                             && (ParseInt(Strip(t)).None? ==> r == DefaultRefreshDebounceSeconds)
                             && (ParseInt(Strip(t)).Some? ==>
                                   r == if 1 <= ParseInt(Strip(t)).value <= 60 then ParseInt(Strip(t)).value
                                        else DefaultRefreshDebounceSeconds)
  {
    var v := Get(options, "refresh_debounce_seconds", Int(DefaultRefreshDebounceSeconds));
    var n :=
      match v
      case Float(w) => Some(w)
      case Str(s) => TextNumber(s)
      case _ => AsInt(v);
    if n.Some? && 1 <= n.value <= 60 then n.value else DefaultRefreshDebounceSeconds
  }

  /** A digit text in range is read as its number, surrounding blanks
      ignored. */
  lemma DebounceFromText(options: Options, text: string)
    requires "refresh_debounce_seconds" in options && options["refresh_debounce_seconds"] == Str(text)
    requires |Strip(text)| > 0 && AllDigits(Strip(text)) && 1 <= DigitsValue(Strip(text)) <= 60
    ensures RefreshDebounceSeconds(options) == DigitsValue(Strip(text))
  {
    DigitsParse(Strip(text));
  }

  // ---------------------------------------------------------------------
  // Writing the options into the configuration file

  const ManagedKeys: set<string> := {
    "weather_enabled", "mobile_devices_enabled", "mobile_devices_frequent_sync", "offset_enabled",
    "test_mode_enabled", "day_start_hour", "night_start_hour", "custom_day_interval",
    "custom_night_interval", "api_history_retention_days", "hot_water_timer_duration"}

  /** The value the merge writes for a managed key: the flags as stored,
      without validation; the numbers as the getters give them. */
  function ManagedValue(options: Options, key: string): Value {
    if key == "day_start_hour" then Int(DayStartHour(options))
    else if key == "night_start_hour" then Int(NightStartHour(options))
    else if key == "custom_day_interval" then OptionValue(CustomInterval(options, "custom_day_interval"))
    else if key == "custom_night_interval" then OptionValue(CustomInterval(options, "custom_night_interval"))
    else if key == "api_history_retention_days" then Int(RetentionDays(options))
    else if key == "hot_water_timer_duration" then Int(HotWaterTimerDuration(options))
    else Get(options, key, Bool(false))
  }

  /** The option keys the merge writes, with their values. */
  function ConfigData(options: Options): (data: map<string, Value>)
    ensures data.Keys == ManagedKeys
    ensures forall k :: k in data ==> data[k] == ManagedValue(options, k)
  {
    map k | k in ManagedKeys :: ManagedValue(options, k)
  }

  /** The credentials kept by the merge are not option keys. */
  lemma CredentialsNotManaged()
    ensures "refresh_token" !in ManagedKeys && "home_id" !in ManagedKeys
  {
  }

  function OptionValue(o: Option<int>): Value {
    if o.Some? then Int(o.value) else Null
  }

  /** `sync_all_to_config_json` without the file: `existing` is the parsed
      file, or None when it is missing or corrupt (read as empty). The
      managed keys take the options' values; the refresh token and home id
      stay as they were, written as null only when absent; every other key
      is kept. */
  method MergeConfig(options: Options, existing: Option<map<string, Value>>) returns (written: map<string, Value>)
    ensures var before := existing.GetOr(map[]);
            (forall k :: k in ManagedKeys ==> k in written && written[k] == ConfigData(options)[k])
            && (forall k :: k in before && k !in ManagedKeys ==> k in written && written[k] == before[k])
            && written.Keys == before.Keys + ManagedKeys + {"refresh_token", "home_id"}
            && written["refresh_token"] == Get(before, "refresh_token", Null)
            && written["home_id"] == Get(before, "home_id", Null)
  {
    CredentialsNotManaged();
    written := MergeOver(existing.GetOr(map[]), ConfigData(options));
  }

  /** The merge itself, for any option data that holds no credential. */
  method MergeOver(before: map<string, Value>, data: map<string, Value>) returns (written: map<string, Value>)
    requires "refresh_token" !in data && "home_id" !in data
    ensures forall k :: k in data ==> k in written && written[k] == data[k]
    ensures forall k :: k in before && k !in data ==> k in written && written[k] == before[k]
    ensures written.Keys == before.Keys + data.Keys + {"refresh_token", "home_id"}
    ensures written["refresh_token"] == Get(before, "refresh_token", Null)
    ensures written["home_id"] == Get(before, "home_id", Null)
  {
    var preservedRefresh := Get(before, "refresh_token", Null);
    var preservedHome := Get(before, "home_id", Null);
    var config := before + data;
    config := KeepCredential(config, "refresh_token", preservedRefresh);
    config := KeepCredential(config, "home_id", preservedHome);
    written := config;
  }

  /** Writes back a credential read before the merge: a non-null value
      wins, otherwise the key is only added, as null, when missing. */
  method KeepCredential(config: map<string, Value>, key: string, preserved: Value) returns (r: map<string, Value>)
    ensures r.Keys == config.Keys + {key}
    ensures forall k :: k in config && k != key ==> r[k] == config[k]
    ensures r[key] == if preserved.Null? then Get(config, key, Null) else preserved
  {
    r := config;
    if !preserved.Null? {
      r := r[key := preserved];
    } else if key !in r {
      r := r[key := Null];
    }
  }

  /** The option store of one config entry. */
  class ConfigurationManager {
    var options: Options

    constructor (entryOptions: Options)
      ensures options == entryOptions
    {
      options := entryOptions;
    }

    /** `update_config`: an invalid update is refused with its message and
        changes nothing; a valid one is merged over the options (the new
        value wins) before the file is written. A failed write reports
        failure, with the options already replaced. */
    method UpdateConfig(updates: Options, existing: Option<map<string, Value>>, writeOk: bool)
      returns (ok: bool, error: Option<string>, written: Option<map<string, Value>>)
      modifies this
      ensures var invalid := ValidateConfigUpdates(old(options), updates);
              (invalid.Some? ==> !ok && error == invalid && options == old(options) && written.None?)
              && (invalid.None? ==> options == old(options) + updates && (ok <==> writeOk))
      ensures ok ==> error.None? && written.Some?
                     && (forall k :: k in ManagedKeys ==> k in written.value && written.value[k] == ConfigData(options)[k])
    {
      var invalid := ValidateConfigUpdates(options, updates);
      if invalid.Some? {
        return false, invalid, None;
      }
      options := options + updates;
      var merged := MergeConfig(options, existing);
      if !writeOk {
        return false, Some("Failed to update configuration"), None;
      }
      return true, None, Some(merged);
    }
  }

  /** A stored update is read back by the getters: a valid hour sent in an
      update becomes the day start hour. */
  lemma UpdatedHourReadBack(options: Options, h: int)
    requires 0 <= h <= 23
    ensures ValidateConfigUpdates(options, map["day_start_hour" := Int(h)]).None?
    ensures DayStartHour(options + map["day_start_hour" := Int(h)]) == h
  {
    ValidUpdateIff(options, map["day_start_hour" := Int(h)]);
  }
}
