/** Naming helpers for the zone devices: the model text of a zone type,
    the suffix that tells apart several devices in one zone, and the
    cached home id. */
module DeviceManager {
  import opened Common

  /** `get_zone_type_display`. */
  function ZoneTypeDisplay(zoneType: string): (name: string)
    ensures name != "Unknown Zone" <==> zoneType in {"HEATING", "AIR_CONDITIONING", "HOT_WATER"}
  {
    if zoneType == "HEATING" then "Heating Zone"
    else if zoneType == "AIR_CONDITIONING" then "AC Zone"
    else if zoneType == "HOT_WATER" then "Hot Water Zone"
    else "Unknown Zone"
  }

  /** The three known zone types show as three different names. */
  lemma ZoneTypeDisplayDistinct()
    ensures ZoneTypeDisplay("HEATING") != ZoneTypeDisplay("AIR_CONDITIONING")
    ensures ZoneTypeDisplay("HEATING") != ZoneTypeDisplay("HOT_WATER")
    ensures ZoneTypeDisplay("AIR_CONDITIONING") != ZoneTypeDisplay("HOT_WATER")
  {
    assert "Heating Zone"[0] != "AC Zone"[0];
    assert "Heating Zone"[0] != "Hot Water Zone"[1];
    assert "AC Zone"[0] != "Hot Water Zone"[0];
  }

  /** A device as the zones file lists it; either field may be missing. */
  datatype Device = Device(deviceType: Option<string>, serial: Option<string>)

  /** A zone as the zones file lists it, its id already rendered as text. */
  datatype ZoneInfo = ZoneInfo(id: string, devices: seq<Device>)

  /** The first zone with the given id. */
  function FindZone(zones: seq<ZoneInfo>, zoneId: string): (r: Option<ZoneInfo>)
    ensures r.None? <==> forall z :: z in zones ==> z.id != zoneId
    ensures r.Some? ==> exists i :: 0 <= i < |zones| && zones[i] == r.value && r.value.id == zoneId
                          && forall k :: 0 <= k < i ==> zones[k].id != zoneId
  {
    if |zones| == 0 then None
    else if zones[0].id == zoneId then Some(zones[0])
    else
      var r := FindZone(zones[1..], zoneId);
      if r.Some? then
        var i :| 0 <= i < |zones[1..]| && zones[1..][i] == r.value && r.value.id == zoneId
                 && forall k :: 0 <= k < i ==> zones[1..][k].id != zoneId;
        assert zones[i + 1] == r.value;
        assert forall k :: 0 <= k < i + 1 ==> zones[k].id != zoneId by {
          forall k | 0 <= k < i + 1 ensures zones[k].id != zoneId {
            if k > 0 { assert zones[k] == zones[1..][k - 1]; }
          }
        }
        r
      else
        assert forall z :: z in zones[1..] ==> z.id != zoneId;
        assert forall z :: z in zones ==> z == zones[0] || z in zones[1..];
        r
  }

  /** The devices of the given type, in file order. */
  function SameType(devices: seq<Device>, deviceType: string): (r: seq<Device>)
    ensures forall d :: d in r <==> d in devices && d.deviceType == Some(deviceType)
    ensures |r| <= |devices|
  {
    if |devices| == 0 then []
    else
      var rest := SameType(devices[1..], deviceType);
      assert forall d :: d in devices <==> d == devices[0] || d in devices[1..];
      if devices[0].deviceType == Some(deviceType) then [devices[0]] + rest else rest
  }

  /** Filtering a list made of two parts filters each part in turn, so the
      devices kept stay in file order. */
  lemma {:induction false} SameTypeAppend(a: seq<Device>, b: seq<Device>, deviceType: string)
    ensures SameType(a + b, deviceType) == SameType(a, deviceType) + SameType(b, deviceType)
  {
    if |a| == 0 {
      assert a + b == b;
    } else {
      assert (a + b)[1..] == a[1..] + b;
      SameTypeAppend(a[1..], b, deviceType);
    }
  }

  /** The 1-based position of the first device with the given serial. */
  function Position(devices: seq<Device>, serial: string): (r: Option<nat>)
    ensures r.None? <==> forall i :: 0 <= i < |devices| ==> devices[i].serial != Some(serial)
    ensures r.Some? ==> 1 <= r.value <= |devices| && devices[r.value - 1].serial == Some(serial)
                        && forall i :: 0 <= i < r.value - 1 ==> devices[i].serial != Some(serial)
  {
    if |devices| == 0 then None
    else if devices[0].serial == Some(serial) then Some(1)
    else
      var r := Position(devices[1..], serial);
      assert forall i :: 1 <= i < |devices| ==> devices[i] == devices[1..][i - 1];
      if r.Some? then Some(r.value + 1) else None
  }

  /** `get_device_name_suffix`: nothing for an unknown zone or a zone with
      at most one device; the type alone when the zone has at most one
      device of this type or the serial is not among them; otherwise the
      type with the serial's 1-based position among the devices of its
      type. */
  function DeviceNameSuffix(zoneId: string, serial: string, deviceType: string, zones: seq<ZoneInfo>): (suffix: string)
    ensures suffix == "" || (|suffix| > |deviceType| && suffix[..|deviceType| + 1] == " " + deviceType)
  {
    var zone := FindZone(zones, zoneId);
    if zone.None? || |zone.value.devices| <= 1 then ""
    else
      var same := SameType(zone.value.devices, deviceType);
      if |same| > 1 then
        var index := Position(same, serial);
        if index.Some? then " " + deviceType + " (" + NatToString(index.value) + ")"
        else " " + deviceType
      else " " + deviceType
  }

  /** The suffix is empty exactly for an unknown zone or a zone with at
      most one device. */
  lemma SuffixEmptyIff(zoneId: string, serial: string, deviceType: string, zones: seq<ZoneInfo>)
    ensures DeviceNameSuffix(zoneId, serial, deviceType, zones) == "" <==>
              FindZone(zones, zoneId).None? || |FindZone(zones, zoneId).value.devices| <= 1
  {
    var s := DeviceNameSuffix(zoneId, serial, deviceType, zones);
    if s != "" {
      assert s[0] == ' ';
    }
  }

  /** A type with at most one device in a zone of several gives the type
      alone. */
  lemma UniqueTypeSuffix(zoneId: string, serial: string, deviceType: string, zones: seq<ZoneInfo>)
    requires FindZone(zones, zoneId).Some? && |FindZone(zones, zoneId).value.devices| > 1
    requires |SameType(FindZone(zones, zoneId).value.devices, deviceType)| <= 1
    ensures DeviceNameSuffix(zoneId, serial, deviceType, zones) == " " + deviceType
  {
  }

  /** `" T (" + a + ")"` determines the digit run `a`. */
  lemma IndexedTextInjective(t: string, a: string, b: string)
    requires AllDigits(a) && AllDigits(b)
    requires " " + t + " (" + a + ")" == " " + t + " (" + b + ")"
    ensures a == b
  {
    var p := " " + t + " (";
    assert " " + t + " (" + a + ")" == p + a + ")";
    assert " " + t + " (" + b + ")" == p + b + ")";
    assert |a| == |b|;
    assert a == (p + a + ")")[|p|..|p| + |a|];
    assert b == (p + b + ")")[|p|..|p| + |b|];
  }

  /** `" T (" + str(i) + ")"` determines `i`. */
  lemma IndexedSuffixInjective(t: string, i: nat, j: nat)
    requires i != j
    ensures " " + t + " (" + NatToString(i) + ")" != " " + t + " (" + NatToString(j) + ")"
  {
    if " " + t + " (" + NatToString(i) + ")" == " " + t + " (" + NatToString(j) + ")" {
      IndexedTextInjective(t, NatToString(i), NatToString(j));
      NatToStringRoundTrip(i);
      NatToStringRoundTrip(j);
    }
  }

  /** The suffix of a serial found among several devices of its type
      in a zone of several devices: the type with the serial's position. */
  lemma IndexedSuffix(zoneId: string, serial: string, deviceType: string, zones: seq<ZoneInfo>)
    requires FindZone(zones, zoneId).Some?
    requires var same := SameType(FindZone(zones, zoneId).value.devices, deviceType);
             |same| > 1 && Position(same, serial).Some?
    ensures var same := SameType(FindZone(zones, zoneId).value.devices, deviceType);
            DeviceNameSuffix(zoneId, serial, deviceType, zones)
              == " " + deviceType + " (" + NatToString(Position(same, serial).value) + ")"
  {
    var devices := FindZone(zones, zoneId).value.devices;
    assert |SameType(devices, deviceType)| <= |devices|;
  }

  /** A serial that is not among the several devices of its type gets the
      type alone. */
  lemma NotFoundSuffix(zoneId: string, serial: string, deviceType: string, zones: seq<ZoneInfo>)
    requires FindZone(zones, zoneId).Some?
    requires var same := SameType(FindZone(zones, zoneId).value.devices, deviceType);
             |same| > 1 && Position(same, serial).None?
    ensures DeviceNameSuffix(zoneId, serial, deviceType, zones) == " " + deviceType
  {
    var devices := FindZone(zones, zoneId).value.devices;
    assert |SameType(devices, deviceType)| <= |devices|;
  }

  /** Two different serials found in one list sit at different positions. */
  lemma DistinctPositions(devices: seq<Device>, s1: string, s2: string)
    requires s1 != s2 && Position(devices, s1).Some? && Position(devices, s2).Some?
    ensures Position(devices, s1).value != Position(devices, s2).value
  {
    var p1, p2 := Position(devices, s1).value, Position(devices, s2).value;
    assert devices[p1 - 1].serial == Some(s1) && devices[p2 - 1].serial == Some(s2);
  }

  /** Two different serials, both among several devices of one type in a
      zone, get different suffixes. */
  lemma DistinctSerialsDistinctSuffixes(zoneId: string, s1: string, s2: string, deviceType: string, zones: seq<ZoneInfo>)
    requires s1 != s2
    requires FindZone(zones, zoneId).Some?
    requires var same := SameType(FindZone(zones, zoneId).value.devices, deviceType);
             |same| > 1 && Position(same, s1).Some? && Position(same, s2).Some?
    ensures DeviceNameSuffix(zoneId, s1, deviceType, zones) != DeviceNameSuffix(zoneId, s2, deviceType, zones)
  {
    var same := SameType(FindZone(zones, zoneId).value.devices, deviceType);
    DistinctPositions(same, s1, s2);
    var p1, p2 := Position(same, s1).value, Position(same, s2).value;
    IndexedSuffix(zoneId, s1, deviceType, zones);
    IndexedSuffix(zoneId, s2, deviceType, zones);
    IndexedSuffixInjective(deviceType, p1, p2);
  }

  /** The home id cached by the integration, read once from the
      configuration file. */
  class HomeIdCache {
    /** None until loaded; also None when the file holds a null home id. */
    var cached: Option<string>

    constructor ()
      ensures cached.None?
      ensures HomeId() == "unknown"
    {
      cached := None;
    }

    /** `get_home_id`: the cached value, "unknown" when there is none. */
    function HomeId(): (id: string)
      reads this
      ensures cached.Some? ==> id == cached.value
      ensures cached.None? ==> id == "unknown"
    {
      cached.GetOr("unknown")
    }

    /** `load_home_id`: `config` is the parsed configuration file, None
        when it cannot be read; a null home id is cached as None. */
    method LoadHomeId(config: Option<map<string, Option<string>>>) returns (homeId: Option<string>)
      modifies this
      ensures config.None? ==> homeId == Some("unknown")
      ensures config.Some? && "home_id" !in config.value ==> homeId == Some("unknown")
      ensures config.Some? && "home_id" in config.value ==> homeId == config.value["home_id"]
      ensures cached == homeId
      ensures HomeId() == homeId.GetOr("unknown")
    {
      if config.None? {
        cached := Some("unknown");
        return Some("unknown");
      }
      homeId := if "home_id" in config.value then config.value["home_id"] else Some("unknown");
      cached := homeId;
    }
  }
}
