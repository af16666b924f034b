/** The synchronous Tado client: reading the rate-limit headers, turning
    them into the persisted quota status, naming the call type of an
    endpoint, classifying HTTP failures and choosing the endpoints of a
    sync. Time is integer seconds; HTTP outcomes are inputs. */
module TadoApi {
  import opened Common
  import opened CallTracker

  // ---------------------------------------------------------------------
  // Rate-limit headers: `ratelimit-policy: "perday";q=5000;w=86400` and
  // `ratelimit: "perday";r=0;t=5904`.

  datatype RateLimit = RateLimit(limit: Option<int>, remaining: Option<int>, resetSeconds: Option<int>)

  /** `int(text.split(key)[1].split(";")[0])` guarded by `key in text`;
      None stands for the absent key and for the swallowed ValueError or
      IndexError. */
  function HeaderField(text: string, key: string): (r: Option<int>)
    requires |key| > 0
    ensures r.Some? ==> Contains(text, key)
    ensures !Contains(text, key) ==> r.None?
  {
    if !Contains(text, key) then None
    else
      var parts := Split(text, key);
      if |parts| < 2 then None
      else
        match ParseInt(Strip(Split(parts[1], ";")[0]))
        case Some(v) => Some(v)
        case None => None
  }

  /** A parsed field replaces the stored one; a failed parse keeps it. */
  function Refreshed(stored: Option<int>, parsed: Option<int>): (r: Option<int>)
    ensures parsed.Some? ==> r == parsed
    ensures parsed.None? ==> r == stored
  {
    if parsed.Some? then parsed else stored
  }

  /** The text after the first `key` runs up to the next one. */
  lemma FieldAfterKey(a: string, key: string, v: string, tail: string)
    requires NoStartIn(a, key) && key[0] !in v
    ensures |Split(a + key + v + tail, key)| >= 2
    ensures Split(a + key + v + tail, key)[1] == v + Split(tail, key)[0]
  {
    assert a + key + v + tail == a + key + (v + tail);
    SplitAfter(a, key, v + tail);
    SplitFirstPrefix(v, tail, key);
  }

  /** Digits followed by nothing or by a `;` parameter: the first
      `;`-field is the digits. */
  lemma DigitsBeforeSemicolon(v: string, tail: string, key: string)
    requires |key| > 0 && key[0] != ';' && ';' !in v
    requires tail == [] || tail[0] == ';'
    ensures Split(v + Split(tail, key)[0], ";")[0] == v
  {
    if tail == [] {
      assert Split(tail, key) == [[]];
      assert v + [] == v;
      SplitNoSeparator(v, ";");
    } else {
      assert tail == ";" + tail[1..];
      SplitFirstPrefix(";", tail[1..], key);
      var after := Split(tail[1..], key)[0];
      assert v + Split(tail, key)[0] == v + ";" + after;
      SplitAfter(v, ";", after);
    }
  }

  /** The stored rate limit after reading both headers: `q=` from the
      policy header, `r=` and `t=` from the rate-limit header (an absent
      header is the empty string). */
  function ParsedHeaders(rl: RateLimit, policy: string, ratelimit: string): RateLimit {
    RateLimit(Refreshed(rl.limit, HeaderField(policy, "q=")),
              Refreshed(rl.remaining, HeaderField(ratelimit, "r=")),
              Refreshed(rl.resetSeconds, HeaderField(ratelimit, "t=")))
  }

  /** A field `key` followed by a value free of `;` and of the key's first
      character, then either the end of the header or another
      `;`-separated parameter, reads as `int()` reads that value. */
  lemma HeaderFieldValue(a: string, key: string, v: string, tail: string)
    requires |key| >= 2 && NoStartIn(a, key) && key[0] != ';'
    requires key[0] !in v && ';' !in v
    requires tail == [] || tail[0] == ';'
    ensures HeaderField(a + key + v + tail, key) == ParseInt(Strip(v))
  {
    var text := a + key + v + tail;
    var parts := Split(text, key);
    assert Contains(text, key) by {
      assert text[|a|..|a| + |key|] == key;
      ContainsAt(text, key, |a|);
    }
    assert |parts| >= 2 && Split(parts[1], ";")[0] == v by {
      FieldAfterKey(a, key, v, tail);
      DigitsBeforeSemicolon(v, tail, key);
    }
  }

  /** A field `key` followed by plain digits, then either the end of the
      header or another `;`-separated parameter, reads as those digits. */
  lemma HeaderFieldReads(a: string, key: string, v: string, tail: string)
    requires |key| >= 2 && NoStartIn(a, key) && key[0] != ';' && !IsDigit(key[0])
    requires |v| > 0 && AllDigits(v)
    requires tail == [] || tail[0] == ';'
    ensures HeaderField(a + key + v + tail, key) == Some(DigitsValue(v))
  {
    DigitsLackLetter(v, key[0]);
    DigitsLackLetter(v, ';');
    HeaderFieldValue(a, key, v, tail);
    DigitsParse(v);
  }

  /** A minus sign before the digits is read as well, as `int()` does, so
      `r=-1` replaces the stored remaining count with -1. */
  lemma SignedHeaderFieldReads(a: string, key: string, v: string, tail: string)
    requires |key| >= 2 && NoStartIn(a, key) && key[0] != ';' && key[0] != '-' && !IsDigit(key[0])
    requires |v| > 0 && AllDigits(v)
    requires tail == [] || tail[0] == ';'
    ensures HeaderField(a + key + "-" + v + tail, key) == Some(-(DigitsValue(v) as int))
  {
    var w := "-" + v;
    assert key[0] !in w && ';' !in w by {
      DigitsLackLetter(v, key[0]);
      DigitsLackLetter(v, ';');
    }
    assert a + key + "-" + v + tail == a + key + w + tail;
    HeaderFieldValue(a, key, w, tail);
    NegativeDigitsParse(v);
  }

  /** The headers Tado sends in practice read as limit 5000, remaining 0
      and 5904 seconds until the reset. */
  lemma FourDigits(s: string)
    requires |s| == 4 && AllDigits(s)
    ensures DigitsValue(s) == 1000 * DigitValue(s[0]) + 100 * DigitValue(s[1]) + 10 * DigitValue(s[2]) + DigitValue(s[3])
  {
    assert s[..3][..2] == s[..2] && s[..2][..1] == s[..1] && s[..1][..0] == [];
    assert DigitsValue(s[..1]) == DigitValue(s[0]);
    assert DigitsValue(s[..2]) == 10 * DigitValue(s[0]) + DigitValue(s[1]);
    assert DigitsValue(s[..3]) == 100 * DigitValue(s[0]) + 10 * DigitValue(s[1]) + DigitValue(s[2]);
  }

  /** Tado's policy header announces a daily limit of 5000. */
  lemma PolicyHeaderExample(policy: string)
    requires policy == "\"perday\";q=5000;w=86400"
    ensures HeaderField(policy, "q=") == Some(5000)
  {
    var a, key, v, tail := "\"perday\";", "q=", "5000", ";w=86400";
    assert policy == a + key + v + tail;
    HeaderFieldReads(a, key, v, tail);
    FourDigits(v);
  }

  /** Tado's rate-limit header: nothing remaining, reset in 5904 s. */
  lemma RatelimitHeaderExample(ratelimit: string)
    requires ratelimit == "\"perday\";r=0;t=5904"
    ensures HeaderField(ratelimit, "r=") == Some(0)
    ensures HeaderField(ratelimit, "t=") == Some(5904)
  {
    RemainingFieldExample(ratelimit);
    ResetFieldExample(ratelimit);
  }

  /** The `r=` field of Tado's rate-limit header. */
  lemma RemainingFieldExample(ratelimit: string)
    requires ratelimit == "\"perday\";r=0;t=5904"
    ensures HeaderField(ratelimit, "r=") == Some(0)
  {
    var a, key, v, tail := "\"perday\";", "r=", "0", ";t=5904";
    assert ratelimit == a + key + v + tail;
    HeaderFieldReads(a, key, v, tail);
    assert v[..0] == [];
  }

  /** The `t=` field of Tado's rate-limit header. */
  lemma ResetFieldExample(ratelimit: string)
    requires ratelimit == "\"perday\";r=0;t=5904"
    ensures HeaderField(ratelimit, "t=") == Some(5904)
  {
    var a, key, v, tail := "\"perday\";r=0;", "t=", "5904", "";
    assert ratelimit == a + key + v + tail;
    HeaderFieldReads(a, key, v, tail);
    FourDigits(v);
  }

  // ---------------------------------------------------------------------
  // Reset time and its human form

  const SecondsPerWindow := 86400

  /** The smallest timestamp among the calls. */
  function OldestTimestamp(calls: seq<CallRecord>): (t: int)
    requires |calls| > 0
    ensures exists i :: 0 <= i < |calls| && calls[i].timestamp == t
    ensures forall i :: 0 <= i < |calls| ==> t <= calls[i].timestamp
  {
    if |calls| == 1 then calls[0].timestamp
    else
      var rest := OldestTimestamp(calls[1..]);
      assert forall i :: 1 <= i < |calls| ==> calls[i] == calls[1..][i - 1];
      if calls[0].timestamp <= rest then calls[0].timestamp else rest
  }

  /** The oldest call of the recent history (yesterday's date on), when a
      tracker is present and has one. */
  function OldestCall(recentHistory: Option<seq<CallRecord>>): Option<int> {
    if recentHistory.Some? && |recentHistory.value| > 0 then Some(OldestTimestamp(recentHistory.value)) else None
  }

  /** A positive number of seconds to a moment, or None once it has passed. */
  function SecondsUntil(moment: int, now: int): (r: Option<int>)
    ensures r.Some? <==> moment > now
    ensures r.Some? ==> r.value > 0 && now + r.value == moment
  {
    if moment - now > 0 then Some(moment - now) else None
  }

  /** The three reset-time strategies, the first that applies winning:
      the header's positive value; else a day after the last detected
      reset, when still ahead; then, if nothing yet, a day after the
      oldest call of the recent history, when still ahead. */
  function ResetEstimate(header: Option<int>, lastReset: Option<int>, oldestCall: Option<int>, now: int): (r: Option<int>)
    ensures r.Some? ==> r.value > 0
                        && (r == header
                            || (lastReset.Some? && now + r.value == lastReset.value + SecondsPerWindow)
                            || (oldestCall.Some? && now + r.value == oldestCall.value + SecondsPerWindow))
  {
    var fromHeaderOrReset :=
      if header.Some? && header.value > 0 then header
      else if lastReset.Some? then SecondsUntil(lastReset.value + SecondsPerWindow, now)
      else None;
    if fromHeaderOrReset.None? && oldestCall.Some? then SecondsUntil(oldestCall.value + SecondsPerWindow, now)
    else fromHeaderOrReset
  }

  /** Precedence of the strategies: a positive header value is always used,
      a future reset-based value beats the call history, and None means
      no strategy applied. */
  lemma ResetPrecedence(header: Option<int>, lastReset: Option<int>, oldestCall: Option<int>, now: int)
    ensures header.Some? && header.value > 0 ==> ResetEstimate(header, lastReset, oldestCall, now) == header
    ensures !(header.Some? && header.value > 0) && lastReset.Some? && lastReset.value + SecondsPerWindow > now
            ==> ResetEstimate(header, lastReset, oldestCall, now) == Some(lastReset.value + SecondsPerWindow - now)
    ensures ResetEstimate(header, lastReset, oldestCall, now).None? <==>
            !(header.Some? && header.value > 0)
            && !(lastReset.Some? && lastReset.value + SecondsPerWindow > now)
            && !(oldestCall.Some? && oldestCall.value + SecondsPerWindow > now)
  {
  }

  /** `f"{h}h {m}m"` when there is at least an hour, else `f"{m}m"`, with
      whole hours and the whole minutes left over. */
  function HoursMinutes(seconds: nat): (s: string)
    ensures |s| > 0 && s[|s| - 1] == 'm'
  {
    var hours := seconds / 3600;
    var mins := (seconds % 3600) / 60;
    if hours > 0 then NatToString(hours) + "h " + NatToString(mins) + "m"
    else NatToString(mins) + "m"
  }

  /** A known reset never displays as "unknown". */
  lemma HoursMinutesKnown(seconds: nat)
    ensures HoursMinutes(seconds) != "unknown"
  {
    assert "unknown"[6] == 'n';
  }

  /** Reads back a `"Hh Mm"` or `"Mm"` text as a number of minutes. */
  function ParseHoursMinutes(s: string): Option<nat> {
    if |s| == 0 || s[|s| - 1] != 'm' then None
    else HoursMinutesFields(Split(s[..|s| - 1], "h "))
  }

  /** The minutes read from the fields around `"h "`: minutes alone, or
      hours then minutes. */
  function HoursMinutesFields(parts: seq<string>): Option<nat> {
    if |parts| == 1 then ParseNat(parts[0])
    else if |parts| == 2 then
      var h := ParseNat(parts[0]);
      var m := ParseNat(parts[1]);
      if h.Some? && m.Some? then Some(h.value * 60 + m.value) else None
    else None
  }

  lemma DigitsLackLetter(s: string, c: char)
    requires AllDigits(s) && !IsDigit(c)
    ensures c !in s
  {
    forall i | 0 <= i < |s| ensures s[i] != c {
      assert IsDigit(s[i]);
    }
  }

  /** `"{m}m"` reads back as the minutes. */
  lemma MinutesTextParses(m: string)
    requires |m| > 0 && AllDigits(m)
    ensures ParseHoursMinutes(m + "m") == Some(DigitsValue(m))
  {
    DigitsLackLetter(m, 'h');
    SplitNoSeparator(m, "h ");
    assert (m + "m")[..|m|] == m;
  }

  /** Two digit fields read as hours and minutes. */
  lemma DigitFieldsRead(h: string, m: string)
    requires |h| > 0 && AllDigits(h) && |m| > 0 && AllDigits(m)
    ensures HoursMinutesFields([h, m]) == Some(DigitsValue(h) * 60 + DigitsValue(m))
  {
  }

  /** A text ending in `m` reads as the fields of what comes before. */
  lemma ReadBackBody(body: string, parts: seq<string>)
    requires Split(body, "h ") == parts
    ensures ParseHoursMinutes(body + "m") == HoursMinutesFields(parts)
  {
    var s := body + "m";
    assert s[|s| - 1] == 'm' && s[..|s| - 1] == body;
  }

  /** `"{h}h {m}"` splits at its one `"h "`. */
  lemma HoursMinutesTextSplits(h: string, m: string)
    requires AllDigits(h) && AllDigits(m)
    ensures Split(h + "h " + m, "h ") == [h, m]
  {
    DigitsLackLetter(h, 'h');
    DigitsLackLetter(m, 'h');
    SplitAfter(h, "h ", m);
    SplitNoSeparator(m, "h ");
  }

  /** `"{h}h {m}m"` reads back as the hours and minutes in minutes. */
  lemma HoursMinutesTextParses(h: string, m: string)
    requires |h| > 0 && AllDigits(h) && |m| > 0 && AllDigits(m)
    ensures ParseHoursMinutes(h + "h " + m + "m") == Some(DigitsValue(h) * 60 + DigitsValue(m))
  {
    HoursMinutesTextSplits(h, m);
    ReadBackBody(h + "h " + m, [h, m]);
    DigitFieldsRead(h, m);
  }

  /** The whole minutes are the whole hours' minutes and the minutes
      left over. */
  lemma WholeMinutes(seconds: nat)
    ensures seconds / 60 == (seconds / 3600) * 60 + (seconds % 3600) / 60
  {
    var q, r := seconds / 3600, seconds % 3600;
    assert seconds == 3600 * q + r;
    assert seconds == 60 * (60 * q + r / 60) + r % 60;
  }

  /** The display keeps the whole minutes until the reset: reading it back
      gives `seconds div 60`. */
  lemma HoursMinutesRoundTrip(seconds: nat)
    ensures ParseHoursMinutes(HoursMinutes(seconds)) == Some(seconds / 60)
  {
    var hours := seconds / 3600;
    var mins := (seconds % 3600) / 60;
    assert seconds / 60 == hours * 60 + mins by { WholeMinutes(seconds); }
    var h, m := NatToString(hours), NatToString(mins);
    if hours > 0 {
      assert ParseHoursMinutes(h + "h " + m + "m") == Some(hours * 60 + mins) by {
        NatToStringRoundTrip(mins);
        NatToStringRoundTrip(hours);
        HoursMinutesTextParses(h, m);
      }
    } else {
      assert ParseHoursMinutes(m + "m") == Some(mins) by {
        NatToStringRoundTrip(mins);
        MinutesTextParses(m);
      }
    }
  }

  /** `round(n / d)` for a positive divisor: the nearest integer, ties to
      the even neighbour, as Python rounds. */
  function RoundHalfEven(n: int, d: int): (r: int)
    requires d > 0
    ensures -d <= 2 * n - 2 * d * r <= d
    ensures (2 * n - 2 * d * r == d || 2 * n - 2 * d * r == -d) ==> r % 2 == 0
  {
    var q := n / d;
    var rem := n % d;
    assert n == d * q + rem;
    if 2 * rem < d then q
    else if 2 * rem > d then q + 1
    else if q % 2 == 0 then q
    else q + 1
  }

  /** Used share of the quota in whole percent, 0 for a non-positive limit. */
  function Percentage(used: int, limit: int): int {
    if limit > 0 then RoundHalfEven(used * 100, limit) else 0
  }

  /** The rounded percentage exceeds 80 exactly when more than 80.5% of the
      quota is used. */
  lemma WarningThreshold(used: int, limit: int)
    requires limit > 0
    ensures Percentage(used, limit) > 80 <==> 200 * used > 161 * limit
  {
    var r := Percentage(used, limit);
    var n := used * 100;
    var d := limit;
    assert -d <= 2 * n - 2 * d * r <= d;
    if r >= 81 {
      ScaleMonotone(2 * d, 81, r);
      if 2 * n == 161 * d {
        assert 2 * n - 2 * d * r == -d;
        ScaleCancel(2 * d, r, 81);
      }
    } else {
      ScaleMonotone(2 * d, r, 80);
    }
  }

  lemma ScaleMonotone(d: int, x: int, y: int)
    requires d > 0 && x <= y
    ensures d * x <= d * y
  {
    assert d * y - d * x == d * (y - x);
  }

  lemma ScaleCancel(d: int, x: int, y: int)
    requires d > 0 && d * x == d * y
    ensures x == y
  {
    assert d * (x - y) == 0;
    if x > y { ScaleMonotone(d, 1, x - y); }
    if x < y { ScaleMonotone(d, 1, y - x); }
  }

  /** The status written to the file: a drained quota is "rate_limited",
      more than 80% used is "warning", anything else keeps the caller's
      status. Only judged when the limit is known and nonzero and the
      remaining count is known. */
  function RateStatus(limit: Option<int>, remaining: Option<int>, status: string): (r: string)
    ensures r in {"rate_limited", "warning", status}
    ensures limit.None? || limit == Some(0) || remaining.None? ==> r == status
    ensures r == "rate_limited" && status != "rate_limited" ==> remaining == Some(0)
  {
    if limit.Some? && limit.value != 0 && remaining.Some? then
      if remaining.value == 0 then "rate_limited"
      else if Percentage(limit.value - remaining.value, limit.value) > 80 then "warning"
      else status
    else status
  }

  lemma RateStatusCases(limit: int, remaining: int, status: string)
    requires limit > 0
    ensures remaining == 0 ==> RateStatus(Some(limit), Some(remaining), status) == "rate_limited"
    ensures remaining != 0 && 200 * (limit - remaining) > 161 * limit
            ==> RateStatus(Some(limit), Some(remaining), status) == "warning"
    ensures remaining != 0 && 200 * (limit - remaining) <= 161 * limit
            ==> RateStatus(Some(limit), Some(remaining), status) == status
  {
    WarningThreshold(limit - remaining, limit);
  }

  /** A reset is recognised when the remaining count rose by more than 100;
      a count that stayed or fell, or an unknown one, is never a reset. */
  predicate ResetDetected(prevRemaining: Option<int>, currentRemaining: Option<int>)
    ensures ResetDetected(prevRemaining, currentRemaining) ==>
              prevRemaining.Some? && currentRemaining.Some? && currentRemaining.value > prevRemaining.value
  {
    prevRemaining.Some? && currentRemaining.Some? && currentRemaining.value > prevRemaining.value + 100
  }

  /** The fields read back from the previous rate-limit file (both None
      when there is no file or it cannot be read). */
  datatype PreviousSave = PreviousSave(remaining: Option<int>, lastResetUtc: Option<int>)

  /** The record written to the rate-limit file; times are seconds. */
  datatype SavedRatelimit = SavedRatelimit(
    limit: Option<int>, remaining: Option<int>, resetSeconds: Option<int>,
    resetHuman: string, resetAt: Option<int>, used: Option<int>,
    percentageUsed: Option<int>, lastUpdated: int, lastResetUtc: Option<int>,
    status: string, error: Option<string>)

  // ---------------------------------------------------------------------
  // Call types and HTTP failures

  /** The endpoint fragment that selects each call type, in the order the
      client tests them. */
  function CallKeyword(callType: int): string
    requires CallZoneStates <= callType <= CallHomeState
  {
    match callType
    case 1 => "zoneStates"
    case 2 => "weather"
    case 3 => "zones"
    case 4 => "mobileDevices"
    case 5 => "overlay"
    case 6 => "presenceLock"
    case 7 => "state"
  }

  /** The call type of an endpoint: the first keyword it contains. */
  function DetectCallType(endpoint: string): (r: Option<int>)
    ensures r.Some? ==> CallZoneStates <= r.value <= CallHomeState
                        && Contains(endpoint, CallKeyword(r.value))
                        && forall k :: CallZoneStates <= k < r.value ==> !Contains(endpoint, CallKeyword(k))
    ensures r.None? ==> forall k :: CallZoneStates <= k <= CallHomeState ==> !Contains(endpoint, CallKeyword(k))
  {
    if Contains(endpoint, "zoneStates") then Some(CallZoneStates)
    else if Contains(endpoint, "weather") then Some(CallWeather)
    else if Contains(endpoint, "zones") then Some(CallZones)
    else if Contains(endpoint, "mobileDevices") then Some(CallMobileDevices)
    else if Contains(endpoint, "overlay") then Some(CallOverlay)
    else if Contains(endpoint, "presenceLock") then Some(CallPresenceLock)
    else if Contains(endpoint, "state") then Some(CallHomeState)
    else None
  }

  /** An overlay request under a zone counts as a zones call. */
  lemma OverlayEndpointCountsAsZones(endpoint: string)
    requires endpoint == "zones/3/overlay"
    ensures DetectCallType(endpoint) == Some(CallZones)
  {
    MissingCharNotContained(endpoint, "zoneStates", 'S');
    MissingCharNotContained(endpoint, "weather", 'w');
    assert endpoint[0..5] == "zones";
    ContainsAt(endpoint, "zones", 0);
  }

  datatype ApiError =
    | RateLimitError(message: string)
    | AuthenticationError(message: string)
    | TadoAPIError(message: string)

  /** What the transport produced for one request; bodies are uninterpreted text. */
  datatype Transport =
    | Response(status: int, body: string)
    | HttpFailure(code: int, body: string)
    | NetworkFailure(reason: string)

  datatype HttpResult = Ok(status: int, body: string) | Failed(error: ApiError)

  /** The exception `_http_request` raises for an HTTP error status. */
  function HttpFailureError(code: int, body: string): (e: ApiError)
    ensures e.RateLimitError? <==> code == 429
    ensures e.AuthenticationError? <==> (code == 401 || code == 403)
    ensures e.TadoAPIError? ==> e.message == "HTTP " + IntToString(code) + ": " + body
  {
    if code == 429 then RateLimitError("Rate limit exceeded: " + body)
    else if code == 401 || code == 403 then AuthenticationError("Authentication failed: " + body)
    else TadoAPIError("HTTP " + IntToString(code) + ": " + body)
  }

  /** The status recorded for a failed call, read off its message. */
  function FailedCallStatus(message: string): (status: int)
    ensures status == 401 <==> (Contains(message, "401") || Contains(message, "403"))
    ensures status == 429 <==> (!Contains(message, "401") && !Contains(message, "403") && Contains(message, "429"))
    ensures status == 500 <==> !(Contains(message, "401") || Contains(message, "403") || Contains(message, "429"))
  {
    if Contains(message, "401") || Contains(message, "403") then 401
    else if Contains(message, "429") then 429
    else 500
  }

  /** As written, a failed call is recorded only when the exception is a
      `TadoAPIError`; the rate-limit and authentication errors are separate
      classes and propagate unrecorded. */
  function RecordedFailureAsWritten(e: ApiError): (status: Option<int>)
    ensures status.Some? <==> e.TadoAPIError?
  {
    if e.TadoAPIError? then Some(FailedCallStatus(e.message)) else None
  }

  /** A request refused with 429 or 401/403 leaves no trace in the call
      history as written. */
  lemma RefusedCallsUnrecorded(code: int, body: string)
    requires code == 429 || code == 401 || code == 403
    ensures RecordedFailureAsWritten(HttpFailureError(code, body)).None?
  {
  }

  /** Every failed call is recorded, 429 as 429 and 401/403 as 401. */
  function RecordedFailure(e: ApiError): (status: int)
    ensures e.RateLimitError? ==> status == 429
    ensures e.AuthenticationError? ==> status == 401
    ensures e.TadoAPIError? ==> status == FailedCallStatus(e.message)
  {
    match e
    case RateLimitError(_) => 429
    case AuthenticationError(_) => 401
    case TadoAPIError(m) => FailedCallStatus(m)
  }

  lemma RefusedCallsRecorded(code: int, body: string)
    requires code == 429 || code == 401 || code == 403
    ensures RecordedFailure(HttpFailureError(code, body)) == (if code == 429 then 429 else 401)
  {
  }

  // ---------------------------------------------------------------------
  // Sync

  /** The endpoints a sync requests, in order, when every call succeeds. */
  function SyncEndpoints(quick: bool, weatherEnabled: bool, mobileEnabled: bool): (eps: seq<string>)
    ensures |eps| > 0 && eps[0] == "zoneStates" && "state" in eps
    ensures "weather" in eps <==> weatherEnabled
    ensures "zones" in eps <==> !quick
    ensures "mobileDevices" in eps <==> (!quick && mobileEnabled)
    ensures |eps| == 2 + (if weatherEnabled then 1 else 0) + (if quick then 0 else 1 + (if mobileEnabled then 1 else 0))
  {
    ["zoneStates"]
    + (if weatherEnabled then ["weather"] else [])
    + ["state"]
    + (if quick then [] else ["zones"] + (if mobileEnabled then ["mobileDevices"] else []))
  }

  /** How a call of the sync fails: `api_call` raises a `TadoAPIError`,
      which the sync catches; it returns None, because the error handler
      swallowed the failure; or it raises a rate-limit or authentication
      error, which the sync does not catch. */
  datatype FailureKind = ApiError(message: string) | NoneReturned | Uncaught

  /** The first failing call of a sync, by its position among the
      endpoints, and how it fails. */
  datatype SyncFailure = SyncFailure(index: nat, kind: FailureKind)

  /** A sync either returns, having saved the rate limit with a status, or
      raises out of `sync` without saving. */
  datatype SyncOutcome =
    | Returned(requested: seq<string>, succeeded: bool, status: string, error: Option<string>)
    | Raises(requested: seq<string>)

  /** A sync requests endpoints until the first failure. A `TadoAPIError`
      saves "rate_limited" if its message mentions 429 and "error" with the
      message otherwise. A None reply is written out as it is: the weather
      needs nothing more, so the sync goes on, while every other reply is
      read at once and raises. A sync without failure saves "ok". */
  function Sync(quick: bool, weatherEnabled: bool, mobileEnabled: bool, failure: Option<SyncFailure>): (out: SyncOutcome)
    ensures var eps := SyncEndpoints(quick, weatherEnabled, mobileEnabled);
            var fails := failure.Some? && failure.value.index < |eps|;
            var i := if fails then failure.value.index else 0;
            (out.Returned? && out.succeeded <==>
               !fails || (failure.value.kind.NoneReturned? && eps[i] == "weather"))
            && (out.Returned? && out.succeeded ==> out.requested == eps && out.status == "ok" && out.error.None?)
            && (!(out.Returned? && out.succeeded) ==> fails && out.requested == eps[..i + 1])
            && (out.Raises? <==>
                  fails && (failure.value.kind.Uncaught? || (failure.value.kind.NoneReturned? && eps[i] != "weather")))
            && (fails && failure.value.kind.ApiError? ==>
                  out == Returned(eps[..i + 1], false,
                                  if Contains(failure.value.kind.message, "429") then "rate_limited" else "error",
                                  Some(if Contains(failure.value.kind.message, "429") then "rate_limited"
                                       else failure.value.kind.message)))
  {
    var eps := SyncEndpoints(quick, weatherEnabled, mobileEnabled);
    if failure.None? || failure.value.index >= |eps| then Returned(eps, true, "ok", None)
    else
      var f := failure.value;
      match f.kind
      case ApiError(message) =>
        if Contains(message, "429") then Returned(eps[..f.index + 1], false, "rate_limited", Some("rate_limited"))
        else Returned(eps[..f.index + 1], false, "error", Some(message))
      case NoneReturned =>
        if eps[f.index] == "weather" then Returned(eps, true, "ok", None) else Raises(eps[..f.index + 1])
      case Uncaught => Raises(eps[..f.index + 1])
  }

  /** With the error handler, a failed weather call still ends in a sync
      that saves "ok" and returns True. */
  lemma WeatherNoneStillSucceeds(quick: bool, mobileEnabled: bool)
    ensures Sync(quick, true, mobileEnabled, Some(SyncFailure(1, NoneReturned)))
              == Returned(SyncEndpoints(quick, true, mobileEnabled), true, "ok", None)
  {
    assert SyncEndpoints(quick, true, mobileEnabled)[1] == "weather";
  }

  /** A failed sync never requests more than a successful one would. */
  lemma SyncFailureRequestsPrefix(quick: bool, weatherEnabled: bool, mobileEnabled: bool, failure: Option<SyncFailure>)
    ensures Sync(quick, weatherEnabled, mobileEnabled, failure).requested <= SyncEndpoints(quick, weatherEnabled, mobileEnabled)
    ensures failure.Some? && failure.value.index == 0 ==> Sync(quick, weatherEnabled, mobileEnabled, failure).requested == ["zoneStates"]
  {
  }

  // ---------------------------------------------------------------------
  // The client

  class TadoClient {
    var rateLimit: RateLimit

    constructor ()
      ensures rateLimit == RateLimit(None, None, None)
    {
      rateLimit := RateLimit(None, None, None);
    }

    /** Reads `q=` from the policy header and `r=`, `t=` from the
        rate-limit header (an absent header is the empty string); a field
        that is missing or not an integer keeps its stored value. */
    method ParseRatelimitHeaders(policy: string, ratelimit: string)
      modifies this
      ensures rateLimit == ParsedHeaders(old(rateLimit), policy, ratelimit)
    {
      if Contains(policy, "q=") {
        var v := HeaderField(policy, "q=");
        if v.Some? { rateLimit := rateLimit.(limit := v); }
      }
      if Contains(ratelimit, "r=") {
        var v := HeaderField(ratelimit, "r=");
        if v.Some? { rateLimit := rateLimit.(remaining := v); }
      }
      if Contains(ratelimit, "t=") {
        var v := HeaderField(ratelimit, "t=");
        if v.Some? { rateLimit := rateLimit.(resetSeconds := v); }
      }
    }

    /** One request: the rate-limit headers are read on success and on an
        HTTP error (when asked to), never on a network failure; the
        outcome is classified as `_http_request` does. */
    method HttpRequest(outcome: Transport, policy: string, ratelimit: string, parseRatelimit: bool)
      returns (r: HttpResult)
      modifies this
      ensures r == match outcome
                   case Response(s, b) => Ok(s, b)
                   case HttpFailure(c, b) => Failed(HttpFailureError(c, b))
                   case NetworkFailure(reason) => Failed(TadoAPIError("Network error: " + reason))
      ensures parseRatelimit && !outcome.NetworkFailure? ==> rateLimit == ParsedHeaders(old(rateLimit), policy, ratelimit)
      ensures !parseRatelimit || outcome.NetworkFailure? ==> rateLimit == old(rateLimit)
    {
      match outcome {
        case Response(s, b) =>
          if parseRatelimit { ParseRatelimitHeaders(policy, ratelimit); }
          r := Ok(s, b);
        case HttpFailure(c, b) =>
          if parseRatelimit { ParseRatelimitHeaders(policy, ratelimit); }
          r := Failed(HttpFailureError(c, b));
        case NetworkFailure(reason) =>
          r := Failed(TadoAPIError("Network error: " + reason));
      }
    }

    /** Builds the rate-limit record from the parsed headers, the previous
        file, the tracker's `get_call_history(days=1)` (the calls of every
        date from yesterday's on, as `APICallTracker.GetCallHistory(1, now)`
        gives them; None without a tracker) and the caller's status and
        error. */
    method SaveRatelimit(prev: PreviousSave, recentHistory: Option<seq<CallRecord>>, now: int,
                         status: string, error: Option<string>)
      returns (data: SavedRatelimit)
      ensures data.limit == rateLimit.limit && data.remaining == rateLimit.remaining
      ensures data.lastResetUtc == (if ResetDetected(prev.remaining, rateLimit.remaining) then Some(now) else prev.lastResetUtc)
      ensures data.resetSeconds == ResetEstimate(rateLimit.resetSeconds, data.lastResetUtc, OldestCall(recentHistory), now)
      ensures data.resetSeconds.Some? ==> data.resetHuman == HoursMinutes(data.resetSeconds.value)
                                          && data.resetAt == Some(now + data.resetSeconds.value)
      ensures data.resetSeconds.None? ==> data.resetHuman == "unknown" && data.resetAt.None?
      ensures data.used.Some? <==> (rateLimit.limit.Some? && rateLimit.limit.value != 0 && rateLimit.remaining.Some?)
      ensures data.used.Some? ==> data.used.value == rateLimit.limit.value - rateLimit.remaining.value
                                  && data.percentageUsed == Some(Percentage(data.used.value, rateLimit.limit.value))
      ensures data.used.None? ==> data.percentageUsed.None?
      ensures data.status == RateStatus(rateLimit.limit, rateLimit.remaining, status)
      ensures data.lastUpdated == now && data.error == error
    {
      var lastReset := prev.lastResetUtc;
      if prev.remaining.Some? && rateLimit.remaining.Some? {
        if rateLimit.remaining.value > prev.remaining.value + 100 {
          lastReset := Some(now);
        }
      }
      var resetSeconds := CalculateResetSeconds(rateLimit.resetSeconds, lastReset, recentHistory, now);
      var resetHuman := "unknown";
      var resetAt: Option<int> := None;
      if resetSeconds.Some? {
        resetHuman := HoursMinutes(resetSeconds.value);
        resetAt := Some(now + resetSeconds.value);
      }
      var used, percentage, st := UsageStatus(rateLimit.limit, rateLimit.remaining, status);
      data := SavedRatelimit(rateLimit.limit, rateLimit.remaining, resetSeconds, resetHuman, resetAt, used,
                             percentage, now, lastReset, st, error);
    }
  }

  /** The reset-time strategies of `_save_ratelimit`, tried in turn; the
      result is None unless some strategy gives a positive number. */
  method CalculateResetSeconds(header: Option<int>, lastReset: Option<int>,
                               recentHistory: Option<seq<CallRecord>>, now: int)
    returns (calculated: Option<int>)
    ensures calculated == ResetEstimate(header, lastReset, OldestCall(recentHistory), now)
    ensures calculated.Some? ==> calculated.value > 0
  {
    calculated := None;
    if header.Some? && header.value > 0 {
      calculated := header;
    } else if lastReset.Some? {
      var untilReset := lastReset.value + SecondsPerWindow - now;
      if untilReset > 0 {
        calculated := Some(untilReset);
      }
    }
    if calculated.None? && recentHistory.Some? {
      var calls := recentHistory.value;
      if |calls| > 0 {
        var untilReset := OldestTimestamp(calls) + SecondsPerWindow - now;
        if untilReset > 0 {
          calculated := Some(untilReset);
        }
      }
    }
  }

  /** Used count, percentage and status, judged only when the limit is
      known and nonzero and the remaining count is known. */
  method UsageStatus(limit: Option<int>, remaining: Option<int>, status: string)
    returns (used: Option<int>, percentage: Option<int>, st: string)
    ensures used.Some? <==> (limit.Some? && limit.value != 0 && remaining.Some?)
    ensures used.Some? ==> used.value == limit.value - remaining.value
                           && percentage == Some(Percentage(used.value, limit.value))
    ensures used.None? ==> percentage.None?
    ensures st == RateStatus(limit, remaining, status)
  {
    used, percentage, st := None, None, status;
    if limit.Some? && limit.value != 0 && remaining.Some? {
      used := Some(limit.value - remaining.value);
      percentage := Some(Percentage(used.value, limit.value));
      if remaining.value == 0 {
        st := "rate_limited";
      } else if percentage.value > 80 {
        st := "warning";
      }
    }
  }
}
