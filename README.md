# tado CE — a Dafny model of its quota-aware core

tado CE is a Home Assistant integration for tado° heating, hot water and air
conditioning that polls the tado cloud API while staying within the daily
request quota the API announces. This project models, in Dafny, the parts of
the integration that decide how many calls are made, when, what happens when
they fail, and how the entities derive their state from the data fetched:

- `CallTracker` — the date-bucketed call history (`APICallTracker`): recording,
  filtered and sorted queries, per-type counts and retention cleanup.
- `TadoApi` — the synchronous client: parsing of the `RateLimit-Policy` and
  `RateLimit` headers of the IETF Internet-Draft
  draft-ietf-httpapi-ratelimit-headers, the rate-limit record with its
  three-strategy reset estimate, reset detection and status, call-type
  detection, HTTP error classification and the calls a sync makes.
- `AsyncApi` — the asynchronous client: its token cache and refresh (refresh
  token grant of section 6 of RFC 6749, with rotation), its own rate-limit
  record, the status handling of GET/PUT/POST/DELETE, the sync call selection
  and the client registry.
- `ImmediateRefresh` — the handler that refreshes after a user action: domain
  filter, quota gate, exponential backoff, spacing, one pending debounce and
  the failure counter.
- `ErrorHandler` — the bounded retry loop and the error predicates.
- `AuthManager` — the token cache with its failure counter, in-progress flag,
  invalidation and singleton.
- `Scheduler` — the polling schedule of the integration's entry point:
  day/night, interval table, quota warning, full-versus-quick sync,
  `HH:MM:SS` time periods and the choice among duplicate entries.
- `ConfigManager`, `ConfigFlow` — validators, clamped getters, the merge into
  the configuration file, `update_config`, and the options form's interval
  fields.
- `Button`, `DeviceManager`, `Calendar`, `Climate`, `WaterHeater`, `Sensor` —
  the entities: timer buttons, device-name suffixes, the schedule calendar,
  heating and air-conditioning climate entities, the hot-water entity and
  the diagnostic sensors.
- `Common` — Option, integer parsing (digits only, and `int()`'s blanks and
  sign) and formatting, splitting and
  stripping of strings.

Time is an integer number of seconds passed in as `now`; a date is the day
number `seconds div 86400`. HTTP responses, file contents and the outcome of
each request are parameters. State that the source keeps in object fields is
a Dafny `class` whose methods state the whole new state; the pure decisions
are functions, and the properties the code relies on are lemmas about them.

## Model

| member | source | states |
|---|---|---|
| CallTracker.TypeName | custom_components/tado_ce/api_call_tracker.py:17-33 | the name is "unknown" exactly for a type outside 1..7 |
| CallTracker.IndexOfDay | custom_components/tado_ce/api_call_tracker.py:171-178 | finds the first bucket of a date key, or reports that the date has none |
| CallTracker.WithCall | custom_components/tado_ce/api_call_tracker.py:171-183 | every existing day keeps its place, at most one day is added, and the new record sits in a bucket of its own day |
| CallTracker.WithCallLookup | custom_components/tado_ce/api_call_tracker.py:171-183 | recording a call appends it to the bucket of its own date, creating the bucket last when absent; every other date's calls and the key order are unchanged; keys stay distinct |
| CallTracker.WithCallAddsOne | custom_components/tado_ce/api_call_tracker.py:180-183 | the history as a whole gains exactly the one new record |
| CallTracker.Retained | custom_components/tado_ce/api_call_tracker.py:267-272 | never longer than the history, and every bucket at or after the cutoff is kept |
| CallTracker.RetainedLookup | custom_components/tado_ce/api_call_tracker.py:267-272 | after cleanup a date's calls are unchanged when the date is at or after the cutoff and gone otherwise |
| CallTracker.RetainedShape | custom_components/tado_ce/api_call_tracker.py:267-272 | every surviving bucket is at or after the cutoff and is an original bucket; distinct keys stay distinct |
| CallTracker.RetainedIdempotent | custom_components/tado_ce/api_call_tracker.py:267-272 | deleting the old keys a second time changes nothing |
| CallTracker.CleanupIdempotent | custom_components/tado_ce/api_call_tracker.py:261-282 | a cleanup applied twice at the same moment equals one cleanup, including retention 0 |
| CallTracker.CallsSinceWithin | custom_components/tado_ce/api_call_tracker.py:197-214 | the calls since a cutoff are drawn from the history: all of them when every day is at or after the cutoff, none when every day is before it |
| CallTracker.InsertByTime | custom_components/tado_ce/api_call_tracker.py:216 | inserting into a newest-first list keeps it newest-first and adds exactly that record |
| CallTracker.SortNewestFirst | custom_components/tado_ce/api_call_tracker.py:216 | the sort yields a newest-first permutation of its input |
| CallTracker.PrefixTo | custom_components/tado_ce/api_call_tracker.py:229 | Python's `[:limit]`: a prefix of length min(limit, total), a negative limit dropping that many from the end |
| CallTracker.PrefixKeepsOrder | custom_components/tado_ce/api_call_tracker.py:223-229 | a prefix of a newest-first list is newest-first and drawn from the list |
| CallTracker.TailNoNewer | custom_components/tado_ce/api_call_tracker.py:223-229 | in a newest-first list no call after a position is newer than one before it |
| CallTracker.PrefixKeepsNewest | custom_components/tado_ce/api_call_tracker.py:223-229 | cutting a newest-first list leaves out no call newer than one kept |
| CallTracker.OccurrencesPermutation | custom_components/tado_ce/api_call_tracker.py:233-238 | per-type counts do not depend on the order of the calls |
| CallTracker.TallyNew | custom_components/tado_ce/api_call_tracker.py:233-238 | a call of a type not yet counted adds that type with count 1 and keeps the table a tally of the calls so far |
| CallTracker.TallyBump | custom_components/tado_ce/api_call_tracker.py:233-238 | a call of a type already counted adds one to it and keeps the table a tally of the calls so far |
| CallTracker.IndexOfName | custom_components/tado_ce/api_call_tracker.py:236-237 | finds the entry of a type name in a count table, or reports that it has none |
| CallTracker.TotalIncrement | custom_components/tado_ce/api_call_tracker.py:237 | adding one to a type's count adds one to the total |
| CallTracker.CountByType | custom_components/tado_ce/api_call_tracker.py:233-238 | each type name's count equals its number of occurrences, names are distinct and the counts sum to the number of calls |
| CallTracker.APICallTracker.constructor | custom_components/tado_ce/api_call_tracker.py:45-62 | an empty history with the given retention, not yet loaded and no cleanup yet |
| CallTracker.APICallTracker.RecordCall | custom_components/tado_ce/api_call_tracker.py:157-183 | the history becomes the old one with the new record (a missing timestamp meaning now) added to its date's bucket |
| CallTracker.DeleteBefore | custom_components/tado_ce/api_call_tracker.py:269-272 | the deletion loop leaves exactly the buckets dated at or after the cutoff, in their order |
| CallTracker.APICallTracker.CleanupOldRecords | custom_components/tado_ce/api_call_tracker.py:261-282 | retention 0 keeps the history; otherwise exactly the dates before the cutoff are deleted |
| CallTracker.APICallTracker.AsyncInit | custom_components/tado_ce/api_call_tracker.py:81-96 | only on the first call: the loaded history replaces the one in memory, old dates are cleaned up and today counts as cleaned; later calls change nothing |
| CallTracker.APICallTracker.AsyncRecordCall | custom_components/tado_ce/api_call_tracker.py:109-155 | initialises the tracker if it is not yet, records the call, then cleans up only when no cleanup has run on that day yet, so at most once per calendar day |
| CallTracker.FirstAsyncRecordSameDay | custom_components/tado_ce/api_call_tracker.py:94-96 | the first asynchronous record on the day of the initialisation only adds the call to the cleaned loaded history |
| CallTracker.APICallTracker.GetCallHistory | custom_components/tado_ce/api_call_tracker.py:197-217 | exactly the calls of the dates at or after the cutoff date, newest first |
| CallTracker.APICallTracker.GetRecentCalls | custom_components/tado_ce/api_call_tracker.py:219-229 | min(limit, total) calls, newest first, all drawn from the history |
| CallTracker.APICallTracker.GetCallCounts | custom_components/tado_ce/api_call_tracker.py:231-238 | per-type counts of the queried calls, summing to the length of that query's history |
| CallTracker.APICallTracker.GetDailyUsage | custom_components/tado_ce/api_call_tracker.py:284-297 | the total is the size of that date's bucket (0 when absent) and the per-type counts sum to it |
| TadoApi.HeaderField | custom_components/tado_ce/tado_api.py:320-337 | a field is read only when its key occurs in the header; a header without the key reads as None |
| TadoApi.HeaderFieldValue | custom_components/tado_ce/tado_api.py:320-337 | the text after the key, up to the end or the next `;`, is read exactly as `int()` reads it (blanks, sign, digits) |
| TadoApi.Refreshed | custom_components/tado_ce/tado_api.py:320-337 | a parsed field replaces the stored value; a missing or non-integer field keeps it |
| TadoApi.HeaderFieldReads | custom_components/tado_ce/tado_api.py:320-337 | a key followed by digits and then the end or a `;` parameter reads as exactly those digits |
| TadoApi.SignedHeaderFieldReads | custom_components/tado_ce/tado_api.py:320-337 | a minus sign before the digits is read too, giving the negative value |
| TadoApi.PolicyHeaderExample | custom_components/tado_ce/tado_api.py:320-324 | `"perday";q=5000;w=86400` gives the limit 5000 |
| TadoApi.RatelimitHeaderExample | custom_components/tado_ce/tado_api.py:327-337 | `"perday";r=0;t=5904` gives remaining 0 and a reset in 5904 s |
| TadoApi.OldestTimestamp | custom_components/tado_ce/tado_api.py:248-250 | the oldest call's timestamp: one of the calls', and no call is older |
| TadoApi.SecondsUntil | custom_components/tado_ce/tado_api.py:230-236 | a value exactly when the moment is ahead, positive and reaching that moment |
| TadoApi.ResetEstimate | custom_components/tado_ce/tado_api.py:222-262 | every estimate is positive and is the header's value or reaches exactly 24 h past the last reset or past the oldest call |
| TadoApi.ResetPrecedence | custom_components/tado_ce/tado_api.py:222-262 | a positive header wins, then a future last-reset-based time, then the call history; None exactly when no strategy applies |
| TadoApi.HoursMinutes | custom_components/tado_ce/tado_api.py:265-268 | the display of a reset time always ends in "m" |
| TadoApi.HoursMinutesKnown | custom_components/tado_ce/tado_api.py:265-268 | a known reset never displays as "unknown" |
| TadoApi.MinutesTextParses | custom_components/tado_ce/tado_api.py:268 | a minutes-only display reads back as its minutes |
| TadoApi.HoursMinutesTextParses | custom_components/tado_ce/tado_api.py:268 | an hours-and-minutes display reads back as the total minutes |
| TadoApi.HoursMinutesRoundTrip | custom_components/tado_ce/tado_api.py:265-268 | reading the display back gives the whole minutes until the reset |
| TadoApi.RoundHalfEven | custom_components/tado_ce/tado_api.py:282 | Python's `round` of a quotient: nearest integer, ties to even |
| TadoApi.WarningThreshold | custom_components/tado_ce/tado_api.py:282-286 | the rounded percentage exceeds 80 exactly when more than 80.5% of the quota is used |
| TadoApi.RateStatus | custom_components/tado_ce/tado_api.py:276-287 | the status is "rate_limited", "warning" or the caller's; the caller's whenever the limit is unknown or zero or the remaining count is unknown; a "rate_limited" status the caller did not pass in means nothing remains |
| TadoApi.RateStatusCases | custom_components/tado_ce/tado_api.py:276-287 | a drained quota is "rate_limited", otherwise over the threshold "warning", otherwise the caller's status |
| TadoApi.ResetDetected | custom_components/tado_ce/tado_api.py:212-217 | a reset is only recognised when both counts are known and the remaining count rose |
| TadoApi.DetectCallType | custom_components/tado_ce/tado_api.py:595-609 | a type in 1..7 is the first keyword the endpoint contains; none means it contains no keyword |
| TadoApi.OverlayEndpointCountsAsZones | custom_components/tado_ce/tado_api.py:595-609 | "zones/3/overlay" counts as a zones call |
| TadoApi.HttpFailureError | custom_components/tado_ce/tado_api.py:363-379 | 429 raises the rate-limit error, 401/403 the authentication error, any other code a TadoAPIError carrying the code and body |
| TadoApi.FailedCallStatus | custom_components/tado_ce/tado_api.py:627-633 | the recorded status is 401 iff the message mentions 401 or 403, else 429 iff it mentions 429, else 500 |
| TadoApi.RecordedFailureAsWritten | custom_components/tado_ce/tado_api.py:618-634 | a failure is recorded only for a TadoAPIError |
| TadoApi.RefusedCallsUnrecorded | custom_components/tado_ce/tado_api.py:618-634 | as written, a 429, 401 or 403 response is never recorded |
| TadoApi.RecordedFailure | custom_components/tado_ce/tado_api.py:618-634 | every failed call is recorded: 429 as 429, 401/403 as 401, others by their message |
| TadoApi.RefusedCallsRecorded | custom_components/tado_ce/tado_api.py:618-634 | with the correction, refused calls are recorded with their status |
| TadoApi.SyncEndpoints | custom_components/tado_ce/tado_api.py:667-710 | zoneStates first and the home state always; weather iff enabled; zones only in a full sync; mobile devices iff full and enabled; the count follows |
| TadoApi.Sync | custom_components/tado_ce/tado_api.py:657-727 | requests endpoints up to the first failure; a `TadoAPIError` saves "rate_limited" (message with 429) or "error" with the message; a None weather reply lets the sync finish and save "ok"; a None reply from any other endpoint, or an uncaught rate-limit or authentication error, raises out of the sync; without failure it saves "ok" |
| TadoApi.WeatherNoneStillSucceeds | custom_components/tado_ce/tado_api.py:682-685 | a weather call the error handler turned into None still ends in a sync that saves "ok" and returns True |
| TadoApi.SyncFailureRequestsPrefix | custom_components/tado_ce/tado_api.py:667-727 | a failed sync requests a prefix of what a successful one would; a failed zoneStates requests nothing else |
| TadoApi.TadoClient.constructor | custom_components/tado_ce/tado_api.py:94-165 | no rate-limit field known |
| TadoApi.TadoClient.ParseRatelimitHeaders | custom_components/tado_ce/tado_api.py:310-337 | the stored limit, remaining count and reset are the parsed ones where parsing succeeded and unchanged elsewhere |
| TadoApi.TadoClient.HttpRequest | custom_components/tado_ce/tado_api.py:339-382 | headers are read on success and on HTTP errors, never on network failures; the outcome is the parsed body or the classified error |
| TadoApi.TadoClient.SaveRatelimit | custom_components/tado_ce/tado_api.py:187-308 | the saved record: the last reset moves to now only on a rise of more than 100, the reset estimate and its display, used count, percentage and status |
| TadoApi.CalculateResetSeconds | custom_components/tado_ce/tado_api.py:219-262 | the strategies tried in turn give the reference estimate, always positive when present |
| TadoApi.UsageStatus | custom_components/tado_ce/tado_api.py:274-287 | used, percentage and status are only judged with a known nonzero limit and a known remaining count |
| AsyncApi.RatelimitFile | custom_components/tado_ce/async_api.py:104-150 | nothing is written before a header was parsed; otherwise limit defaults to 5000 and remaining to the limit, used plus remaining is the limit, the percentage is 0 for a non-positive limit, and the reset time and text exist exactly when the reset is positive |
| AsyncApi.RatelimitFilePercentage | custom_components/tado_ce/async_api.py:117-118 | with a positive limit the saved percentage is the used share rounded to the nearest tenth |
| AsyncApi.RatelimitFileHumanParses | custom_components/tado_ce/async_api.py:120-131 | the saved reset text reads back as the whole minutes until the reset |
| AsyncApi.ResponseBody | custom_components/tado_ce/async_api.py:267-316 | a body is returned exactly for GET 200, PUT/POST 200/201/204 and DELETE 200/204; a GET gives the body, a DELETE `{}`, a PUT/POST the body or `{}` when empty |
| AsyncApi.RefusalsYieldNothing | custom_components/tado_ce/async_api.py:275-316 | 401, 429 and every status of 300 or more yield nothing for every verb |
| AsyncApi.TadoAsyncClient.constructor | custom_components/tado_ce/async_api.py:33-43 | no cached token, no expiry, no rate-limit data |
| AsyncApi.TadoAsyncClient.ParseRatelimitHeaders | custom_components/tado_ce/async_api.py:81-102 | the same header reading as the synchronous client; the token cache is untouched |
| AsyncApi.TadoAsyncClient.RefreshToken | custom_components/tado_ce/async_api.py:188-240 | a token exactly for a 200 reply carrying one, cached for 300 s and valid now; the rotated refresh token is saved only when present and different; "invalid_grant" clears it; no stored refresh token means no request and no change |
| AsyncApi.TadoAsyncClient.GetAccessToken | custom_components/tado_ce/async_api.py:167-186 | refreshes exactly when the cached token is not valid (both set and now before expiry minus 10 s); otherwise returns the cached token and changes nothing |
| AsyncApi.TadoAsyncClient.Exchange | custom_components/tado_ce/async_api.py:264-316 | the result is the response body by verb and status; the headers are read when asked; a 401 on GET drops the cached token and expiry |
| AsyncApi.TadoAsyncClient.ApiCall | custom_components/tado_ce/async_api.py:242-323 | without a token or a home id, or for a verb other than GET, PUT, POST and DELETE, nothing is requested and the answer is None; a valid token with a home id requests exactly for those four verbs; any result was an accepted status; the rate limit changes only by the headers of a request made with header parsing; the refresh token kept is the stored one with a valid cached token, the rotated one after a granted refresh and none after `invalid_grant`; the token cache is emptied by a 401 on a GET, otherwise kept while valid, set for 300 s on a grant, and left without a token by a 200 reply lacking one |
| AsyncApi.AsyncSync | custom_components/tado_ce/async_api.py:481-575 | zone states are requested first; a failed zone-states call stops the sync at once with status "error"; otherwise the sync succeeds with "ok" |
| AsyncApi.QuickSyncCalls | custom_components/tado_ce/async_api.py:509-537 | a quick sync never asks for zone info, offsets or AC capabilities, and asks for mobile devices only when both mobile flags are set |
| AsyncApi.FullSyncCalls | custom_components/tado_ce/async_api.py:540-559 | a full sync asks for zone info; mobile devices, offsets and AC capabilities follow only when zone info came back |
| AsyncApi.SyncRequestsDistinct | custom_components/tado_ce/async_api.py:509-559 | no endpoint is requested twice in one sync |
| AsyncApi.ClientRegistry.constructor | custom_components/tado_ce/async_api.py:825-846 | no client yet |
| AsyncApi.ClientRegistry.GetAsyncClient | custom_components/tado_ce/async_api.py:825-846 | the instance's client, the same one on every call, created only on first use |
| AsyncApi.ClientRegistry.CleanupAsyncClient | custom_components/tado_ce/async_api.py:849-870 | True exactly when a client existed; it is removed with its token and expiry cleared |
| AuthManager.TokenValid | custom_components/tado_ce/auth_manager.py:110-120 | a valid cached token is present, has an expiry and that expiry has not passed |
| AuthManager.FreshTokenLasts | custom_components/tado_ce/auth_manager.py:110-120 | a token cached at a refresh stays valid for the next 290 s and no longer |
| AuthManager.RotatedRefreshToken | custom_components/tado_ce/auth_manager.py:170-173 | the stored refresh token changes only to a received token that is present and different |
| AuthManager.AuthManager.constructor | custom_components/tado_ce/auth_manager.py:46-71 | no cached token or expiry, no refresh attempt, no failures, no refresh in progress |
| AuthManager.AuthManager.RefreshToken | custom_components/tado_ce/auth_manager.py:122-205 | the in-progress flag is cleared on every path; a success caches the token for 300 s and zeroes the failures; every failure path (no refresh token, no access token, refusal) adds exactly one failure and keeps the cache; "invalid_grant" clears the stored refresh token |
| AuthManager.AuthManager.GetAccessToken | custom_components/tado_ce/auth_manager.py:73-108 | a valid cached token is returned without a request and with no change; otherwise a refresh is made and its outcome is returned: a token exactly when the grant succeeds with one, cached for 300 s with the failures reset, and the stored refresh token rotated on success, dropped on `invalid_grant` and otherwise kept; any token returned is valid |
| AuthManager.AuthManager.InvalidateToken | custom_components/tado_ce/auth_manager.py:281-289 | drops the token and expiry, so no token is valid at any time; nothing else changes |
| AuthManager.InvalidateThenGet | custom_components/tado_ce/auth_manager.py:281-289 | after invalidation the next token request refreshes |
| AuthManager.Registry.constructor | custom_components/tado_ce/auth_manager.py:309-310 | no manager yet |
| AuthManager.Registry.GetAuthManager | custom_components/tado_ce/auth_manager.py:313-344 | the first call creates the manager from its arguments; every later call returns that same manager |
| AuthManager.SingletonTwice | custom_components/tado_ce/auth_manager.py:313-344 | two requests with different settings yield the same manager, configured by the first |
| ErrorHandler.Run | custom_components/tado_ce/error_handler.py:71-153 | the number of invocations never falls below the attempt the loop starts from |
| ErrorHandler.HandleApiCall | custom_components/tado_ce/error_handler.py:47-153 | the loop's answer and number of invocations are those of the reference definition of the retry policy |
| ErrorHandler.CallsBounded | custom_components/tado_ce/error_handler.py:71 | the wrapped function is invoked at most max_retries + 1 times |
| ErrorHandler.DefaultAtMostTwoCalls | custom_components/tado_ce/error_handler.py:37-45 | with the default of one retry at most two invocations |
| ErrorHandler.SkipRetryable | custom_components/tado_ce/error_handler.py:112-139 | retryable failures only move the decision to the next attempt |
| ErrorHandler.FirstSuccessReturned | custom_components/tado_ce/error_handler.py:79-85 | the first successful result is returned unchanged after exactly that many invocations |
| ErrorHandler.RefusalFailsFast | custom_components/tado_ce/error_handler.py:96-109 | an HTTP 429 raises the rate-limit error and a 401/403 the authentication error, with no further invocation |
| ErrorHandler.UnexpectedErrorStops | custom_components/tado_ce/error_handler.py:141-153 | any other exception, including the client's own rate-limit and authentication errors, stops at once with None |
| ErrorHandler.RetriesExhausted | custom_components/tado_ce/error_handler.py:112-153 | when every attempt fails retryably all attempts are made and the answer is None |
| ErrorHandler.RaisedErrorsClassified | custom_components/tado_ce/error_handler.py:96-109 | every error the loop raises is exactly one of a rate-limit error and an authentication error |
| ErrorHandler.IsRateLimitError | custom_components/tado_ce/error_handler.py:155-168 | a rate-limit error is never also an authentication error |
| ErrorHandler.IsAuthError | custom_components/tado_ce/error_handler.py:170-183 | an HTTP response classed as an authentication error is a 4xx refusal; no network failure or unexpected exception is one |
| ImmediateRefresh.DomainDecides | custom_components/tado_ce/immediate_refresh_handler.py:120-130 | for an id `domain.object` a refresh is wanted exactly when the domain is climate, switch or water_heater |
| ImmediateRefresh.ShouldRefresh | custom_components/tado_ce/immediate_refresh_handler.py:120-130 | an id without a '.' is judged as a domain of its own: refreshed exactly when it is climate, switch or water_heater |
| ImmediateRefresh.Pow2 | custom_components/tado_ce/immediate_refresh_handler.py:117 | a power of two is at least 1 |
| ImmediateRefresh.BackoffInterval | custom_components/tado_ce/immediate_refresh_handler.py:107-118 | the backoff always lies in 2..300 and is 2 without failures |
| ImmediateRefresh.BackoffClosedForm | custom_components/tado_ce/immediate_refresh_handler.py:107-118 | the backoff is min(2 times 2 to the failures, 300) for every failure count |
| ImmediateRefresh.BackoffMonotone | custom_components/tado_ce/immediate_refresh_handler.py:107-118 | more failures never shorten the backoff |
| ImmediateRefresh.BackoffCapped | custom_components/tado_ce/immediate_refresh_handler.py:117-118 | from eight failures on the backoff stays at 300 |
| ImmediateRefresh.CheckQuotaAvailable | custom_components/tado_ce/immediate_refresh_handler.py:68-105 | no data allows with "no_rate_limit_data"; with data a refresh is allowed (reason "ok") exactly when the status is not "rate_limited", the remaining count is not 0, is unknown or at least 50, and under a known nonzero limit less than 90% is used; a rate limit or 0 remaining refuses as rate limited, 1..49 remaining as too low, 90% use as critical |
| ImmediateRefresh.QuotaMonotone | custom_components/tado_ce/immediate_refresh_handler.py:68-105 | more remaining quota never turns an allowed refresh into a refused one |
| ImmediateRefresh.ImmediateRefreshHandler.constructor | custom_components/tado_ce/immediate_refresh_handler.py:32-50 | no refresh yet, no failures, nothing pending, no debounce task |
| ImmediateRefresh.ImmediateRefreshHandler.CanRefreshNow | custom_components/tado_ce/immediate_refresh_handler.py:132-168 | a refresh allowed now comes at least 2 s after the last global refresh and at least 2 s after this entity's last refresh |
| ImmediateRefresh.ImmediateRefreshHandler.TriggerRefresh | custom_components/tado_ce/immediate_refresh_handler.py:170-245 | scheduled exactly for a refresh domain with quota; then the previous debounce is replaced by one new task, a refresh is pending and only this entity's time is stamped; otherwise nothing changes; at most one debounce is outstanding |
| ImmediateRefresh.ImmediateRefreshHandler.Fire | custom_components/tado_ce/immediate_refresh_handler.py:204-245 | clears the pending mark; a fetch is made exactly when a refresh was pending and the global backoff window has passed; success sets the global time and zeroes failures, failure adds exactly one failure and keeps the global time; after a success no entity may refresh within 2 s |
| ImmediateRefresh.FailureLengthensBackoff | custom_components/tado_ce/immediate_refresh_handler.py:236-242 | a failed fetch never shortens the wait before the next one |
| ImmediateRefresh.HandlerRegistry.constructor | custom_components/tado_ce/immediate_refresh_handler.py:280 | no handler yet |
| ImmediateRefresh.HandlerRegistry.GetHandler | custom_components/tado_ce/immediate_refresh_handler.py:283-295 | the existing handler, or a fresh one when none exists |
| ImmediateRefresh.HandlerRegistry.CleanupHandler | custom_components/tado_ce/immediate_refresh_handler.py:298-311 | True exactly when a handler existed; afterwards none exists |
| ImmediateRefresh.SameHandlerUntilCleanup | custom_components/tado_ce/immediate_refresh_handler.py:283-311 | every request yields the same handler until a cleanup, after which a new one is made |
| Scheduler.IsDaytime | custom_components/tado_ce/__init__.py:53-65 | daytime needs a day start before the night start and ends as the night start hour begins; the day start hour itself is daytime |
| Scheduler.NoDayWhenInverted | custom_components/tado_ce/__init__.py:53-65 | when the day would start at or after the night, no hour is daytime |
| Scheduler.TableRow | custom_components/tado_ce/__init__.py:104-109 | the row chosen for a limit is a row of the table |
| Scheduler.TableInterval | custom_components/tado_ce/__init__.py:103-109 | the period's interval from the first row whose threshold is not below the limit, or from the last row when none is |
| Scheduler.PollingInterval | custom_components/tado_ce/__init__.py:68-113 | the current period's custom interval wins; otherwise, in test mode, the table interval for limit 100, and outside it the table interval for a known nonzero file limit; otherwise 30 by day and 120 by night |
| Scheduler.LookupTable | custom_components/tado_ce/__init__.py:103-109 | the loop returning at the first threshold not below the limit, else the last row, gives the table interval of the period |
| Scheduler.TestModePinsLimit | custom_components/tado_ce/__init__.py:94-97 | in test mode the limit is taken as 100, whatever the file says |
| Scheduler.OtherPeriodIgnored | custom_components/tado_ce/__init__.py:80-89 | the other period's custom interval never changes the result |
| Scheduler.HighLimitsUseLastRow | custom_components/tado_ce/__init__.py:107-109 | limits above 20000 poll every 5 minutes by day and 15 by night |
| Scheduler.TableMonotone | custom_components/tado_ce/__init__.py:42-47 | a higher limit never polls less often, and the day interval never exceeds the night interval |
| Scheduler.QuotaWarning | custom_components/tado_ce/__init__.py:116-143 | warns exactly when (16 h * 60 / day interval + 8 h * 60 / night interval) times the calls per sync exceeds 500, computed with division, an unset or zero interval taking its default |
| Scheduler.OverQuotaIsRate | custom_components/tado_ce/__init__.py:137-143 | for positive intervals the multiplied-out comparison is the calls-per-day estimate computed with division |
| Scheduler.ShorterDay | custom_components/tado_ce/__init__.py:126-143 | shortening the day interval keeps an estimate over the quota |
| Scheduler.ShorterNight | custom_components/tado_ce/__init__.py:126-143 | shortening the night interval keeps an estimate over the quota |
| Scheduler.WarningMonotone | custom_components/tado_ce/__init__.py:126-143 | if longer intervals warn, shorter ones warn too |
| Scheduler.DefaultsDoNotWarn | custom_components/tado_ce/__init__.py:126-143 | the default 30/120 intervals never warn, with weather on or off |
| Scheduler.EveryMinuteWarns | custom_components/tado_ce/__init__.py:126-143 | a one-minute day interval always warns |
| Scheduler.SyncLoop.constructor | custom_components/tado_ce/__init__.py:274-276 | no interval chosen, no full sync yet, no timer installed |
| Scheduler.SyncLoop.ScheduleNextSync | custom_components/tado_ce/__init__.py:278-303 | the interval becomes the current polling interval and one new timer at that interval replaces the old one |
| Scheduler.SyncLoop.SyncTado | custom_components/tado_ce/__init__.py:305-360 | skipped exactly in test mode with 100 calls used; otherwise full exactly when no full sync succeeded yet or the last one is 6 h old; the last full sync moves only on a successful full sync; the sync is always rescheduled |
| Scheduler.QuickWithinSixHours | custom_components/tado_ce/__init__.py:328-334 | after a successful full sync, the syncs within the next six hours are quick |
| Scheduler.ClockMinutes | custom_components/tado_ce/__init__.py:434-450 | each field is read by `int()` (blanks and a sign allowed) and must lie in its range; an accepted text gives at most 24 h 59 min |
| Scheduler.ClockMinutesReadsFields | custom_components/tado_ce/__init__.py:434-450 | any three colon-free fields that `int()` reads as an hour, minute and second in range give hours times 60 plus minutes |
| Scheduler.TimerMinutes | custom_components/tado_ce/__init__.py:425-456 | an accepted duration lies in 5..1440 minutes; a duration value counts its whole minutes |
| Scheduler.ClockFieldsRead | custom_components/tado_ce/__init__.py:434-450 | two-digit `HH:MM:SS` fields within range read as hours times 60 plus minutes; the seconds never add a minute |
| Scheduler.TimerExamples | custom_components/tado_ce/__init__.py:434-456 | "01:30:00" is 90 minutes and "00:15:30" is 15 |
| Scheduler.TimerReadsClock | custom_components/tado_ce/__init__.py:434-456 | a two-digit `HH:MM:SS` text whose whole minutes lie in 5..1440 is accepted as those minutes |
| Scheduler.LexLessTotal | custom_components/tado_ce/__init__.py:197-201 | two different entry ids are always ordered one way or the other |
| Scheduler.LexLessTransitive | custom_components/tado_ce/__init__.py:197-201 | the string order on entry ids is transitive |
| Scheduler.Keeper | custom_components/tado_ce/__init__.py:197-203 | the kept entry is one of the entries |
| Scheduler.KeeperIsMaximal | custom_components/tado_ce/__init__.py:197-203 | no entry has a greater (version, entry id) key than the kept one |
| Scheduler.SetupProceeds | custom_components/tado_ce/__init__.py:187-211 | with several entries, a setup goes on only for an entry whose id is that of an entry with no greater (version, entry id) key |
| Scheduler.OnlyKeeperProceeds | custom_components/tado_ce/__init__.py:187-211 | with distinct entry ids exactly the entry with the greatest key proceeds; every other entry stops |
| ConfigManager.ValidateHour | custom_components/tado_ce/config_manager.py:59-77 | accepted exactly for an int (a bool counting as one) in 0..23 |
| ConfigManager.ValidateInterval | custom_components/tado_ce/config_manager.py:78-99 | accepted exactly for None or an int in 1..1440 |
| ConfigManager.ValidateRetentionDays | custom_components/tado_ce/config_manager.py:100-117 | accepted exactly for an int in 0..365 |
| ConfigManager.ValidateDayNightHours | custom_components/tado_ce/config_manager.py:118-142 | accepted exactly when each hour passes on its own |
| ConfigManager.HourIfPresent | custom_components/tado_ce/config_manager.py:158-162 | passes exactly when the key is absent or its value is a valid hour |
| ConfigManager.IntervalIfPresent | custom_components/tado_ce/config_manager.py:178-182 | passes exactly when the key is absent or its value is a valid interval |
| ConfigManager.RetentionIfPresent | custom_components/tado_ce/config_manager.py:190-194 | passes exactly when the retention key is absent or its value is valid |
| ConfigManager.PairFollowsHours | custom_components/tado_ce/config_manager.py:153-176 | once each updated hour passes, the pair check passes too, since the current hours stand in for the others and are always valid |
| ConfigManager.UniformHoursAccepted | custom_components/tado_ce/config_manager.py:118-142 | equal day and night hours (uniform polling) are accepted |
| ConfigManager.CheckBools | custom_components/tado_ce/config_manager.py:196-198 | accepted exactly when every flag present is a bool |
| ConfigManager.ValidateConfigUpdates | custom_components/tado_ce/config_manager.py:144-200 | an error is only ever reported for an update that carries one of the checked keys |
| ConfigManager.FirstError | custom_components/tado_ce/config_manager.py:144-200 | no error exactly when every check passes; otherwise the error of the first failing check |
| ConfigManager.ValidUpdateIff | custom_components/tado_ce/config_manager.py:144-200 | an update is accepted exactly when every key it carries passes its own check (the hour pair with the current value for the missing one); other keys are not looked at |
| ConfigManager.EmptyUpdateValid | custom_components/tado_ce/config_manager.py:144-200 | an empty update is always accepted |
| ConfigManager.RangedGetter | custom_components/tado_ce/config_manager.py:250-344 | the result is in range: the stored value, floats truncated, when it is an int in range, else the default |
| ConfigManager.DayStartHour | custom_components/tado_ce/config_manager.py:250-264 | the day start hour always passes the hour validator |
| ConfigManager.NightStartHour | custom_components/tado_ce/config_manager.py:266-280 | the night start hour always passes the hour validator |
| ConfigManager.RetentionDays | custom_components/tado_ce/config_manager.py:314-328 | the retention always passes its validator |
| ConfigManager.HotWaterTimerDuration | custom_components/tado_ce/config_manager.py:330-344 | the timer duration always lies in 5..1440 |
| ConfigManager.CustomInterval | custom_components/tado_ce/config_manager.py:282-312 | the custom interval passes the interval validator, and is set exactly when an int in 1..1440 is stored |
| ConfigManager.FloatHourTruncated | custom_components/tado_ce/config_manager.py:250-264 | a float hour is truncated before the range check |
| ConfigManager.RefreshDebounceSeconds | custom_components/tado_ce/config_manager.py:346-373 | the debounce always lies in 1..60; an absent key or null gives 15; an int or float (truncated) in 1..60 is used as it is and any other gives 15; True gives 1 and False 15; a text is stripped and read as an integer, used when in 1..60, and a blank, non-numeric or out-of-range text gives 15 |
| ConfigManager.DebounceFromText | custom_components/tado_ce/config_manager.py:355-368 | a text whose stripped form is digits with a value in 1..60 reads as that number, surrounding blanks ignored |
| ConfigManager.DigitsTextNumber | custom_components/tado_ce/config_manager.py:355-368 | a non-empty digit text reads as its number |
| ConfigManager.ConfigData | custom_components/tado_ce/config_manager.py:388-400 | exactly the managed option keys, each with the getter's value |
| ConfigManager.CredentialsNotManaged | custom_components/tado_ce/config_manager.py:425-444 | the refresh token and home id are not option keys |
| ConfigManager.MergeConfig | custom_components/tado_ce/config_manager.py:375-444 | every managed key takes the option's value; refresh token and home id keep their previous values, null only when absent; every other existing key is kept unchanged |
| ConfigManager.ConfigurationManager.constructor | custom_components/tado_ce/config_manager.py:47-57 | the options are the entry's options |
| ConfigManager.ConfigurationManager.UpdateConfig | custom_components/tado_ce/config_manager.py:541-574 | an invalid update returns its error and leaves the options unchanged; a valid one is merged over the options and written |
| ConfigManager.UpdatedHourReadBack | custom_components/tado_ce/config_manager.py:556-564 | a valid hour sent in an update is accepted and read back as the day start hour |
| ConfigFlow.ParseIntervalField | custom_components/tado_ce/config_flow.py:63-86 | blank text is unset; a number in 1..1440 is stored as that int; another number is "interval_out_of_range"; text that is not a number is "invalid_number" |
| ConfigFlow.HandleField | custom_components/tado_ce/config_flow.py:62-86 | one field records its own error or stores its value and touches no other key |
| ConfigFlow.StepInit | custom_components/tado_ce/config_flow.py:54-91 | the entry is created exactly when there are no errors; day and night are judged independently; other input is kept |
| ConfigFlow.StoredIntervalValid | custom_components/tado_ce/config_flow.py:63-86 | whatever the form stores passes the interval validator of the configuration manager |
| ConfigFlow.FormDefault | custom_components/tado_ce/config_flow.py:120-121 | the form shows "" exactly for an unset or zero interval |
| ConfigFlow.FormDefaultRoundTrip | custom_components/tado_ce/config_flow.py:63-121 | submitting the form unchanged keeps every stored interval |
| Button.Slug | custom_components/tado_ce/button.py:72 | the lower-cased name keeps its length and contains no blank |
| Button.WaterHeaterEntityId | custom_components/tado_ce/button.py:84 | "water_heater." followed by the zone name lower-cased with blanks turned into underscores |
| Button.TimePeriodText | custom_components/tado_ce/button.py:94-96 | the text sent is at least `HH:MM:SS` long |
| Button.TimePeriodRoundTrip | custom_components/tado_ce/button.py:94-96 | the timer service reads the text back as exactly the pressed duration, for every duration in 5..1440 |
| Button.PresetTexts | custom_components/tado_ce/button.py:15 | the presets send "00:30:00", "01:00:00" and "01:30:00" |
| Button.ZoneButtons | custom_components/tado_ce/button.py:35-45 | a hot-water zone gets one button per preset, in preset order, and any other zone none |
| Button.SetupButtons | custom_components/tado_ce/button.py:27-45 | three buttons per hot-water zone, each for a preset duration |
| Button.UniqueIdInjective | custom_components/tado_ce/button.py:72 | two buttons of one zone with different durations have different unique ids |
| Button.ZoneButtonIdsDistinct | custom_components/tado_ce/button.py:41-45 | each hot-water zone gets exactly three buttons with pairwise distinct unique ids |
| DeviceManager.ZoneTypeDisplay | custom_components/tado_ce/device_manager.py:112-126 | "Unknown Zone" exactly for a type other than the three zone types |
| DeviceManager.ZoneTypeDisplayDistinct | custom_components/tado_ce/device_manager.py:121-125 | the three zone types show as three different names |
| DeviceManager.FindZone | custom_components/tado_ce/device_manager.py:150 | the first zone with the id, or none exactly when no zone has it |
| DeviceManager.SameType | custom_components/tado_ce/device_manager.py:158 | exactly the zone's devices of that type |
| DeviceManager.SameTypeAppend | custom_components/tado_ce/device_manager.py:158 | filtering two parts of a list filters each in turn, so the kept devices stay in file order, as the list comprehension keeps them |
| DeviceManager.Position | custom_components/tado_ce/device_manager.py:163 | the 1-based position of the first device with the serial, or none exactly when no device has it |
| DeviceManager.DistinctPositions | custom_components/tado_ce/device_manager.py:163 | two different serials found among the devices sit at different positions |
| DeviceManager.IndexedSuffix | custom_components/tado_ce/device_manager.py:159-165 | a serial found among several devices of its type gets the type with its 1-based position |
| DeviceManager.NotFoundSuffix | custom_components/tado_ce/device_manager.py:159-167 | a serial not among the several devices of its type gets the type alone |
| DeviceManager.DeviceNameSuffix | custom_components/tado_ce/device_manager.py:129-170 | the suffix is empty or begins with a space and the device type |
| DeviceManager.SuffixEmptyIff | custom_components/tado_ce/device_manager.py:150-156 | the suffix is empty exactly for an unknown zone or a zone with at most one device |
| DeviceManager.UniqueTypeSuffix | custom_components/tado_ce/device_manager.py:168-170 | a type with at most one device in a zone of several gives the type alone |
| DeviceManager.IndexedSuffixInjective | custom_components/tado_ce/device_manager.py:163-164 | the indexed suffix determines the index |
| DeviceManager.DistinctSerialsDistinctSuffixes | custom_components/tado_ce/device_manager.py:159-165 | two different serials among several devices of one type get different suffixes |
| DeviceManager.HomeIdCache.constructor | custom_components/tado_ce/device_manager.py:21 | nothing cached, so the home id reads "unknown" |
| DeviceManager.HomeIdCache.HomeId | custom_components/tado_ce/device_manager.py:46-59 | the cached value, "unknown" before one is loaded |
| DeviceManager.HomeIdCache.LoadHomeId | custom_components/tado_ce/device_manager.py:24-43 | the file's home id, or "unknown" when the file cannot be read or has none; the result is cached and read back |
| Calendar.Weekday | custom_components/tado_ce/calendar.py:227 | a weekday lies in 0..6 |
| Calendar.DayTypesPartitionWeek | custom_components/tado_ce/calendar.py:26-42 | in every timetable, unknown ones included, each weekday belongs to exactly one day type |
| Calendar.BlocksOfFirstCovering | custom_components/tado_ce/calendar.py:246-251 | no blocks when no day type covers the weekday |
| Calendar.BlocksOfOwnDayType | custom_components/tado_ce/calendar.py:237-251 | a weekday takes the blocks stored under its own day type, or none when that day type has no entry |
| Calendar.ClockTime | custom_components/tado_ce/calendar.py:268-269 | each field is read by `int()` (blanks and a sign allowed) and must be a valid hour or minute; an accepted `HH:MM` is a whole minute of one day, no later than 23:59 |
| Calendar.ClockTimeReadsFields | custom_components/tado_ce/calendar.py:268-269 | any two colon-free fields that `int()` reads as an hour and a minute in range give that time of day in seconds |
| Calendar.ClockTimeReadsPadded | custom_components/tado_ce/calendar.py:268-269 | a zero-padded `HH:MM` within a clock's range reads back as its seconds after midnight |
| Calendar.ClockTimeMidnight | custom_components/tado_ce/calendar.py:268-269 | "00:00" reads as the start of the day |
| Calendar.BlockToEvent | custom_components/tado_ce/calendar.py:253-290 | no event unless the block is ON with a temperature; such a block fails exactly when a time is null or not a valid `HH:MM`; otherwise it gives an event exactly when its start is before its end, starting at the day plus the start time and ending at the day plus the end time, or at 23:59:59 when the end is "00:00" and the start is not, with the zone name, the temperature and the unit text "Â°C" as the source file spells it as summary |
| Calendar.MidnightEndRunsToDayEnd | custom_components/tado_ce/calendar.py:274-277 | a block from any readable time other than "00:00" to "00:00" runs to 23:59:59 of its day, its summary ending in the source's "Â°C" |
| Calendar.AbsentAndNullStart | custom_components/tado_ce/calendar.py:255-256 | a missing start reads as midnight, giving the event from the day start with the source's "Â°C" summary, while a null start makes the listing fail |
| Calendar.BlockEvents | custom_components/tado_ce/calendar.py:229-232 | a day's events lie within that day, at most one per block |
| Calendar.EventsWithinRange | custom_components/tado_ce/calendar.py:212-235 | every event of the range lies within the range and starts before it ends |
| Calendar.EventsBetweenIsWalk | custom_components/tado_ce/calendar.py:224-235 | the range's events, day by day, are what the walk over the dates gathers with the schedule's listing of one day |
| Calendar.WalkDates | custom_components/tado_ce/calendar.py:224-235 | the loop from the start date while before the end date appends each date's events in order, and fails as soon as one date fails |
| Calendar.WalkInDateOrder | custom_components/tado_ce/calendar.py:224-233 | when every date lists only its own events, the walk lists them in date order |
| Calendar.DayEventsOnDay | custom_components/tado_ce/calendar.py:229-232 | every event of one day's listing starts on that day |
| Calendar.EventsInDateOrder | custom_components/tado_ce/calendar.py:224-233 | each listed event starts on a day of the range, and events come in date order |
| Calendar.GetEvents | custom_components/tado_ce/calendar.py:212-235 | the events listed are those of the range, day by day and then block by block, and none when a block time is malformed |
| Calendar.CurrentMeansNotEnded | custom_components/tado_ce/calendar.py:205-210 | for an event that ends after it starts, "running or upcoming" means "not ended" |
| Calendar.SelectEvent | custom_components/tado_ce/calendar.py:203-210 | none exactly when no event is running or upcoming; otherwise such an event with the least start |
| Calendar.SelectEarliestListed | custom_components/tado_ce/calendar.py:203-210 | among running or upcoming events with the least start the first listed is chosen, as a stable sort followed by taking the first does |
| Calendar.ZoneCalendar.constructor | custom_components/tado_ce/calendar.py:127-147 | no event yet |
| Calendar.ZoneCalendar.Update | custom_components/tado_ce/calendar.py:196-210 | the event is the first of today's events that has not ended; a malformed schedule leaves it unchanged |
| Climate.HvacTablesInverse | custom_components/tado_ce/climate.py:41-49 | the two HVAC mode tables are inverse to each other in both directions |
| Climate.TadoModesNeverOffOrAuto | custom_components/tado_ce/climate.py:41-47 | no Tado mode reads as OFF or as "follow the schedule" |
| Climate.TadoToHaFan | custom_components/tado_ce/climate.py:53-65 | every listed fan level reads as one of the four speeds |
| Climate.FanRoundTrip | custom_components/tado_ce/climate.py:53-72 | each of the four speeds is sent as a level that reads back as the same speed |
| Climate.HeatingClimate.constructor | custom_components/tado_ce/climate.py:167-177 | unavailable, with no mode, action, target or overlay shown |
| Climate.HeatingClimate.Update | custom_components/tado_ce/climate.py:199-268 | a missing zone makes the entity unavailable and keeps the rest; otherwise a manual overlay shows heat (power on) or off (power off), anything else shows auto; heating is shown only while the mode is not off, and a target only with the power on |
| Climate.HeatingTermination | custom_components/tado_ce/climate.py:426-437 | a timer for a nonzero duration, of that many minutes in seconds; else the next schedule block when asked for; else manual |
| Climate.TimerMinutesRecovered | custom_components/tado_ce/climate.py:426-430 | the timer's length in seconds is a whole number of minutes, namely those asked for |
| Climate.BuildHvacModes | custom_components/tado_ce/climate.py:489-502 | OFF first, no duplicates, each of COOL, HEAT, DRY and FAN exactly when the device supports it, and HEAT_COOL exactly when it supports AUTO |
| Climate.FanModes | custom_components/tado_ce/climate.py:512-525 | all four speeds when no mode lists a fan level |
| Climate.FanModesAreImages | custom_components/tado_ce/climate.py:512-522 | with fan levels listed, the speeds offered are exactly those the listed levels read as |
| Climate.SwingModes | custom_components/tado_ce/climate.py:476-532 | swing modes are offered exactly when some mode lists a swing |
| Climate.FirstTemperatures | custom_components/tado_ce/climate.py:536-541 | none exactly when none of COOL, HEAT, AUTO and DRY has a temperature table; otherwise the table of the first of them, in that order, that has one |
| Climate.TemperatureRange | custom_components/tado_ce/climate.py:543-550 | the minimum, maximum and step are those of the first temperature table, each defaulting to 16, 30 and 1 when missing; 16 to 30 in steps of 1 without a table |
| Climate.SwingRoundTrip | custom_components/tado_ce/climate.py:744-751 | each unified swing mode, once sent as a pair, reads back as itself through the update's mapping |
| Climate.AcAction | custom_components/tado_ce/climate.py:643-655 | a powered AC is never shown as off, and shows an active action only while its compressor reports ON |
| Climate.OverlayMode | custom_components/tado_ce/climate.py:789-794 | the mode asked for; else the Tado name of the mode shown; COOL when none, OFF or AUTO is shown |
| Climate.OverlayTemperature | custom_components/tado_ce/climate.py:803-809 | no temperature exactly for FAN; otherwise the nonzero temperature asked for, else the nonzero target shown, else 24 |
| Climate.OverlayFan | custom_components/tado_ce/climate.py:812-818 | a fan level exactly when the mode lists fan levels: the one asked for, else the one shown, else AUTO |
| Climate.OverlaySwing | custom_components/tado_ce/climate.py:822-836 | a swing setting exactly when the mode lists it: the one asked for, else ON exactly when the swing shown covers this direction |
| Climate.AcTermination | custom_components/tado_ce/climate.py:839-842 | a timer of the minutes asked for exactly for a nonzero duration, else manual |
| Climate.AcClimate.constructor | custom_components/tado_ce/climate.py:445-562 | keeps the capabilities, unavailable, with nothing shown |
| Climate.AcClimate.Update | custom_components/tado_ce/climate.py:574-666 | a missing zone makes the entity unavailable and keeps the rest; with the power on the mode, fan and swing come from the setting; the action is off exactly when the mode is off |
| Climate.AcClimate.Payload | custom_components/tado_ce/climate.py:771-842 | the payload carries a temperature exactly when not FAN, and a fan level or swing exactly when the mode sent lists it; the mode asked for is sent; a timer exactly for a nonzero duration |
| Climate.AcClimate.SetSwingMode | custom_components/tado_ce/climate.py:735-760 | sends the swing pair for the mode and shows the new swing only when the request succeeds, leaving everything else as it was |
| Climate.PayloadKeepsShownMode | custom_components/tado_ce/climate.py:789-794 | without an explicit mode the mode shown is kept: it reads back from the setting sent, and COOL is sent when none, OFF or AUTO is shown |
| Climate.SwingSentReadsBack | custom_components/tado_ce/climate.py:735-836 | a swing chosen from the offered list, when the mode sent lists both swings, is sent as its pair and reads back as itself |
| WaterHeater.OperationFor | custom_components/tado_ce/water_heater.py:138-154 | off exactly under a manual overlay with the power OFF; heat exactly under a timer or a manual overlay with the power not OFF; auto otherwise |
| WaterHeater.TimerRequest | custom_components/tado_ce/water_heater.py:312-318 | an overlay with the power ON, the temperature given, ended by a timer of the minutes given |
| WaterHeater.ModeRequest | custom_components/tado_ce/water_heater.py:183-212 | auto removes the overlay; heat a timer and off a manual overlay with the power OFF, both only with a home id; nothing for an unknown mode |
| WaterHeater.ModeReadsBack | custom_components/tado_ce/water_heater.py:138-212 | the overlay a mode change leaves reads back at the next update as the mode that was set |
| WaterHeater.TadoWaterHeater.constructor | custom_components/tado_ce/water_heater.py:57-82 | unavailable, with no home id, mode, target or overlay, and no temperature control |
| WaterHeater.TadoWaterHeater.Update | custom_components/tado_ce/water_heater.py:91-167 | a missing or offline zone makes the entity unavailable and keeps what it shows; otherwise the mode read from the overlay and the target; temperature control never switches off |
| WaterHeater.TadoWaterHeater.SetOperationMode | custom_components/tado_ce/water_heater.py:169-228 | at most two attempts of the mode's request, stopping at the first success; success shows the new mode, and failure of both restores the mode shown before |
| WaterHeater.TadoWaterHeater.SetTimer | custom_components/tado_ce/water_heater.py:301-325 | nothing sent without a home id; otherwise the timer overlay, and heat shown when it succeeds |
| WaterHeater.TadoWaterHeater.TurnOn | custom_components/tado_ce/water_heater.py:263-280 | nothing sent without a home id; otherwise a manual overlay with the power ON, and heat shown when it succeeds |
| WaterHeater.TadoWaterHeater.TurnOff | custom_components/tado_ce/water_heater.py:282-299 | nothing sent without a home id; otherwise a manual overlay with the power OFF, and off shown when it succeeds |
| WaterHeater.TadoWaterHeater.SetTemperature | custom_components/tado_ce/water_heater.py:333-370 | sends a manual overlay with the temperature exactly when one is given, temperature control is on and a home id is set; on success shows it as the target with heat |
| Sensor.OldestAfter | custom_components/tado_ce/sensor.py:337-348 | none exactly when no call is after the cutoff; otherwise the least timestamp of the calls after it |
| Sensor.ResetFromHistory | custom_components/tado_ce/sensor.py:336-376 | "No history" without calls; no reset when no call is of the last 24 hours; otherwise the reset 24 hours after the oldest such call, with its minutes and their text |
| Sensor.ResetMinutesBounded | custom_components/tado_ce/sensor.py:352-362 | with no call stamped in the future, the minutes until the reset lie in 0..1440 |
| Sensor.ResetHumanInjective | custom_components/tado_ce/sensor.py:360-362 | the hours-and-minutes text determines the minute count |
| Sensor.ResetFromRateLimit | custom_components/tado_ce/sensor.py:380-400 | the reset of the rate-limit file, its minutes exactly for a nonzero reset in seconds (rounded down), "unknown" text when none is stored |
| Sensor.ApiResetSensor.constructor | custom_components/tado_ce/sensor.py:298-312 | unavailable, with nothing shown |
| Sensor.ApiResetSensor.Update | custom_components/tado_ce/sensor.py:322-413 | the history decides the reset; without it the rate-limit file; without both the sensor is unavailable with no value; the status comes from the rate-limit file or is "unknown" |
| Sensor.CountAfter | custom_components/tado_ce/sensor.py:451-457 | at most the number of calls, and zero exactly when no call is after the cutoff |
| Sensor.StatsOf | custom_components/tado_ce/sensor.py:443-464 | the newest min(100, total) calls, newest first, with no omitted call newer than one shown; the 24-hour count and the total are those of the whole history |
| Sensor.RecentCallsStartWithNewest | custom_components/tado_ce/sensor.py:447-449 | the first call shown is no older than any call tracked |
| Sensor.ApiLimitSensor.constructor | custom_components/tado_ce/sensor.py:418-427 | unavailable, with no value and no statistics |
| Sensor.ApiLimitSensor.Update | custom_components/tado_ce/sensor.py:429-474 | without the rate-limit file unavailable with everything kept; otherwise the limit (available exactly with one) and the history's statistics, all zero when the history cannot be read |
| Sensor.CountType | custom_components/tado_ce/sensor.py:563-565 | no more zones of a type than zones |
| Sensor.CountZones | custom_components/tado_ce/sensor.py:558-568 | the total is the number of zones and bounds the three per-type counts together |
| Sensor.TypedZonesBounded | custom_components/tado_ce/sensor.py:563-565 | no zone is counted under two types |
| Sensor.ModeText | custom_components/tado_ce/sensor.py:887-896 | Off exactly when the power is OFF; Manual exactly under a manual overlay with the power not OFF; Schedule otherwise |
| Sensor.Readings | custom_components/tado_ce/sensor.py:789-896 | a missing power percentage reads 0; a target exactly while the power is ON; the mode text as above |
| Sensor.OffZoneHasNoTarget | custom_components/tado_ce/sensor.py:861-896 | a zone the mode sensor shows as Off has no target shown |
| Sensor.WeatherDisplay | custom_components/tado_ce/sensor.py:693-703 | nothing exactly without a state; a known state by its display name; any other state as it is |
| Sensor.WeatherDisplayRoundTrip | custom_components/tado_ce/sensor.py:20-34 | each known state's display name leads back to it, so known states show different names |
| Sensor.SensorsOf | custom_components/tado_ce/sensor.py:141-145 | at most a battery and then a connection sensor, both for the device's serial and zone |
| Sensor.DeviceSensorsOncePerSerial | custom_components/tado_ce/sensor.py:129-146 | no serial seen before gets a sensor, and each serial at most one sensor of each kind |
| Sensor.SetupDeviceSensors | custom_components/tado_ce/sensor.py:129-146 | the loop with its set of seen serials gives the device sensors of the devices, at most one of each kind per serial |

## Left out

- HTTP, JSON files and the configuration file are not read or written: their contents and the outcome of each request are parameters, and saves of the configuration file are taken to succeed.
- The device-authorization polling loop of `tado_api.py` (section 3.5 of RFC 8628) is not part of this model; it only waits and polls.
- CallTracker.APICallTracker: the synchronous methods do not load the file nor set the loaded flag (`_ensure_initialized_sync`, api_call_tracker.py:98-107); they work on the history in memory, so a later `async_init` is modelled as running its cleanup even after a synchronous call, and its date of "today" is taken as the UTC date.
- ErrorHandler.HandleApiCall: the sleep of `retry_delay` seconds before each retry (error_handler.py:113-114 and 132-133) is not modelled; only the sequence of attempts is.
- Locks, the `Condition` wait, the thread pool, the singleton's double-checked lock and the debounce task are modelled as sequential steps, the debounce as an explicit fire step.
- AuthManager.AuthManager.GetAccessToken: does not model waiting for a refresh running on another thread; `Valid()` states that no refresh is in progress between calls.
- Wall-clock time is an integer number of seconds. The mix of naive and aware datetimes in `tado_api.py:252-256` and `sensor.py:452-456` (which raises in Python and is swallowed) is modelled as the arithmetic the code evidently means.
- Floating point: `round()` of percentages, the quota fraction and the 0.9 threshold are modelled with integer cross-multiplication, and temperatures are uninterpreted integers.
- Every `int()` of text is modelled as `ParseInt(Strip(..))`: surrounding ASCII blanks, an optional sign, then ASCII digits; the underscores and non-ASCII digits that Python's `int()` also accepts are not modelled.
- ConfigManager.ConfigurationManager.UpdateConfig: on a save that raises, the message is "Failed to update configuration" without the exception text that config_manager.py:570 appends after the colon.
- `reset_at` timestamps are integer seconds rather than ISO text; a negative `timedelta` turned into minutes rounds toward zero, which the model states only for non-negative differences.
- TadoApi.Sync: only the first failing call is a parameter; after a None weather reply the later calls are taken to succeed, and an error raised while saving the rate limit is not modelled.
- AsyncApi: the calls outside the sync (offsets, meter readings, presence, temperature offsets and the like) are not part of this model.
- ImmediateRefresh.ImmediateRefreshHandler.TriggerRefresh: the debounce sleep is not modelled; the refresh happens at the explicit fire step.
- The backoff comment in `immediate_refresh_handler.py:116` describes a base of 10; the model follows the code's base of 2.
- Home Assistant plumbing (setup entries, entity registration, `async_write_ha_state`, service schemas, the calendar's event bus, the subprocess and timer rescheduling) is not part of this model; only its decisions are.
- ConfigFlow: the options form's schema and its display are not modelled, only the parsing of its interval fields and the error collection.
- Button: lower-casing covers ASCII letters only; the errors of a button press (entity not found, service call failure) and the rendering of the zone id are not modelled.
- DeviceManager: the hub and zone `DeviceInfo` records are not modelled; JSON values are modelled as text or absent.
- Calendar: time zones, daylight saving time and the event bus are not modelled, and a block's temperature is taken as its rendered text; the sort before the selection is replaced by a search for the least start, which picks the same start.
- Climate.SwingFromPair: a `verticalSwing` or `horizontalSwing` present with a null value is read as absent, hence OFF; climate.py:629-632 gets None from `get` and shows that swing as on.
- Climate: preset modes, temperature offsets, `async_set_temperature`, `async_set_hvac_mode`, `async_set_fan_mode`, turn on/off, the current temperature and humidity, the immediate-refresh trigger and the AC `async_set_timer` wrapper (climate.py:851-857) are not part of this model.
- WaterHeater: the immediate-refresh trigger, the 5 s sleep between attempts and the extra state attributes are not modelled; a failure to read the files is folded into a missing zone; the timer length is passed in as `timerMinutes` (the configured value or its default of 60).
- Sensor: devices are flattened across zones in file order; the temperature, humidity, boiler, battery and connection sensors' readings, the next-schedule-change attributes, the other hub sensors and the per-type setup of zone sensors (sensor.py:93-124) are not part of this model.
- binary_sensor.py, device_tracker.py and switch.py (one comparison each over loaded data) and const.py (constants only) are not part of this model.

## Findings

| source | as written | input that shows it | evidently intended | confidence | as-written member | corrected member |
|---|---|---|---|---|---|---|
| custom_components/tado_ce/tado_api.py:618-634 | `api_call` records a failed call only in `except TadoAPIError`, but `_http_request` raises `RateLimitError` and `AuthenticationError` for 429, 401 and 403, and those derive from `APIError` in error_handler.py, not from `TadoAPIError`; so those failures skip the tracker | an HTTP 429 (or 401/403) reply to any tracked call, e.g. `zoneStates` | a refused call is recorded with status 429 or 401, which is what the message-based status extraction at lines 627-633 is for | not executed | TadoApi.RefusedCallsUnrecorded | TadoApi.RefusedCallsRecorded |
