/** The asynchronous client: the same token cache and rate-limit headers
    as the synchronous one, a single `api_call` per endpoint whose answer
    depends only on the HTTP status, and the sync that decides which
    endpoints to request. The configuration file's refresh token and home
    id, the token endpoint's answer and each HTTP response are inputs. */
module AsyncApi {
  import opened Common
  import opened TadoApi
  import opened AuthManager

  /** The rate-limit file written after a sync. Percentages are in tenths
      of a percent; `resetAt` is the reset moment in seconds. */
  datatype SavedLimit = SavedLimit(
    limit: int, remaining: int, used: int, percentageTenths: int,
    resetSeconds: int, resetAt: Option<int>, resetHuman: Option<string>,
    lastUpdated: int, status: string)

  const DefaultLimit := 5000

  /** `save_ratelimit`: nothing is written until a header has been parsed;
      missing fields default to a limit of 5000, nothing used, and no
      known reset. */
  function RatelimitFile(rl: RateLimit, now: int, status: string): (r: Option<SavedLimit>)
    ensures r.None? <==> rl == RateLimit(None, None, None)
    ensures r.Some? ==>
              var d := r.value;
              d.limit == rl.limit.GetOr(DefaultLimit)
              && d.remaining == rl.remaining.GetOr(d.limit)
              && d.used + d.remaining == d.limit
              && d.resetSeconds == rl.resetSeconds.GetOr(0)
              && d.status == status && d.lastUpdated == now
              && (d.limit <= 0 ==> d.percentageTenths == 0)
              && (d.resetHuman.Some? <==> d.resetSeconds > 0)
              && (d.resetAt.Some? <==> d.resetSeconds > 0)
              && (d.resetAt.Some? ==> d.resetAt.value == now + d.resetSeconds)
  {
    if rl == RateLimit(None, None, None) then None
    else
      var limit := rl.limit.GetOr(DefaultLimit);
      var remaining := rl.remaining.GetOr(limit);
      var reset := rl.resetSeconds.GetOr(0);
      var used := limit - remaining;
      var tenths := if limit > 0 then RoundHalfEven(used * 1000, limit) else 0;
      var human := if reset > 0 then Some(HoursMinutes(reset)) else None;
      var at := if reset > 0 then Some(now + reset) else None;
      Some(SavedLimit(limit, remaining, used, tenths, reset, at, human, now, status))
  }

  /** With a positive limit the saved percentage is the used share rounded
      to the nearest tenth of a percent. */
  lemma RatelimitFilePercentage(rl: RateLimit, now: int, status: string)
    requires rl != RateLimit(None, None, None)
    requires rl.limit.GetOr(DefaultLimit) > 0
    ensures var d := RatelimitFile(rl, now, status).value;
            -d.limit <= 2000 * d.used - 2 * d.limit * d.percentageTenths <= d.limit
  {
  }

  /** The reset text of the file reads back as the whole minutes left. */
  lemma RatelimitFileHumanParses(rl: RateLimit, now: int, status: string)
    requires rl.resetSeconds.Some? && rl.resetSeconds.value > 0
    ensures var d := RatelimitFile(rl, now, status).value;
            ParseHoursMinutes(d.resetHuman.value) == Some(rl.resetSeconds.value / 60)
  {
    HoursMinutesRoundTrip(rl.resetSeconds.value);
  }

  /** The token endpoint's answer: a status with the reply text and, for a
      200, the fields of its JSON body; or a client (network) error. */
  datatype RefreshReply =
    | Answered(status: int, text: string, accessToken: Option<string>, refreshToken: Option<string>)
    | ClientFailure(message: string)

  /** A granted refresh: the endpoint answered 200 with an access token. */
  predicate RefreshGranted(storedRefresh: Option<string>, reply: RefreshReply) {
    Present(storedRefresh) && reply.Answered? && reply.status == 200 && Present(reply.accessToken)
  }

  /** A refusal that revokes the stored refresh token. */
  predicate Revoked(storedRefresh: Option<string>, reply: RefreshReply) {
    Present(storedRefresh) && reply.Answered? && reply.status != 200 && Contains(reply.text, "invalid_grant")
  }

  datatype Verb = GET | PUT | POST | DELETE | OtherVerb(name: string)

  /** One HTTP exchange: the status, both rate-limit header values (empty
      when absent), the body and its declared length; or a client error. */
  datatype Response =
    | Reply(status: int, policy: string, ratelimit: string, body: string, contentLength: int)
    | ClientError(message: string)

  /** The statuses at which `api_call` returns a body. */
  predicate Accepted(verb: Verb, status: int) {
    match verb
    case GET => status == 200
    case PUT => status in {200, 201, 204}
    case POST => status in {200, 201, 204}
    case DELETE => status in {200, 204}
    case OtherVerb(_) => false
  }

  /** What `api_call` returns for one response: the body for a GET, the
      body or `{}` for a PUT or POST, `{}` for a DELETE, None otherwise. */
  function ResponseBody(verb: Verb, response: Response): (r: Option<string>)
    ensures r.Some? <==> response.Reply? && Accepted(verb, response.status)
    ensures r.Some? && verb.GET? ==> r.value == response.body
    ensures r.Some? && verb.DELETE? ==> r.value == "{}"
    ensures r.Some? && (verb.PUT? || verb.POST?) ==>
              r.value == (if response.contentLength > 0 then response.body else "{}")
  {
    match response
    case ClientError(_) => None
    case Reply(status, _, _, body, length) =>
      if !Accepted(verb, status) then None
      else if verb.GET? then Some(body)
      else if verb.DELETE? then Some("{}")
      else if length > 0 then Some(body)
      else Some("{}")
  }

  /** A 429 or any other refusal yields nothing, whatever the verb. */
  lemma RefusalsYieldNothing(verb: Verb, response: Response)
    requires response.Reply? && (response.status == 429 || response.status == 401 || response.status >= 300)
    ensures ResponseBody(verb, response).None?
  {
  }

  class TadoAsyncClient {
    var accessToken: Option<string>
    var tokenExpiry: Option<int>
    var rateLimit: RateLimit

    constructor ()
      ensures accessToken.None? && tokenExpiry.None? && rateLimit == RateLimit(None, None, None)
    {
      accessToken := None;
      tokenExpiry := None;
      rateLimit := RateLimit(None, None, None);
    }

    predicate IsTokenValid(now: int)
      reads this
    {
      TokenValid(accessToken, tokenExpiry, now)
    }

    /** `_parse_ratelimit_headers`, as in the synchronous client. */
    method ParseRatelimitHeaders(policy: string, ratelimit: string)
      modifies this
      ensures rateLimit == ParsedHeaders(old(rateLimit), policy, ratelimit)
      ensures accessToken == old(accessToken) && tokenExpiry == old(tokenExpiry)
    {
      rateLimit := ParsedHeaders(rateLimit, policy, ratelimit);
    }

    /** `_refresh_token`. The access token of a 200 reply is stored before
        it is checked, so a reply without one also empties the cache. */
    method RefreshToken(now: int, storedRefresh: Option<string>, reply: RefreshReply)
      returns (token: Option<string>, newStoredRefresh: Option<string>)
      modifies this
      ensures rateLimit == old(rateLimit)
      ensures token.Some? <==> RefreshGranted(storedRefresh, reply)
      ensures token.Some? ==>
                token == accessToken && tokenExpiry == Some(now + TokenCacheDuration)
                && IsTokenValid(now)
                && newStoredRefresh == Some(RotatedRefreshToken(storedRefresh.value, reply.refreshToken))
      ensures token.None? ==> tokenExpiry == old(tokenExpiry)
      ensures Present(storedRefresh) && reply.Answered? && reply.status == 200 ==>
                accessToken == reply.accessToken
      ensures token.None? && (Present(storedRefresh) && reply.Answered? && reply.status == 200) ==>
                !IsTokenValid(now)
      ensures !(Present(storedRefresh) && reply.Answered? && reply.status == 200) ==>
                accessToken == old(accessToken)
      ensures Revoked(storedRefresh, reply) ==> newStoredRefresh.None?
      ensures token.None? && !Revoked(storedRefresh, reply) ==> newStoredRefresh == storedRefresh
    {
      newStoredRefresh := storedRefresh;
      token := None;
      if !Present(storedRefresh) {
        return;
      }
      match reply {
        case ClientFailure(_) =>
        case Answered(status, text, access, refresh) =>
          if status != 200 {
            if Contains(text, "invalid_grant") {
              newStoredRefresh := None;
            }
            return;
          }
          accessToken := access;
          if !Present(access) {
            return;
          }
          if Present(refresh) && refresh.value != storedRefresh.value {
            newStoredRefresh := refresh;
          }
          tokenExpiry := Some(now + TokenCacheDuration);
          token := accessToken;
      }
    }

    /** `get_access_token`: the cached token while valid, else a refresh. */
    method GetAccessToken(now: int, storedRefresh: Option<string>, reply: RefreshReply)
      returns (token: Option<string>, newStoredRefresh: Option<string>, refreshed: bool)
      modifies this
      ensures rateLimit == old(rateLimit)
      ensures refreshed <==> !old(IsTokenValid(now))
      ensures !refreshed ==>
                token == old(accessToken) && newStoredRefresh == storedRefresh
                && accessToken == old(accessToken) && tokenExpiry == old(tokenExpiry)
      ensures refreshed ==> (token.Some? <==> RefreshGranted(storedRefresh, reply))
      ensures token.Some? ==> IsTokenValid(now) && token == accessToken
      ensures refreshed && token.Some? ==>
                tokenExpiry == Some(now + TokenCacheDuration)
                && newStoredRefresh == Some(RotatedRefreshToken(storedRefresh.value, reply.refreshToken))
      ensures refreshed && token.None? ==> tokenExpiry == old(tokenExpiry)
      ensures refreshed ==>
                accessToken == (if Present(storedRefresh) && reply.Answered? && reply.status == 200
                                then reply.accessToken else old(accessToken))
      ensures refreshed && Revoked(storedRefresh, reply) ==> newStoredRefresh.None?
      ensures refreshed && token.None? && !Revoked(storedRefresh, reply) ==> newStoredRefresh == storedRefresh
    {
      if IsTokenValid(now) {
        return accessToken, storedRefresh, false;
      }
      token, newStoredRefresh := RefreshToken(now, storedRefresh, reply);
      refreshed := true;
    }

    /** The exchange once a token and a home id are at hand: the headers
        are read first, and a 401 on a GET drops the cached token. */
    method Exchange(verb: Verb, parseRatelimit: bool, response: Response) returns (result: Option<string>)
      modifies this
      ensures result == ResponseBody(verb, response)
      ensures rateLimit == (if parseRatelimit && response.Reply? && !verb.OtherVerb?
                            then ParsedHeaders(old(rateLimit), response.policy, response.ratelimit)
                            else old(rateLimit))
      ensures if verb.GET? && response.Reply? && response.status == 401
              then accessToken.None? && tokenExpiry.None?
              else accessToken == old(accessToken) && tokenExpiry == old(tokenExpiry)
    {
      if verb.OtherVerb? {
        return None;
      }
      match response {
        case ClientError(_) =>
          return None;
        case Reply(status, policy, ratelimit, body, length) =>
          if parseRatelimit {
            ParseRatelimitHeaders(policy, ratelimit);
          }
          if verb.GET? && status == 401 {
            accessToken := None;
            tokenExpiry := None;
          }
          result := ResponseBody(verb, response);
      }
    }

    /** `api_call`: a token, then the home id, then one request. Without
        either, or for a verb other than GET, PUT, POST and DELETE (which
        no branch handles), nothing is requested and the answer is None. */
    method ApiCall(verb: Verb, parseRatelimit: bool, now: int, storedRefresh: Option<string>,
                   reply: RefreshReply, homeId: Option<string>, response: Response)
      returns (result: Option<string>, newStoredRefresh: Option<string>, requested: bool)
      modifies this
      ensures requested ==> Present(homeId) && !verb.OtherVerb? && result == ResponseBody(verb, response)
      ensures !requested ==> result.None? && rateLimit == old(rateLimit)
      ensures old(IsTokenValid(now)) && Present(homeId) ==> (requested <==> !verb.OtherVerb?)
      ensures !old(IsTokenValid(now)) ==>
                (requested <==> RefreshGranted(storedRefresh, reply) && Present(homeId) && !verb.OtherVerb?)
      ensures result.Some? ==> response.Reply? && Accepted(verb, response.status)
      ensures rateLimit == (if requested && parseRatelimit && response.Reply?
                            then ParsedHeaders(old(rateLimit), response.policy, response.ratelimit)
                            else old(rateLimit))
      // The refresh token to keep: unchanged with a valid cached token,
      // rotated on a granted refresh, dropped on `invalid_grant`.
      ensures old(IsTokenValid(now)) ==> newStoredRefresh == storedRefresh
      ensures !old(IsTokenValid(now)) && RefreshGranted(storedRefresh, reply) ==>
                newStoredRefresh == Some(RotatedRefreshToken(storedRefresh.value, reply.refreshToken))
      ensures !old(IsTokenValid(now)) && Revoked(storedRefresh, reply) ==> newStoredRefresh.None?
      ensures !old(IsTokenValid(now)) && !RefreshGranted(storedRefresh, reply) && !Revoked(storedRefresh, reply) ==>
                newStoredRefresh == storedRefresh
      // The token cache: a 401 on a GET empties it; otherwise a valid
      // token stays, a granted one is cached for 300 s, and a 200 reply
      // without a token leaves the cache without one.
      ensures requested && verb.GET? && response.Reply? && response.status == 401 ==>
                accessToken.None? && tokenExpiry.None?
      ensures old(IsTokenValid(now)) && !(requested && verb.GET? && response.Reply? && response.status == 401) ==>
                accessToken == old(accessToken) && tokenExpiry == old(tokenExpiry)
      ensures !old(IsTokenValid(now)) && RefreshGranted(storedRefresh, reply)
              && !(requested && verb.GET? && response.Reply? && response.status == 401) ==>
                accessToken == reply.accessToken && tokenExpiry == Some(now + TokenCacheDuration)
      ensures !old(IsTokenValid(now)) && !RefreshGranted(storedRefresh, reply) ==>
                tokenExpiry == old(tokenExpiry)
                && accessToken == (if Present(storedRefresh) && reply.Answered? && reply.status == 200
                                   then reply.accessToken else old(accessToken))
    {
      var token, refreshed;
      token, newStoredRefresh, refreshed := GetAccessToken(now, storedRefresh, reply);
      if token.None? || !Present(homeId) {
        return None, newStoredRefresh, false;
      }
      result := Exchange(verb, parseRatelimit, response);
      requested := !verb.OtherVerb?;
    }
  }

  /** The endpoints (or groups of per-device and per-zone calls) one sync
      requests. */
  datatype Request = ZoneStates | Weather | HomeState | MobileDevices | ZonesInfo | Offsets | AcCapabilities

  datatype SyncFlags = SyncFlags(quick: bool, weather: bool, mobile: bool, mobileFrequent: bool, offsets: bool)

  /** What one sync did: the requests in order, its answer, and the status
      written to the rate-limit file. */
  datatype SyncRun = SyncRun(requests: seq<Request>, succeeded: bool, status: string)

  /** `async_sync`, given whether zone states and zone info came back. */
  function AsyncSync(f: SyncFlags, zoneStatesOk: bool, zonesInfoOk: bool): (r: SyncRun)
    ensures r.succeeded <==> zoneStatesOk
    ensures r.status == (if zoneStatesOk then "ok" else "error")
    ensures |r.requests| > 0 && r.requests[0] == ZoneStates
    ensures !zoneStatesOk ==> r.requests == [ZoneStates]
  {
    if !zoneStatesOk then SyncRun([ZoneStates], false, "error")
    else
      var common := [ZoneStates] + (if f.weather then [Weather] else []) + [HomeState];
      var quickMobile := if f.quick && f.mobile && f.mobileFrequent then [MobileDevices] else [];
      var full :=
        if f.quick then []
        else [ZonesInfo] + (if zonesInfoOk
                            then (if f.mobile then [MobileDevices] else [])
                                 + (if f.offsets then [Offsets] else [])
                                 + [AcCapabilities]
                            else []);
      SyncRun(common + quickMobile + full, true, "ok")
  }

  /** A quick sync never asks for zone info, offsets or AC capabilities,
      and asks for mobile devices only when both mobile flags are set. */
  lemma QuickSyncCalls(f: SyncFlags, zonesInfoOk: bool)
    requires f.quick
    ensures var r := AsyncSync(f, true, zonesInfoOk).requests;
            ZonesInfo !in r && Offsets !in r && AcCapabilities !in r
            && (MobileDevices in r <==> f.mobile && f.mobileFrequent)
            && (Weather in r <==> f.weather) && HomeState in r
  {
  }

  /** A full sync asks for zone info; mobile devices, offsets and AC
      capabilities follow only when zone info came back. */
  lemma FullSyncCalls(f: SyncFlags, zonesInfoOk: bool)
    requires !f.quick
    ensures var r := AsyncSync(f, true, zonesInfoOk).requests;
            ZonesInfo in r
            && (MobileDevices in r <==> zonesInfoOk && f.mobile)
            && (Offsets in r <==> zonesInfoOk && f.offsets)
            && (AcCapabilities in r <==> zonesInfoOk)
  {
  }

  /** No endpoint is requested twice in one sync. */
  lemma SyncRequestsDistinct(f: SyncFlags, zoneStatesOk: bool, zonesInfoOk: bool)
    ensures var r := AsyncSync(f, zoneStatesOk, zonesInfoOk).requests;
            forall i, j :: 0 <= i < j < |r| ==> r[i] != r[j]
  {
  }

  /** The clients, one per Home Assistant instance. */
  class ClientRegistry {
    var clients: map<int, TadoAsyncClient>

    constructor ()
      ensures clients == map[]
    {
      clients := map[];
    }

    /** `get_async_client`: the instance's client, created on first use. */
    method GetAsyncClient(hassId: int) returns (c: TadoAsyncClient)
      modifies this
      ensures hassId in clients && clients[hassId] == c
      ensures hassId in old(clients) ==> clients == old(clients)
      ensures hassId !in old(clients) ==>
                fresh(c) && clients == old(clients)[hassId := c] && c.accessToken.None? && c.tokenExpiry.None?
    {
      if hassId !in clients {
        var created := new TadoAsyncClient();
        clients := clients[hassId := created];
      }
      c := clients[hassId];
    }

    /** `cleanup_async_client`: True exactly when a client existed; that
        client's cached token is dropped and its entry removed. */
    method CleanupAsyncClient(hassId: int) returns (removed: bool)
      modifies this, if hassId in clients then {clients[hassId]} else {}
      ensures removed <==> hassId in old(clients)
      ensures clients == old(clients) - {hassId}
      ensures removed ==> old(clients[hassId]).accessToken.None? && old(clients[hassId]).tokenExpiry.None?
      ensures removed ==> old(clients[hassId]).rateLimit == old(clients[hassId].rateLimit)
    {
      removed := hassId in clients;
      if removed {
        var c := clients[hassId];
        c.accessToken := None;
        c.tokenExpiry := None;
        clients := clients - {hassId};
      }
    }
  }
}
