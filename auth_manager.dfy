/** The shared credential cache: an access token kept for five minutes,
    refreshed with the stored refresh token (which the server may rotate),
    with a failure counter and an in-progress flag. The stored refresh
    token is the `refresh_token` entry of the configuration file, passed
    in and handed back; the token endpoint's answer is an input. */
module AuthManager {
  import opened Common

  const TokenCacheDuration := 300
  const ExpiryBuffer := 10

  /** Python truthiness of an optional string. */
  predicate Present(s: Option<string>) { s.Some? && s.value != "" }

  /** A cached token is used while it is present, has an expiry, and the
      clock is more than ten seconds before that expiry. */
  predicate TokenValid(token: Option<string>, expiry: Option<int>, now: int)
    ensures TokenValid(token, expiry, now) ==> token.Some? && expiry.Some? && now < expiry.value
  {
    Present(token) && expiry.Some? && now < expiry.value - ExpiryBuffer
  }

  /** A freshly cached token stays valid for the next 290 seconds. */
  lemma FreshTokenLasts(token: string, refreshedAt: int, now: int)
    requires token != "" && refreshedAt <= now < refreshedAt + TokenCacheDuration - ExpiryBuffer
    ensures TokenValid(Some(token), Some(refreshedAt + TokenCacheDuration), now)
    ensures !TokenValid(Some(token), Some(refreshedAt + TokenCacheDuration), refreshedAt + TokenCacheDuration - ExpiryBuffer)
  {
  }

  /** The token endpoint's answer to a refresh-token grant: the fields of
      a successful reply, or the text of the error raised. */
  datatype TokenReply = Granted(accessToken: Option<string>, refreshToken: Option<string>) | Refused(message: string)

  /** The refresh token stored after a successful grant: a new one is
      kept only when present and different from the one sent. */
  function RotatedRefreshToken(sent: string, received: Option<string>): (stored: string)
    ensures stored == sent || (Present(received) && stored == received.value)
    ensures Present(received) ==> stored == received.value
  {
    if Present(received) && received.value != sent then received.value else sent
  }

  class AuthManager {
    const configFile: string
    const clientId: string
    const authUrl: string
    var accessToken: Option<string>
    var tokenExpiry: Option<int>
    var refreshInProgress: bool
    var lastRefreshAttempt: Option<int>
    var consecutiveFailures: nat

    /** Between calls no refresh is in progress. */
    predicate Valid()
      reads this
    {
      !refreshInProgress
    }

    constructor (configFile: string, clientId: string, authUrl: string)
      ensures Valid()
      ensures this.configFile == configFile && this.clientId == clientId && this.authUrl == authUrl
      ensures accessToken.None? && tokenExpiry.None? && lastRefreshAttempt.None? && consecutiveFailures == 0
    {
      this.configFile := configFile;
      this.clientId := clientId;
      this.authUrl := authUrl;
      accessToken := None;
      tokenExpiry := None;
      refreshInProgress := false;
      lastRefreshAttempt := None;
      consecutiveFailures := 0;
    }

    predicate IsTokenValid(now: int)
      reads this
    {
      TokenValid(accessToken, tokenExpiry, now)
    }

    /** `_refresh_token`: one refresh-token grant. Every path ends with the
        in-progress flag cleared; a success caches the token for 300 s
        and zeroes the failure count; each failure adds exactly one. */
    method RefreshToken(now: int, storedRefresh: Option<string>, reply: TokenReply)
      returns (token: Option<string>, newStoredRefresh: Option<string>)
      modifies this
      ensures !refreshInProgress && lastRefreshAttempt == Some(now)
      ensures token.Some? <==> (Present(storedRefresh) && reply.Granted? && Present(reply.accessToken))
      ensures token.Some? ==>
                token == reply.accessToken && accessToken == token
                && tokenExpiry == Some(now + TokenCacheDuration) && consecutiveFailures == 0
                && newStoredRefresh == Some(RotatedRefreshToken(storedRefresh.value, reply.refreshToken))
      ensures token.None? ==>
                consecutiveFailures == old(consecutiveFailures) + 1
                && accessToken == old(accessToken) && tokenExpiry == old(tokenExpiry)
      ensures (Present(storedRefresh) && reply.Refused? && Contains(reply.message, "invalid_grant"))
              ==> newStoredRefresh.None?
      ensures (token.None? && !(Present(storedRefresh) && reply.Refused? && Contains(reply.message, "invalid_grant")))
              ==> newStoredRefresh == storedRefresh
    {
      refreshInProgress := true;
      lastRefreshAttempt := Some(now);
      newStoredRefresh := storedRefresh;
      token := None;
      if !Present(storedRefresh) {
        consecutiveFailures := consecutiveFailures + 1;
      } else {
        match reply {
          case Granted(access, refresh) =>
            if !Present(access) {
              consecutiveFailures := consecutiveFailures + 1;
            } else {
              if Present(refresh) && refresh.value != storedRefresh.value {
                newStoredRefresh := refresh;
              }
              accessToken := access;
              tokenExpiry := Some(now + TokenCacheDuration);
              consecutiveFailures := 0;
              token := access;
            }
          case Refused(message) =>
            consecutiveFailures := consecutiveFailures + 1;
            if Contains(message, "invalid_grant") {
              newStoredRefresh := None;
            }
        }
      }
      refreshInProgress := false;
    }

    /** `get_access_token`: the cached token while it is valid, without a
        request; otherwise the outcome of a refresh, as `RefreshToken`
        states it: a token exactly when the grant succeeds, and the stored
        refresh token rotated, dropped or kept. */
    method GetAccessToken(now: int, storedRefresh: Option<string>, reply: TokenReply)
      returns (token: Option<string>, newStoredRefresh: Option<string>, refreshed: bool)
      requires Valid()
      modifies this
      ensures Valid()
      ensures old(IsTokenValid(now)) ==>
                !refreshed && token == old(accessToken) && newStoredRefresh == storedRefresh
                && accessToken == old(accessToken) && tokenExpiry == old(tokenExpiry)
                && consecutiveFailures == old(consecutiveFailures) && lastRefreshAttempt == old(lastRefreshAttempt)
      ensures !old(IsTokenValid(now)) ==> refreshed && lastRefreshAttempt == Some(now)
      ensures token.Some? ==> IsTokenValid(now) && token == accessToken
      ensures !old(IsTokenValid(now)) ==>
                (token.Some? <==> Present(storedRefresh) && reply.Granted? && Present(reply.accessToken))
                && (token.Some? ==>
                      token == reply.accessToken && tokenExpiry == Some(now + TokenCacheDuration)
                      && consecutiveFailures == 0
                      && newStoredRefresh == Some(RotatedRefreshToken(storedRefresh.value, reply.refreshToken)))
                && (token.None? ==>
                      consecutiveFailures == old(consecutiveFailures) + 1
                      && accessToken == old(accessToken) && tokenExpiry == old(tokenExpiry))
                && (Present(storedRefresh) && reply.Refused? && Contains(reply.message, "invalid_grant")
                    ==> newStoredRefresh.None?)
                && (token.None? && !(Present(storedRefresh) && reply.Refused? && Contains(reply.message, "invalid_grant"))
                    ==> newStoredRefresh == storedRefresh)
    {
      if IsTokenValid(now) {
        return accessToken, storedRefresh, false;
      }
      token, newStoredRefresh := RefreshToken(now, storedRefresh, reply);
      refreshed := true;
    }

    /** `invalidate_token`: drops the cached token and its expiry. */
    method InvalidateToken()
      modifies this
      ensures accessToken.None? && tokenExpiry.None?
      ensures refreshInProgress == old(refreshInProgress) && consecutiveFailures == old(consecutiveFailures)
      ensures lastRefreshAttempt == old(lastRefreshAttempt)
      ensures forall now :: !IsTokenValid(now)
    {
      accessToken := None;
      tokenExpiry := None;
    }
  }

  /** After `invalidate_token` the next `get_access_token` refreshes. */
  method InvalidateThenGet(m: AuthManager, now: int, storedRefresh: Option<string>, reply: TokenReply)
    returns (refreshed: bool)
    requires m.Valid()
    modifies m
    ensures refreshed
  {
    m.InvalidateToken();
    var _, _, r := m.GetAccessToken(now, storedRefresh, reply);
    refreshed := r;
  }

  /** The process-wide holder of the single manager. */
  class Registry {
    var instance: AuthManager?

    constructor ()
      ensures instance == null
    {
      instance := null;
    }

    /** `get_auth_manager`: creates the manager on the first call; every
        later call returns that one and ignores its arguments. */
    method GetAuthManager(configFile: string, clientId: string, authUrl: string) returns (m: AuthManager)
      modifies this
      ensures instance == m
      ensures old(instance) != null ==> m == old(instance)
      ensures old(instance) == null ==> fresh(m) && m.Valid() && m.configFile == configFile
                                        && m.clientId == clientId && m.authUrl == authUrl
    {
      if instance == null {
        instance := new AuthManager(configFile, clientId, authUrl);
      }
      m := instance;
    }
  }

  /** Two requests for the manager, even with different settings, yield the
      same object, configured by the first. */
  method SingletonTwice(r: Registry, first: string, second: string) returns (a: AuthManager, b: AuthManager)
    requires r.instance == null
    modifies r
    ensures a == b && a.configFile == first
  {
    a := r.GetAuthManager(first, "client", "url");
    b := r.GetAuthManager(second, "other", "other");
  }
}
