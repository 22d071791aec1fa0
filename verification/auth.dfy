/**
 * The token manager of plugin/auth.go: an access/refresh token pair with an
 * expiry, refreshed when it is within five minutes of expiring.
 *
 * The HTTP fetch of `GetAccessToken` is an input: the token string it would
 * return, where "" stands for every failure (transport error or a response
 * without a token). The token lifetime `TokenExpiresInSettings` is an input
 * `ttl`; configuration assigns it only positive values but leaves it 0 when
 * the setting is absent.
 */
module Auth {
  import opened Common

  /** `5*time.Minute`, in seconds. */
  const RefreshThreshold: int := 300

  /** The mutable fields of `TokenManager` (the encryption key never changes). */
  datatype Credentials = Credentials(accessToken: string, refreshToken: string, expiresAt: Instant, refreshEnabled: bool)

  /** What `RefreshAccessToken` returns, with the state it leaves behind. */
  datatype RefreshResult = RefreshResult(after: Credentials, token: string, err: Option<string>)

  /** The state of a fresh `NewTokenManager`. */
  const InitialCredentials := Credentials("", "", ZeroTime, true)

  /** `SetAccessToken` at time `now`. */
  function SetToken(c: Credentials, token: string, refresh: string, expiresIn: int, now: Instant): (r: Credentials)
    ensures r.accessToken == token && r.refreshToken == refresh
    ensures r.expiresAt - now == expiresIn
    ensures r.refreshEnabled == c.refreshEnabled
  {
    Credentials(token, refresh, now + expiresIn, c.refreshEnabled)
  }

  /** The guard of `RefreshAccessToken`: `time.Until(expiresAt) < 5*time.Minute && refreshEnabled`. */
  predicate RefreshDue(c: Credentials, now: Instant): (due: bool)
    ensures due ==> c.refreshEnabled
    ensures c.refreshEnabled && c.expiresAt <= now ==> due
    ensures due ==> c.expiresAt < now + RefreshThreshold
  {
    c.expiresAt - now < RefreshThreshold && c.refreshEnabled
  }

  /** `RefreshAccessToken` at time `now`, given the fetch result and the configured lifetime. */
  function Refresh(c: Credentials, now: Instant, fetched: string, ttl: int): (r: RefreshResult)
    ensures r.err == None
    ensures r.after.refreshEnabled == c.refreshEnabled
    ensures !RefreshDue(c, now) ==> r.after == c && r.token == c.accessToken
    ensures RefreshDue(c, now) && fetched == "" ==> r.after == c && r.token == ""
    ensures RefreshDue(c, now) && fetched != "" ==>
              r.token == fetched && r.after.accessToken == fetched && r.after.refreshToken == fetched &&
              r.after.expiresAt == now + ttl
  {
    if RefreshDue(c, now) then
      if fetched == "" then RefreshResult(c, "", None)
      else RefreshResult(Credentials(fetched, fetched, now + ttl, c.refreshEnabled), fetched, None)
    else RefreshResult(c, c.accessToken, None)
  }

  /** A fetch failure never alters the stored tokens, whatever the state and time. */
  lemma FailedFetchKeepsTokens(c: Credentials, now: Instant, ttl: int)
    ensures Refresh(c, now, "", ttl).after == c
  {
  }

  /** A successful refresh pushes expiry into the future exactly when the lifetime is positive. */
  lemma RefreshedTokenExpiresLater(c: Credentials, now: Instant, fetched: string, ttl: int)
    requires RefreshDue(c, now) && fetched != ""
    ensures Refresh(c, now, fetched, ttl).after.expiresAt > now <==> ttl > 0
  {
  }

  /**
   * With a lifetime of at least the threshold, a second refresh at the same
   * time fetches nothing and returns the token just obtained.
   */
  lemma RefreshIsIdempotent(c: Credentials, now: Instant, fetched: string, again: string, ttl: int)
    requires fetched != "" && ttl >= RefreshThreshold
    ensures var c' := Refresh(c, now, fetched, ttl).after;
            !RefreshDue(c', now) && Refresh(c', now, again, ttl) == RefreshResult(c', c'.accessToken, None)
  {
  }

  /**
   * With the lifetime left at 0 (no setting configured), a refreshed token is
   * due again at once, so every tick fetches a new one.
   */
  lemma ZeroLifetimeAlwaysDue(c: Credentials, now: Instant, fetched: string)
    requires RefreshDue(c, now) && fetched != ""
    ensures RefreshDue(Refresh(c, now, fetched, 0).after, now)
  {
  }

  /** A token set with a 5 second lifetime is due for refresh 6 seconds later. */
  lemma ShortLivedTokenIsDue(now: Instant)
    ensures RefreshDue(SetToken(InitialCredentials, "A", "R", 5, now), now + 6)
    ensures Refresh(SetToken(InitialCredentials, "A", "R", 5, now), now + 6, "B", 7200).after.accessToken == "B"
  {
  }

  /** A new manager holds no token and is due for refresh at any time after year 1. */
  lemma NewManagerIsDue(now: Instant)
    requires now > ZeroTime
    ensures RefreshDue(InitialCredentials, now)
  {
  }

  class TokenManager {
    var accessToken: string
    var refreshToken: string
    var expiresAt: Instant
    var encryptionKey: string
    var refreshEnabled: bool

    function State(): Credentials
      reads this
    {
      Credentials(accessToken, refreshToken, expiresAt, refreshEnabled)
    }

    /** `NewTokenManager`: empty tokens, zero expiry, refresh enabled. */
    constructor (key: string)
      ensures State() == InitialCredentials
      ensures encryptionKey == key
    {
      accessToken := "";
      refreshToken := "";
      expiresAt := ZeroTime;
      encryptionKey := key;
      refreshEnabled := true;
    }

    method SetAccessToken(token: string, refresh: string, expiresIn: int, now: Instant)
      modifies this
      ensures State() == SetToken(old(State()), token, refresh, expiresIn, now)
      ensures encryptionKey == old(encryptionKey)
    {
      accessToken := token;
      refreshToken := refresh;
      expiresAt := now + expiresIn;
    }

    method RefreshAccessToken(now: Instant, fetched: string, ttl: int) returns (token: string, err: Option<string>)
      modifies this
      ensures State() == Refresh(old(State()), now, fetched, ttl).after
      ensures token == Refresh(old(State()), now, fetched, ttl).token
      ensures err == None
      ensures encryptionKey == old(encryptionKey)
    {
      if expiresAt - now < RefreshThreshold && refreshEnabled {
        var newToken := fetched;
        if newToken == "" {
          return "", None;
        }
        accessToken := newToken;
        refreshToken := newToken;
        expiresAt := now + ttl;
      }
      return accessToken, None;
    }
  }
}
