/**
 * The web sessions of the dashboard login: a table of session rows keyed by their token, the
 * cached Discord profiles they point to, the `expiresAt` arithmetic and the decision to refresh
 * the Discord access token shortly before it expires.
 *
 * Times are milliseconds since the epoch; `expiresIn` is in seconds, as Discord sends it.
 * Every clock reading is a parameter, and so is the answer of Discord's token endpoint.
 */
module Sessions {
  import opened Wrappers
  import opened Text

  /** How long the session cookie lives, in seconds: thirty days. */
  const SessionCookieMaxAge: nat := 30 * 24 * 60 * 60

  /** A session is refreshed once less than five minutes (in ms) remain before it expires. */
  const RefreshBuffer: nat := 5 * 60 * 1000

  const UserNotFound: string := "User not found"
  const SessionExpired: string := "Session expired"

  /** The Discord profile of a user as the login returns it. */
  datatype DiscordUser = DiscordUser(
    id: string, username: string, discriminator: string, avatar: Option<string>,
    globalName: Option<string>, banner: Option<string>, accentColor: Option<int>, locale: string,
    email: Option<string>, verified: bool, premiumType: int, flags: int, publicFlags: int,
    mfaEnabled: bool)

  /** A row of the cached-user table. */
  datatype CachedUser = CachedUser(
    id: string, username: string, discriminator: string, avatarId: Option<string>,
    globalName: Option<string>, banner: Option<string>, accentColor: Option<int>, locale: string,
    email: Option<string>, verified: bool, premiumType: int, flags: int, publicFlags: int,
    updatedAt: int)

  /** A row of the session table. */
  datatype SessionRow = SessionRow(
    token: string, userId: string, accessToken: string, refreshToken: string, expiresIn: int,
    tokenType: string, scope: seq<string>, cookieMaxAge: nat,
    createdAt: int, refreshedAt: int, lastUsedAt: int, cookieSetAt: int)

  /** What `getSession` hands to the controllers. */
  datatype UserSession = UserSession(
    token: string, userId: string, accessToken: string, refreshToken: string, expiresAt: int,
    user: DiscordUser)

  /** The fields of Discord's token answer that a refresh uses. */
  datatype TokenResponse = TokenResponse(accessToken: string, refreshToken: string, expiresIn: int)

  // ---------------------------------------------------------------------------------------
  // Rows and views
  // ---------------------------------------------------------------------------------------

  /** The row `createSession` inserts at time `now`. */
  function NewRow(token: string, userId: string, accessToken: string, refreshToken: string,
                  expiresIn: int, scope: string, now: int): SessionRow
  {
    SessionRow(token, userId, accessToken, refreshToken, expiresIn, "Bearer", Split(scope, ' '),
               SessionCookieMaxAge, now, now, now, now)
  }

  /** The row after `updateSession` at time `now` stored a new pair of tokens. */
  function WithTokens(row: SessionRow, t: TokenResponse, now: int): SessionRow
  {
    row.(accessToken := t.accessToken, refreshToken := t.refreshToken, expiresIn := t.expiresIn,
         refreshedAt := now, lastUsedAt := now)
  }

  /** The instant the Discord access token of a row runs out. */
  function ExpiresAt(row: SessionRow): int
  {
    row.refreshedAt + row.expiresIn * 1000
  }

  /** The profile rebuilt from a cached row; multi-factor authentication is always reported off. */
  function UserOf(c: CachedUser): DiscordUser
  {
    DiscordUser(c.id, c.username, c.discriminator, c.avatarId, c.globalName, c.banner,
                c.accentColor, c.locale, c.email, c.verified, c.premiumType, c.flags,
                c.publicFlags, false)
  }

  /** The cached row `cacheUserInfo` writes at time `now` (both the update and the create side). */
  function CacheRow(u: DiscordUser, now: int): CachedUser
  {
    CachedUser(u.id, u.username, u.discriminator, u.avatar, u.globalName, u.banner,
               u.accentColor, u.locale, u.email, u.verified, u.premiumType, u.flags,
               u.publicFlags, now)
  }

  /** The session `getSession` returns for a row and its cached user. */
  function SessionView(row: SessionRow, user: CachedUser): UserSession
  {
    UserSession(row.token, row.userId, row.accessToken, row.refreshToken, ExpiresAt(row), UserOf(user))
  }

  // ---------------------------------------------------------------------------------------
  // The refresh decision
  // ---------------------------------------------------------------------------------------

  /** The token must be refreshed unless more than the buffer remains before it expires. */
  predicate NeedsRefresh(session: UserSession, now: int)
  {
    !(session.expiresAt - now > RefreshBuffer)
  }

  /** The session with the new tokens and an expiry counted from `now`. */
  function Refreshed(session: UserSession, t: TokenResponse, now: int): UserSession
  {
    session.(accessToken := t.accessToken, refreshToken := t.refreshToken, expiresAt := now + t.expiresIn * 1000)
  }

  /**
   * What `refreshSessionIfExpired` answers at time `now`: `response` is Discord's answer to the
   * refresh request (`None` when it failed) and `stored` says whether the session row was still
   * there to be updated. Either failure becomes Unauthorized "Session expired".
   */
  function RefreshOutcome(session: UserSession, now: int, response: Option<TokenResponse>, stored: bool): (r: Result<UserSession>)
    ensures !NeedsRefresh(session, now) ==> r == Ok(session)
    ensures NeedsRefresh(session, now) && (response.None? || !stored) ==> r == Err(SessionExpired)
    ensures NeedsRefresh(session, now) && response.Some? && stored ==>
      r.Ok? && r.value.token == session.token && r.value.userId == session.userId && r.value.user == session.user
      && r.value.accessToken == response.value.accessToken && r.value.refreshToken == response.value.refreshToken
      && r.value.expiresAt == now + response.value.expiresIn * 1000
  {
    if !NeedsRefresh(session, now) then Ok(session)
    else if response.None? || !stored then Err(SessionExpired)
    else Ok(Refreshed(session, response.value, now))
  }

  // ---------------------------------------------------------------------------------------
  // The tables
  // ---------------------------------------------------------------------------------------

  /** The session table and the cached-user table. */
  class SessionStore {
    var sessions: map<string, SessionRow>
    var users: map<string, CachedUser>

    constructor()
      ensures sessions == map[] && users == map[]
    {
      sessions := map[];
      users := map[];
    }

    /**
     * createSession with the freshly generated `token`: the row is inserted and the token is
     * returned; a token already in the table breaks its uniqueness and nothing is written.
     */
    method CreateSession(token: string, userId: string, accessToken: string, refreshToken: string,
                         expiresIn: int, scope: string, now: int) returns (r: Result<string>)
      modifies this
      ensures token in old(sessions) ==> r.Err? && sessions == old(sessions)
      ensures token !in old(sessions) ==>
        r == Ok(token) && sessions == old(sessions)[token := NewRow(token, userId, accessToken, refreshToken, expiresIn, scope, now)]
      ensures users == old(users)
    {
      if token in sessions {
        r := Err("Unique constraint failed on token");
      } else {
        sessions := sessions[token := NewRow(token, userId, accessToken, refreshToken, expiresIn, scope, now)];
        r := Ok(token);
      }
    }

    /** updateSession at time `now`; updating a token that is not in the table fails. */
    method UpdateSession(token: string, t: TokenResponse, now: int) returns (r: Result<()>)
      modifies this
      ensures token in old(sessions) ==> r == Ok(()) && sessions == old(sessions)[token := WithTokens(old(sessions)[token], t, now)]
      ensures token !in old(sessions) ==> r.Err? && sessions == old(sessions)
      ensures users == old(users)
    {
      if token in sessions {
        sessions := sessions[token := WithTokens(sessions[token], t, now)];
        r := Ok(());
      } else {
        r := Err("Record to update not found");
      }
    }

    /**
     * getSession at time `now`: no session for an unknown token; otherwise the row's lastUsedAt
     * is written first, and only then does a missing cached user make it fail.
     */
    method GetSession(token: string, now: int) returns (r: Result<Option<UserSession>>)
      modifies this
      ensures token !in old(sessions) ==> r == Ok(None) && sessions == old(sessions)
      ensures token in old(sessions) ==> sessions == old(sessions)[token := old(sessions)[token].(lastUsedAt := now)]
      ensures token in old(sessions) && old(sessions)[token].userId !in users ==> r == Err(UserNotFound)
      ensures token in old(sessions) && old(sessions)[token].userId in users ==>
        r == Ok(Some(SessionView(old(sessions)[token], users[old(sessions)[token].userId])))
      ensures users == old(users)
    {
      if token !in sessions {
        return Ok(None);
      }
      var row := sessions[token];
      sessions := sessions[token := row.(lastUsedAt := now)];
      if row.userId !in users {
        return Err(UserNotFound);
      }
      r := Ok(Some(SessionView(row, users[row.userId])));
    }

    /**
     * refreshSessionIfExpired, deciding at time `now`; `response` is Discord's answer to the
     * refresh request and `updatedAt` the clock reading of the row update that follows it.
     */
    method RefreshSessionIfExpired(session: UserSession, now: int, response: Option<TokenResponse>, updatedAt: int)
      returns (r: Result<UserSession>)
      modifies this
      ensures r == RefreshOutcome(session, now, response, session.token in old(sessions))
      ensures NeedsRefresh(session, now) && response.Some? && session.token in old(sessions) ==>
        sessions == old(sessions)[session.token := WithTokens(old(sessions)[session.token], response.value, updatedAt)]
      ensures !(NeedsRefresh(session, now) && response.Some? && session.token in old(sessions)) ==> sessions == old(sessions)
      ensures users == old(users)
    {
      if !NeedsRefresh(session, now) {
        return Ok(session);
      }
      if response.None? {
        return Err(SessionExpired);
      }
      var t := response.value;
      var updated := UpdateSession(session.token, t, updatedAt);
      if updated.Err? {
        return Err(SessionExpired);
      }
      r := Ok(Refreshed(session, t, now));
    }

    /** deleteSession: the row goes; deleting a token that is not in the table fails. */
    method DeleteSession(token: string) returns (r: Result<()>)
      modifies this
      ensures token in old(sessions) ==> r == Ok(()) && sessions == old(sessions) - {token}
      ensures token !in old(sessions) ==> r.Err? && sessions == old(sessions)
      ensures users == old(users)
    {
      if token in sessions {
        sessions := sessions - {token};
        r := Ok(());
      } else {
        r := Err("Record to delete does not exist");
      }
    }

    /** cacheUserInfo at time `now`: insert or overwrite the cached profile of the user. */
    method CacheUserInfo(user: DiscordUser, now: int)
      modifies this
      ensures users == old(users)[user.id := CacheRow(user, now)]
      ensures sessions == old(sessions)
    {
      users := users[user.id := CacheRow(user, now)];
    }
  }

  // ---------------------------------------------------------------------------------------
  // Properties
  // ---------------------------------------------------------------------------------------

  /**
   * A new session keeps the scope as the words of the scope string (joining them with spaces
   * gives the string back), starts all four timestamps at `now`, lives in a thirty-day cookie,
   * and is reported as expiring `expiresIn` seconds after `now`, with the tokens it was given.
   */
  lemma CreatedSessionMeaning(token: string, userId: string, accessToken: string, refreshToken: string,
                              expiresIn: int, scope: string, now: int, user: CachedUser)
    ensures var row := NewRow(token, userId, accessToken, refreshToken, expiresIn, scope, now);
      Join(row.scope, [' ']) == scope
      && row.createdAt == now && row.refreshedAt == now && row.lastUsedAt == now && row.cookieSetAt == now
      && row.cookieMaxAge == 2592000 && row.tokenType == "Bearer"
      && SessionView(row, user) == UserSession(token, userId, accessToken, refreshToken, now + expiresIn * 1000, UserOf(user))
  {
    JoinSplit(scope, ' ');
  }

  /** Writing lastUsedAt, as getSession does first, changes nothing getSession reports. */
  lemma TouchInvisible(row: SessionRow, user: CachedUser, now: int)
    ensures SessionView(row.(lastUsedAt := now), user) == SessionView(row, user)
  {
  }

  /**
   * What the next getSession reports after a refresh is what the refresh returned, when both
   * read the same clock: the stored `refreshedAt + expiresIn·1000` is the returned expiry.
   */
  lemma RefreshAgreesWithStore(row: SessionRow, user: CachedUser, t: TokenResponse, at: int)
    ensures SessionView(WithTokens(row, t, at), user) == Refreshed(SessionView(row, user), t, at)
  {
  }

  /**
   * A successful refresh to a token that lives longer than the buffer is not due again at the
   * same instant, so a second call returns the refreshed session untouched without asking Discord.
   */
  lemma RefreshSettles(session: UserSession, now: int, t: TokenResponse, response: Option<TokenResponse>, stored: bool)
    requires NeedsRefresh(session, now) && t.expiresIn * 1000 > RefreshBuffer
    ensures var r := RefreshOutcome(session, now, Some(t), true);
      r.Ok? && !NeedsRefresh(r.value, now) && RefreshOutcome(r.value, now, response, stored) == r
  {
  }

  /** Caching a profile and reading it back gives the profile, with multi-factor reported off. */
  lemma CacheRoundTrip(u: DiscordUser, now: int)
    ensures UserOf(CacheRow(u, now)) == u.(mfaEnabled := false)
  {
  }
}
