/**
 * The token endpoints of the API (app/api/v1/endpoints/auth/auth.py): login,
 * logout and refresh.
 */
module ApiAuth {
  import opened Wrappers
  import opened Http
  import opened Decimal
  import opened Security
  import opened Users
  import opened UserStore
  import opened TokenCache
  import opened AuthService
  import opened ApiDeps

  const InvalidatedRefreshToken: string := "Invalidated/Invalid refresh token"

  /** The bearer token response of section 5.1 of RFC 6749, with both expiries. */
  datatype TokenResponse = TokenResponse(
    tokenType: string, accessToken: Token, expireAt: int, refreshToken: Token, refreshExpireAt: int)

  datatype LogoutResponse = LogoutResponse(fullName: string, email: string, logoutStatus: bool)

  /** The response for a freshly created pair for user `id`. */
  function IssuePair(cfg: Config, id: nat, now: int): (r: TokenResponse)
    ensures r.tokenType == "bearer"
    ensures (r.accessToken, r.expireAt) == CreateAccessToken(cfg, NatToString(id), now)
    ensures (r.refreshToken, r.refreshExpireAt) == CreateRefreshToken(cfg, NatToString(id), now)
    ensures r.accessToken != r.refreshToken
  {
    var (access, expireAt) := CreateAccessToken(cfg, NatToString(id), now);
    var (refresh, refreshExpireAt) := CreateRefreshToken(cfg, NatToString(id), now);
    TokenResponse("bearer", access, expireAt, refresh, refreshExpireAt)
  }

  /**
   * `login_access_token`: validate, then count the login, then create and
   * store the pair. A failed validation changes neither the table nor the cache.
   */
  method LoginAccessToken(cache: RedisCache, table: UserTable, cfg: Config, form: LoginForm, now: int)
    returns (r: Response<TokenResponse>)
    requires table.Valid()
    modifies cache, table
    ensures table.Valid() && table.nextId == old(table.nextId)
    ensures r.Err? <==> ValidateUser(old(table.rows), form).Err?
    ensures r.Err? ==> (r.error == ValidateUser(old(table.rows), form).error
      && table.rows == old(table.rows) && cache.entries == old(cache.entries))
    ensures r.Ok? ==>
      var u := ValidateUser(old(table.rows), form).value;
      var k := IndexOfId(old(table.rows), u.id).value;
      && r.value == IssuePair(cfg, u.id, now)
      && table.rows == old(table.rows)[k := LoginCounted(u, now).(updatedAt := now)]
      && cache.entries == Stored(old(cache.entries), r.value.accessToken, r.value.refreshToken,
           cfg.accessTokenExpireMinutes * 60, cfg.refreshTokenExpireMinutes * 60)
  {
    var validated := ValidateUser(table.rows, form);
    if validated.Err? {
      return Err(validated.error);
    }
    var user := UpdateLoginCounter(table, validated.value, now);
    var (access, expireAt) := CreateAccessToken(cfg, NatToString(user.id), now);
    var (refresh, refreshExpireAt) := CreateRefreshToken(cfg, NatToString(user.id), now);
    StoreTokens(cache, cfg, access, refresh);
    r := Ok(TokenResponse("bearer", access, expireAt, refresh, refreshExpireAt));
  }

  /**
   * `logout_access_token`: the current user is resolved first (a missing
   * bearer gives 401); then the presented token and its pair are revoked.
   */
  method LogoutAccessToken(cache: RedisCache, rows: seq<User>, cfg: Config, header: Option<Token>, now: int)
    returns (r: Response<LogoutResponse>)
    modifies cache
    ensures r.Err? <==> GetCurrentUser(cfg, old(cache.entries), rows, header, now).Err?
    ensures r.Err? ==> (r.error == GetCurrentUser(cfg, old(cache.entries), rows, header, now).error
      && cache.entries == old(cache.entries))
    ensures r.Ok? ==>
      var u := GetCurrentUser(cfg, old(cache.entries), rows, header, now).value;
      && r.value == LogoutResponse(u.fullName, u.email, true)
      && cache.entries == Revoked(old(cache.entries), header.value)
  {
    var current := GetCurrentUser(cfg, cache.entries, rows, header, now);
    if current.Err? {
      return Err(current.error);
    }
    var token := GetCurrentToken(header).value;
    RevokeTokens(cache, token);
    r := Ok(LogoutResponse(current.value.fullName, current.value.email, true));
  }

  /**
   * `refresh_token`: liveness in the cache first, then decoding and the
   * refresh flag, then the user; on success a new pair for the user, which is
   * NOT stored in the cache.
   */
  function RefreshToken(cfg: Config, entries: map<Token, Entry>, rows: seq<User>, input: Token, now: int)
    : (r: Response<TokenResponse>)
    ensures input !in entries ==> r == Err(HttpError(403, InvalidatedRefreshToken))
    ensures input in entries && !(Decode(input, cfg.secretKey, now).Valid? && input.claims.refresh)
      ==> r == Err(HttpError(403, CouldNotValidate))
    ensures input in entries && Decode(input, cfg.secretKey, now).Valid? && PayloadSubject(input.claims).None?
      ==> r == Err(HttpError(403, CouldNotValidate))
    ensures input in entries && Decode(input, cfg.secretKey, now).Valid? && input.claims.refresh
      && PayloadSubject(input.claims).Some? && GetUserById(rows, PayloadSubject(input.claims).value).None?
      ==> r == Err(HttpError(404, UserNotFound))
    ensures r.Ok? <==> (input in entries && Decode(input, cfg.secretKey, now).Valid? && input.claims.refresh
      && PayloadSubject(input.claims).Some? && GetUserById(rows, PayloadSubject(input.claims).value).Some?)
    ensures r.Ok? ==> r.value == IssuePair(cfg, PayloadSubject(input.claims).value, now)
  {
    if !ValidRefreshToken(entries, input) then Err(HttpError(403, InvalidatedRefreshToken))
    else match Decode(input, cfg.secretKey, now)
      case Invalid => Err(HttpError(403, CouldNotValidate))
      case Expired(_) => Err(HttpError(403, CouldNotValidate))
      case Valid(claims) =>
        match PayloadSubject(claims)
        case None => Err(HttpError(403, CouldNotValidate))
        case Some(id) =>
          if !claims.refresh then Err(HttpError(403, CouldNotValidate))
          else match GetUserById(rows, id)
            case None => Err(HttpError(404, UserNotFound))
            case Some(user) => Ok(IssuePair(cfg, user.id, now))
  }

  /**
   * After a successful login the returned access token, presented before it
   * expires, authenticates the user who logged in, as the table now stores it.
   */
  lemma LoginThenAuthenticate(cfg: Config, before: map<Token, Entry>, rows: seq<User>, nextId: nat,
                              u: User, now: int, later: int)
    requires WellFormed(rows, nextId) && u in rows && now <= later
    requires later <= now + cfg.accessTokenExpireMinutes * 60
    ensures var p := IssuePair(cfg, u.id, now);
      var after := Stored(before, p.accessToken, p.refreshToken,
        cfg.accessTokenExpireMinutes * 60, cfg.refreshTokenExpireMinutes * 60);
      var k := IndexOfId(rows, u.id).value;
      var rows' := rows[k := LoginCounted(u, now).(updatedAt := now)];
      GetCurrentUser(cfg, after, rows', Some(p.accessToken), later) == Ok(rows'[k])
  {
    var p := IssuePair(cfg, u.id, now);
    ParseNatToString(u.id);
    var k := IndexOfId(rows, u.id).value;
    var rows' := rows[k := LoginCounted(u, now).(updatedAt := now)];
    assert WellFormed(rows', nextId);
    IdIdentifiesUser(rows', nextId, k);
  }

  /** After logout, the presented token is refused as revoked. */
  lemma LogoutThenRevoked(cfg: Config, entries: map<Token, Entry>, rows: seq<User>, t: Token, now: int, later: int)
    ensures GetCurrentUser(cfg, Revoked(entries, t), rows, Some(t), later) == Err(HttpError(403, TokenRevokedMessage))
  {
  }

  /**
   * A refreshed access token is never stored, so, unless the very same token
   * was already live, presenting it is refused as revoked.
   */
  lemma RefreshedAccessTokenIsRevoked(cfg: Config, entries: map<Token, Entry>, rows: seq<User>, input: Token, now: int, later: int)
    requires RefreshToken(cfg, entries, rows, input, now).Ok?
    requires RefreshToken(cfg, entries, rows, input, now).value.accessToken !in entries
    ensures GetCurrentUser(cfg, entries, rows, Some(RefreshToken(cfg, entries, rows, input, now).value.accessToken), later)
         == Err(HttpError(403, TokenRevokedMessage))
  {
  }

  /** Refreshing with a live access token is forbidden. */
  lemma RefreshWithAccessTokenForbidden(cfg: Config, entries: map<Token, Entry>, rows: seq<User>, id: nat, now: int, later: int)
    requires CreateAccessToken(cfg, NatToString(id), now).0 in entries
    ensures RefreshToken(cfg, entries, rows, CreateAccessToken(cfg, NatToString(id), now).0, later)
         == Err(HttpError(403, CouldNotValidate))
  {
  }

  /** A string that is not a token, such as "an invalid refresh token", is refused with 403, live or not. */
  lemma MalformedRefreshForbidden(cfg: Config, entries: map<Token, Entry>, rows: seq<User>, text: string, now: int)
    ensures RefreshToken(cfg, entries, rows, Malformed(text), now).Err?
    ensures RefreshToken(cfg, entries, rows, Malformed(text), now).error.status == 403
  {
  }
}
