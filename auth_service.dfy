/**
 * Credential check, login bookkeeping and token-pair storage of the API
 * (app/api/endpoints/auth/service.py).
 */
module AuthService {
  import opened Wrappers
  import opened Http
  import opened Security
  import opened Users
  import opened UserStore
  import opened TokenCache

  const IncorrectEmailOrPassword: string := "Incorrect email or password"

  /** The OAuth2 password form: `username` carries the email. */
  datatype LoginForm = LoginForm(username: string, password: string)

  /**
   * `validate_user`: the user registered under the form's email, when the
   * password verifies against its hash; the same 400 error otherwise, whether
   * the email is unknown or the password wrong. There is no activation check.
   */
  function ValidateUser(rows: seq<User>, form: LoginForm): (r: Response<User>)
    ensures r.Ok? <==> (GetUserByEmail(rows, form.username).Some?
      && VerifyPassword(form.password, GetUserByEmail(rows, form.username).value.hashedPassword))
    ensures r.Ok? ==> r.value == GetUserByEmail(rows, form.username).value
    ensures r.Err? ==> r.error == HttpError(400, IncorrectEmailOrPassword)
  {
    match GetUserByEmail(rows, form.username)
    case None => Err(HttpError(400, IncorrectEmailOrPassword))
    case Some(user) =>
      if !VerifyPassword(form.password, user.hashedPassword) then Err(HttpError(400, IncorrectEmailOrPassword))
      else Ok(user)
  }

  /** An unknown email and a wrong password for a known email get the very same response. */
  lemma UnknownEmailLikeWrongPassword(rows: seq<User>, unknown: LoginForm, wrong: LoginForm)
    requires GetUserByEmail(rows, unknown.username).None?
    requires GetUserByEmail(rows, wrong.username).Some?
    requires !VerifyPassword(wrong.password, GetUserByEmail(rows, wrong.username).value.hashedPassword)
    ensures ValidateUser(rows, unknown) == ValidateUser(rows, wrong)
  {
  }

  /** A registered user who gives the password they registered with is accepted, activated or not. */
  lemma RightPasswordAccepted(rows: seq<User>, nextId: nat, i: nat, password: string)
    requires WellFormed(rows, nextId) && i < |rows|
    requires rows[i].hashedPassword == GetPasswordHash(password)
    ensures ValidateUser(rows, LoginForm(rows[i].email, password)) == Ok(rows[i])
  {
    EmailIdentifiesUser(rows, nextId, i);
  }

  /**
   * The in-place change `update_login_counter` makes: a NULL counter becomes 1
   * and the session time is kept; otherwise the counter grows by one and the
   * session time becomes `now`.
   */
  function LoginCounted(u: User, now: int): (v: User)
    ensures u.totalLogin.None? ==> v == u.(totalLogin := Some(1))
    ensures u.totalLogin.Some? ==> v == u.(totalLogin := Some(u.totalLogin.value + 1), sessionAt := now)
  {
    match u.totalLogin
    case None => u.(totalLogin := Some(1))
    case Some(n) => u.(totalLogin := Some(n + 1), sessionAt := now)
  }

  /** `update_login_counter`: commits the counted user and returns the row as stored. */
  method UpdateLoginCounter(table: UserTable, u: User, now: int) returns (stored: User)
    requires table.Valid() && u in table.rows
    modifies table
    ensures table.Valid() && table.nextId == old(table.nextId)
    ensures var k := IndexOfId(old(table.rows), u.id).value;
      stored == LoginCounted(u, now).(updatedAt := now) && table.rows == old(table.rows)[k := stored]
  {
    var k :| 0 <= k < |table.rows| && table.rows[k] == u;
    IdIdentifiesUser(table.rows, table.nextId, k);
    var counted := LoginCounted(u, now);
    var ok := table.Commit(counted, now);
    stored := counted.(updatedAt := now);
  }

  /** `store_tokens`: both directions, each with its own lifetime in seconds. */
  method StoreTokens(cache: RedisCache, cfg: Config, access: Token, refresh: Token)
    modifies cache
    ensures cache.entries == Stored(old(cache.entries), access, refresh,
      cfg.accessTokenExpireMinutes * 60, cfg.refreshTokenExpireMinutes * 60)
  {
    cache.Set(access, refresh, cfg.accessTokenExpireMinutes * 60);
    cache.Set(refresh, access, cfg.refreshTokenExpireMinutes * 60);
  }

  /**
   * `revoke_tokens`: reads the token paired with `access`, then deletes
   * `access` and that token. A missing `access` has no pair to delete.
   */
  method RevokeTokens(cache: RedisCache, access: Token)
    modifies cache
    ensures cache.entries == Revoked(old(cache.entries), access)
  {
    var paired := cache.Get(access);
    cache.Delete(access);
    if paired.Some? {
      cache.Delete(paired.value);
    }
  }

  /** `valid_refresh_token`: the token is a key of the cache, whatever kind of token it is. */
  function ValidRefreshToken(entries: map<Token, Entry>, t: Token): (b: bool)
    ensures b <==> t in entries
  {
    t in entries
  }
}
