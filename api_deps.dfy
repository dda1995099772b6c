/**
 * Request dependencies of the API (app/api/deps.py): the bearer token and the
 * user it authenticates. `get_current_user` only reads, so it is a function of
 * the cache entries and the user rows at the time of the request.
 */
module ApiDeps {
  import opened Wrappers
  import opened Http
  import opened Decimal
  import opened Security
  import opened Users
  import opened UserStore
  import opened TokenCache

  const NotAuthenticated: string := "Not authenticated"
  const TokenRevokedMessage: string := "Your token have been revoked"
  const CouldNotValidate: string := "Could not validate credentials"
  const UserNotFound: string := "User not found"

  /**
   * The bearer scheme: a request without an `Authorization: Bearer` header is
   * refused with 401 before any handler code runs.
   */
  function BearerToken(header: Option<Token>): (r: Response<Token>)
    ensures header.None? <==> r == Err(HttpError(401, NotAuthenticated))
    ensures header.Some? ==> r == Ok(header.value)
  {
    match header
    case None => Err(HttpError(401, NotAuthenticated))
    case Some(t) => Ok(t)
  }

  /** `get_current_token`: the bearer token, unchanged. */
  function GetCurrentToken(header: Option<Token>): (r: Response<Token>)
    ensures r == BearerToken(header)
    ensures r.Ok? ==> Some(r.value) == header
  {
    BearerToken(header)
  }

  /** `token_revoked`: true exactly when the cache has no entry for the token. */
  function TokenRevoked(entries: map<Token, Entry>, t: Token): (b: bool)
    ensures b <==> t !in entries
  {
    t !in entries
  }

  /**
   * The payload schema's reading of the claims: `sub` must be an integer (the
   * user's primary key); `refresh` is already a boolean.
   */
  function PayloadSubject(c: Claims): Option<nat> {
    ParseNat(c.sub)
  }

  /**
   * `get_current_user`: revocation first, then decoding and payload
   * validation, then the user lookup. The `refresh` flag is never looked at.
   */
  function GetCurrentUser(cfg: Config, entries: map<Token, Entry>, rows: seq<User>, header: Option<Token>, now: int)
    : (r: Response<User>)
    ensures header.None? ==> r == Err(HttpError(401, NotAuthenticated))
    ensures header.Some? && header.value !in entries ==> r == Err(HttpError(403, TokenRevokedMessage))
    ensures header.Some? && header.value in entries && !Decode(header.value, cfg.secretKey, now).Valid?
      ==> r == Err(HttpError(403, CouldNotValidate))
    ensures header.Some? && header.value in entries && Decode(header.value, cfg.secretKey, now).Valid?
      && PayloadSubject(header.value.claims).None?
      ==> r == Err(HttpError(403, CouldNotValidate))
    ensures header.Some? && header.value in entries && Decode(header.value, cfg.secretKey, now).Valid?
      && PayloadSubject(header.value.claims).Some?
      && GetUserById(rows, PayloadSubject(header.value.claims).value).None?
      ==> r == Err(HttpError(404, UserNotFound))
    ensures r.Ok? <==> (header.Some? && header.value in entries && Decode(header.value, cfg.secretKey, now).Valid?
      && PayloadSubject(header.value.claims).Some?
      && GetUserById(rows, PayloadSubject(header.value.claims).value).Some?)
    ensures r.Ok? ==> r.value == GetUserById(rows, PayloadSubject(header.value.claims).value).value
  {
    match BearerToken(header)
    case Err(e) => Err(e)
    case Ok(token) =>
      if TokenRevoked(entries, token) then Err(HttpError(403, TokenRevokedMessage))
      else match Decode(token, cfg.secretKey, now)
        case Invalid => Err(HttpError(403, CouldNotValidate))
        case Expired(_) => Err(HttpError(403, CouldNotValidate))
        case Valid(claims) =>
          match PayloadSubject(claims)
          case None => Err(HttpError(403, CouldNotValidate))
          case Some(id) =>
            match GetUserById(rows, id)
            case None => Err(HttpError(404, UserNotFound))
            case Some(user) => Ok(user)
  }

  /** A live token whose subject has no user row gets 404. */
  lemma UnknownSubjectNotFound(cfg: Config, entries: map<Token, Entry>, rows: seq<User>, t: Token, now: int)
    requires t in entries && Decode(t, cfg.secretKey, now).Valid?
    requires PayloadSubject(t.claims).Some? && GetUserById(rows, PayloadSubject(t.claims).value).None?
    ensures GetCurrentUser(cfg, entries, rows, Some(t), now) == Err(HttpError(404, UserNotFound))
  {
  }

  /** Tokens that differ only in their `refresh` flag authenticate identically. */
  lemma RefreshFlagIgnored(cfg: Config, entries: map<Token, Entry>, rows: seq<User>, c: Claims, key: string, now: int)
    requires Signed(c.(refresh := true), key) in entries <==> Signed(c.(refresh := false), key) in entries
    ensures GetCurrentUser(cfg, entries, rows, Some(Signed(c.(refresh := true), key)), now)
         == GetCurrentUser(cfg, entries, rows, Some(Signed(c.(refresh := false), key)), now)
  {
  }
}
