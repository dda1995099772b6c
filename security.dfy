/**
 * Token codec and credential store (app/core/security.py).
 *
 * Tokens are JSON Web Tokens carrying the claims `sub` and `exp` (sections
 * 4.1.2 and 4.1.4 of RFC 7519) plus a boolean `refresh`, signed with HS256
 * (section 3.2 of RFC 7518) under one process-wide secret. The signature is
 * modelled abstractly: a token is either the claims together with the key that
 * signed them, or text that is not a well-formed signed token. Encoding is the
 * `Signed` constructor, so it is injective by construction.
 *
 * bcrypt is modelled as a collision-free digest: `Verify(p, Hash(p))` holds and
 * a digest verifies no other password.
 */
module Security {
  import opened Wrappers

  /** The process-wide settings the codec reads. Times are in seconds. */
  datatype Config = Config(
    secretKey: string,
    accessTokenExpireMinutes: nat,
    refreshTokenExpireMinutes: nat,
    emailVerificationExpireMinutes: nat)

  /** The payload `{exp, sub, refresh}` every token of this system carries. */
  datatype Claims = Claims(sub: string, exp: int, refresh: bool)

  /** A bearer string as the codec sees it. */
  datatype Token = Signed(claims: Claims, key: string) | Malformed(text: string)

  /** The three ways `jwt.decode` can end. */
  datatype Decoded = Valid(claims: Claims) | Expired(claims: Claims) | Invalid

  /** `jwt.encode(claims, key, algorithm=HS256)`. */
  function Encode(c: Claims, key: string): (t: Token)
    ensures t.Signed? && t.claims == c && t.key == key
  {
    Signed(c, key)
  }

  /**
   * `jwt.decode(t, key, algorithms=[HS256])` at time `now`: a token signed with
   * another key, or not a token at all, is invalid; a correctly signed token is
   * expired once `exp < now` (no leeway) and valid otherwise.
   */
  function Decode(t: Token, key: string, now: int): (d: Decoded)
    ensures d.Valid? <==> t.Signed? && t.key == key && now <= t.claims.exp
    ensures d.Expired? <==> t.Signed? && t.key == key && t.claims.exp < now
    ensures !d.Invalid? ==> d.claims == t.claims
  {
    match t
    case Malformed(_) => Invalid
    case Signed(c, k) =>
      if k != key then Invalid
      else if c.exp < now then Expired(c)
      else Valid(c)
  }

  /** Builds a token for `subject` that lives `minutes` from `now`; returns it with its expiry. */
  function CreateToken(key: string, subject: string, minutes: nat, refresh: bool, now: int): (r: (Token, int))
    ensures r.1 == now + minutes * 60
    ensures r.0 == Encode(Claims(subject, r.1, refresh), key)
  {
    var expire := now + minutes * 60;
    (Encode(Claims(subject, expire, refresh), key), expire)
  }

  /** `create_access_token`: `{sub: str(subject), refresh: false}` expiring after the access lifetime. */
  function CreateAccessToken(cfg: Config, subject: string, now: int): (r: (Token, int))
    ensures r.1 == now + cfg.accessTokenExpireMinutes * 60
    ensures r.0 == Signed(Claims(subject, r.1, false), cfg.secretKey)
  {
    CreateToken(cfg.secretKey, subject, cfg.accessTokenExpireMinutes, false, now)
  }

  /** `create_refresh_token`: as an access token, with `refresh: true` and the refresh lifetime. */
  function CreateRefreshToken(cfg: Config, subject: string, now: int): (r: (Token, int))
    ensures r.1 == now + cfg.refreshTokenExpireMinutes * 60
    ensures r.0 == Signed(Claims(subject, r.1, true), cfg.secretKey)
  {
    CreateToken(cfg.secretKey, subject, cfg.refreshTokenExpireMinutes, true, now)
  }

  /** `create_email_verification_token`: the access-token shape with the verification lifetime. */
  function CreateEmailVerificationToken(cfg: Config, subject: string, now: int): (r: (Token, int))
    ensures r.1 == now + cfg.emailVerificationExpireMinutes * 60
    ensures r.0 == Signed(Claims(subject, r.1, false), cfg.secretKey)
  {
    CreateToken(cfg.secretKey, subject, cfg.emailVerificationExpireMinutes, false, now)
  }

  /**
   * `get_email_by_verification_token`: `(True, sub)` for a valid token,
   * `(False, sub)` for a correctly signed but expired one (decoded again with
   * expiry checking off), `(False, None)` for anything else.
   */
  function GetEmailByVerificationToken(cfg: Config, t: Token, now: int): (r: (bool, Option<string>))
    ensures r.0 <==> Decode(t, cfg.secretKey, now).Valid?
    ensures r.1.Some? <==> t.Signed? && t.key == cfg.secretKey
    ensures r.1.Some? ==> r.1.value == t.claims.sub
  {
    match Decode(t, cfg.secretKey, now)
    case Valid(c) => (true, Some(c.sub))
    case Expired(c) => (false, Some(c.sub))
    case Invalid => (false, None)
  }

  /** Round trip: a token made by any of the three builders decodes, before its expiry, to its subject and flag. */
  lemma CreatedTokensDecode(cfg: Config, subject: string, now: int, later: int)
    requires now <= later
    ensures var (a, exp) := CreateAccessToken(cfg, subject, now);
      later <= exp ==> Decode(a, cfg.secretKey, later) == Valid(Claims(subject, exp, false))
    ensures var (r, exp) := CreateRefreshToken(cfg, subject, now);
      later <= exp ==> Decode(r, cfg.secretKey, later) == Valid(Claims(subject, exp, true))
    ensures var (v, exp) := CreateEmailVerificationToken(cfg, subject, now);
      later <= exp ==> Decode(v, cfg.secretKey, later) == Valid(Claims(subject, exp, false))
  {
  }

  /** An access token and a refresh token are never the same token, whatever their subjects and times. */
  lemma AccessNeverRefresh(cfg: Config, s1: string, t1: int, s2: string, t2: int)
    ensures CreateAccessToken(cfg, s1, t1).0 != CreateRefreshToken(cfg, s2, t2).0
  {
  }

  /** Access and email-verification tokens for the same subject differ only in `exp`. */
  lemma VerificationTokenIsAccessShaped(cfg: Config, subject: string, now: int)
    ensures var a := CreateAccessToken(cfg, subject, now).0;
            var v := CreateEmailVerificationToken(cfg, subject, now).0;
            v == Signed(a.claims.(exp := v.claims.exp), a.key)
    ensures cfg.accessTokenExpireMinutes == cfg.emailVerificationExpireMinutes ==>
      CreateAccessToken(cfg, subject, now) == CreateEmailVerificationToken(cfg, subject, now)
  {
  }

  /** A bcrypt digest, modelled by the password it was computed from. */
  datatype Digest = Digest(of: string)

  /** `get_password_hash`. */
  function GetPasswordHash(password: string): (h: Digest)
    ensures VerifyPassword(password, h)
  {
    Digest(password)
  }

  /** `verify_password`: true exactly when the digest was computed from this password. */
  function VerifyPassword(plain: string, hashed: Digest): bool {
    hashed.of == plain
  }

  /** A digest verifies its own password and no other one. */
  lemma HashVerifiesOnlyItsPassword(p: string, q: string)
    ensures VerifyPassword(q, GetPasswordHash(p)) <==> p == q
  {
  }
}
