/**
 * Login and sign-up checks, verification links, account activation and
 * session saving of the web UI (app/webapps/auth/service.py).
 */
module WebAuthService {
  import opened Wrappers
  import opened Security
  import opened Users
  import opened UserStore
  import opened PasswordRules
  import opened Common
  import opened WebDeps

  const UserNotFoundMessage: string := "User not found."
  const InactiveMessage: string := "You account is currently inactive."
  const IncorrectPassword: string := "Incorrect password."
  const AlreadyRegistered: string := "This email has been registered into our system."
  const VerificationRequestPath: string := "/verification-request"

  /** The message for a user who signed up through a social provider. */
  function SocialLoginMessage(signupBy: string): string {
    "You signed by " + signupBy + ". Please use that social login instead."
  }

  /** `generate_email_verification_request_uri`: `{root}/verification-request/{email}`. */
  function GenerateEmailVerificationRequestUri(url: ParsedUrl, email: string): (r: string)
    ensures r == GetRootUrl(url) + VerificationRequestPath + "/" + email
    ensures var n := |GetRootUrl(url)| + |VerificationRequestPath| + 1; |r| >= n && r[n..] == email
  {
    GetRootUrl(url) + VerificationRequestPath + "/" + email
  }

  /**
   * `validate_login`: (error, link) in the order user missing, inactive
   * (with a link to request a new verification email), signed up through a
   * social provider, wrong password; (None, None) when all pass.
   */
  function ValidateLogin(user: Option<User>, password: string, url: ParsedUrl): (r: (Option<string>, Option<string>))
    ensures user.None? ==> r == (Some(UserNotFoundMessage), None)
    ensures user.Some? && !user.value.activated ==>
      r == (Some(InactiveMessage), Some(GenerateEmailVerificationRequestUri(url, user.value.email)))
    ensures user.Some? && user.value.activated && user.value.signupBy != EmailSignup ==>
      r == (Some(SocialLoginMessage(user.value.signupBy)), None)
    ensures r.1.Some? <==> user.Some? && !user.value.activated
    ensures r.0.None? <==> (user.Some? && user.value.activated && user.value.signupBy == EmailSignup
      && VerifyPassword(password, user.value.hashedPassword))
    ensures r.0 == Some(IncorrectPassword) <==> (user.Some? && user.value.activated && user.value.signupBy == EmailSignup
      && !VerifyPassword(password, user.value.hashedPassword))
  {
    match user
    case None => (Some(UserNotFoundMessage), None)
    case Some(u) =>
      if !u.activated then (Some(InactiveMessage), Some(GenerateEmailVerificationRequestUri(url, u.email)))
      else if u.signupBy != EmailSignup then (Some(SocialLoginMessage(u.signupBy)), None)
      else if !VerifyPassword(password, u.hashedPassword) then (Some(IncorrectPassword), None)
      else (None, None)
  }

  /** An inactive account gets the same answer whatever password is given. */
  lemma InactiveIgnoresPassword(u: User, p1: string, p2: string, url: ParsedUrl)
    requires !u.activated
    ensures ValidateLogin(Some(u), p1, url) == ValidateLogin(Some(u), p2, url)
  {
  }

  /**
   * `validate_signup`: an existing user is refused without looking at the
   * password; otherwise the password-quality verdict is returned.
   */
  function ValidateSignup(user: Option<User>, password: string): (r: Option<string>)
    ensures user.Some? ==> r == Some(AlreadyRegistered)
    ensures user.None? ==> r == CheckPassword(password)
  {
    if user.Some? then Some(AlreadyRegistered) else CheckPassword(password)
  }

  /** The link `generate_email_verification_uri` builds: `{verify_email URL}?l={token}`. */
  datatype VerificationLink = VerificationLink(verifyUri: string, token: Token)

  /** `generate_email_verification_uri`: a fresh email-verification token for `email`, appended to the verify route. */
  function GenerateEmailVerificationUri(cfg: Config, verifyUri: string, email: string, now: int): (r: VerificationLink)
    ensures r.verifyUri == verifyUri
    ensures var exp := now + cfg.emailVerificationExpireMinutes * 60;
      && GetEmailByVerificationToken(cfg, r.token, exp) == (true, Some(email))
      && GetEmailByVerificationToken(cfg, r.token, exp + 1) == (false, Some(email))
  {
    VerificationLink(verifyUri, CreateEmailVerificationToken(cfg, email, now).0)
  }

  /** A verification link reads back as its email: valid until its expiry, expired afterwards. */
  lemma VerificationLinkRoundTrip(cfg: Config, verifyUri: string, email: string, now: int, later: int)
    ensures var link := GenerateEmailVerificationUri(cfg, verifyUri, email, now);
      var exp := now + cfg.emailVerificationExpireMinutes * 60;
      GetEmailByVerificationToken(cfg, link.token, later) == (later <= exp, Some(email))
  {
  }

  /**
   * `activate_account`: sets the account of `email` active. When no user has
   * that email, `update_activation_status` is handed None and raises; `ok` is
   * then false and nothing is stored.
   */
  method ActivateAccount(table: UserTable, email: string, now: int) returns (ok: bool)
    requires table.Valid()
    modifies table
    ensures table.Valid() && table.nextId == old(table.nextId)
    ensures ok <==> GetUserByEmail(old(table.rows), email).Some?
    ensures !ok ==> table.rows == old(table.rows)
    ensures |table.rows| == |old(table.rows)|
    ensures ok ==> var k := IndexOfEmail(old(table.rows), email).value;
      table.rows == old(table.rows)[k := if old(table.rows)[k].activated then old(table.rows)[k]
                                        else old(table.rows)[k].(activated := true, updatedAt := now)]
  {
    var user := GetUserByEmail(table.rows, email);
    if user.None? {
      return false;
    }
    var k := IndexOfEmail(table.rows, email).value;
    IdIdentifiesUser(table.rows, table.nextId, k);
    table.UpdateActivationStatus(user.value.id, true, now);
    ok := true;
  }

  /** `save_new_user`: inserts an email account with the hash of its password; false when the email is taken. */
  method SaveNewUser(table: UserTable, fullName: string, email: string, password: string, now: int) returns (ok: bool)
    requires table.Valid()
    modifies table
    ensures table.Valid()
    ensures ok <==> GetUserByEmail(old(table.rows), email).None?
    ensures ok ==> table.rows == old(table.rows) + [NewUser(old(table.nextId), fullName, email, GetPasswordHash(password), None, now)]
    ensures !ok ==> table.rows == old(table.rows)
  {
    var inserted := table.Insert(fullName, email, GetPasswordHash(password), None, now);
    ok := inserted.Some?;
  }

  /**
   * `save_and_load_user`: the user registered under `email` when there is
   * one, unchanged; otherwise a new user whose password is the hash of the
   * social login id, inserted and returned.
   */
  method SaveAndLoadUser(table: UserTable, email: string, fullName: string, socialLoginId: string, signupBy: string, now: int)
    returns (u: User)
    requires table.Valid()
    modifies table
    ensures table.Valid()
    ensures GetUserByEmail(old(table.rows), email).Some? ==>
      u == GetUserByEmail(old(table.rows), email).value && table.rows == old(table.rows)
    ensures GetUserByEmail(old(table.rows), email).None? ==>
      && u == NewUser(old(table.nextId), fullName, email, GetPasswordHash(socialLoginId), Some(signupBy), now)
      && table.rows == old(table.rows) + [u]
    ensures u.email == email && u in table.rows
  {
    var existing := GetUserByEmail(table.rows, email);
    if existing.Some? {
      return existing.value;
    }
    var inserted := table.Insert(fullName, email, GetPasswordHash(socialLoginId), Some(signupBy), now);
    u := inserted.value;
  }

  /**
   * `save_session_and_wait`: stores exactly {email, full_name} of the user
   * under 'user', then counts the login on the user's row.
   */
  method SaveSessionAndWait(session: CookieSession, table: UserTable, u: User, now: int)
    requires table.Valid() && u in table.rows
    modifies session, table
    ensures table.Valid() && table.nextId == old(table.nextId)
    ensures session.data == old(session.data)[UserKey := SessionUser(u.email, u.fullName)]
    ensures GetCurrentSession(session.data) == Some(SessionUser(u.email, u.fullName))
    ensures var k := IndexOfId(old(table.rows), u.id).value;
      table.rows == old(table.rows)[k := u.(totalLogin := Some(u.totalLogin.value + 1), sessionAt := now, updatedAt := now)]
  {
    var k :| 0 <= k < |table.rows| && table.rows[k] == u;
    IdIdentifiesUser(table.rows, table.nextId, k);
    session.SetUser(SessionUser(u.email, u.fullName));
    table.UpdateSessionLogin(u.id, now);
  }
}
