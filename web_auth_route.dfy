/**
 * Decision logic of the web UI's authentication routes
 * (app/webapps/auth/route.py). Rendering is abstracted to the context the
 * login template receives; `url_for('dashboard')` is the opaque route name.
 */
module WebAuthRoute {
  import opened Wrappers
  import opened Http
  import opened Security
  import opened Users
  import opened UserStore
  import opened Common
  import opened WebDeps
  import opened WebAuthService

  const Dashboard: string := "dashboard"
  const VerificationSent: string := "You verification email has been send to your email."
  const LinkExpired: string := "Your email verification link has been expired. Please re-send again."
  const LinkInvalid: string := "Invalid email verification link."
  const VerificationSuccess: string := "Email verification success! You may login now."

  /** A response: a 302 redirect to a named route, or the login page with its messages. */
  datatype Page =
    | Redirect(route: string)
    | LoginPage(errMsg: Option<string>, evlink: Option<string>, successMsg: Option<string>)

  /** `login_web`: a visitor who already has a session goes to the dashboard; anyone else sees the login page. */
  function LoginWeb(session: map<string, SessionUser>): (p: Page)
    ensures p == Redirect(Dashboard) <==> UserKey in session
    ensures UserKey !in session ==> p == LoginPage(None, None, None)
  {
    if GetCurrentSession(session).Some? then Redirect(Dashboard) else LoginPage(None, None, None)
  }

  /**
   * `login_web_post` as written: when validation succeeds it calls
   * `deps.save_session`, which app/webapps/deps.py does not define, so the
   * request fails before anything is saved.
   */
  function LoginWebPostAsWritten(rows: seq<User>, email: string, password: string, url: ParsedUrl): (r: Response<Page>)
    ensures r.Err? <==> ValidateLogin(GetUserByEmail(rows, email), password, url).0.None?
    ensures r.Err? ==> r.error == ServerError
    ensures r.Ok? ==> var (err, link) := ValidateLogin(GetUserByEmail(rows, email), password, url);
      r.value == LoginPage(err, link, None)
  {
    var (err, link) := ValidateLogin(GetUserByEmail(rows, email), password, url);
    if err.Some? then Ok(LoginPage(err, link, None)) else Err(ServerError)
  }

  /** An activated email user who types the right password gets a server error from the route as written. */
  lemma {:induction false} AsWrittenRejectsGoodLogin(rows: seq<User>, nextId: nat, i: nat, password: string, url: ParsedUrl)
    requires WellFormed(rows, nextId) && i < |rows|
    requires rows[i].activated && rows[i].signupBy == EmailSignup
    requires rows[i].hashedPassword == GetPasswordHash(password)
    ensures LoginWebPostAsWritten(rows, rows[i].email, password, url) == Err(ServerError)
  {
    EmailIdentifiesUser(rows, nextId, i);
  }

  /**
   * `login_web_post` with the session saved by `save_session_and_wait`: on a
   * validation error the login page is shown again with the message and the
   * link and nothing is written; otherwise the session is saved, the login
   * counted and the visitor sent to the dashboard.
   */
  method LoginWebPost(session: CookieSession, table: UserTable, email: string, password: string, url: ParsedUrl, now: int)
    returns (p: Page)
    requires table.Valid()
    modifies session, table
    ensures table.Valid()
    ensures var (err, link) := ValidateLogin(GetUserByEmail(old(table.rows), email), password, url);
      err.Some? ==> p == LoginPage(err, link, None) && session.data == old(session.data) && table.rows == old(table.rows)
    ensures var (err, link) := ValidateLogin(GetUserByEmail(old(table.rows), email), password, url);
      err.None? ==> var u := GetUserByEmail(old(table.rows), email).value;
        var k := IndexOfId(old(table.rows), u.id).value;
        && p == Redirect(Dashboard)
        && session.data == old(session.data)[UserKey := SessionUser(u.email, u.fullName)]
        && table.rows == old(table.rows)[k := u.(totalLogin := Some(u.totalLogin.value + 1), sessionAt := now, updatedAt := now)]
  {
    var user := GetUserByEmail(table.rows, email);
    var (err, link) := ValidateLogin(user, password, url);
    if err.Some? {
      return LoginPage(err, link, None);
    }
    SaveSessionAndWait(session, table, user.value, now);
    p := Redirect(Dashboard);
  }

  /**
   * `request_verification_email`: "User not found." for an unknown email,
   * otherwise the confirmation message. The link it builds is not sent.
   */
  function RequestVerificationEmail(rows: seq<User>, email: string): (p: Page)
    ensures GetUserByEmail(rows, email).None? ==> p == LoginPage(Some(UserNotFoundMessage), None, None)
    ensures GetUserByEmail(rows, email).Some? ==> p == LoginPage(None, None, Some(VerificationSent))
  {
    if GetUserByEmail(rows, email).None? then LoginPage(Some(UserNotFoundMessage), None, None)
    else LoginPage(None, None, Some(VerificationSent))
  }

  /**
   * `verify_email`: an expired but genuine link gets the expiry message and a
   * link to ask for a new one; a link that does not decode gets the invalid
   * message; a valid one activates the account of its email. Activation of an
   * email no user holds raises.
   */
  method VerifyEmail(table: UserTable, cfg: Config, token: Token, url: ParsedUrl, now: int) returns (r: Response<Page>)
    requires table.Valid()
    modifies table
    ensures table.Valid()
    ensures var (valid, email) := GetEmailByVerificationToken(cfg, token, now);
      !valid && email.Some? ==>
        r == Ok(LoginPage(Some(LinkExpired), Some(GenerateEmailVerificationRequestUri(url, email.value)), None))
        && table.rows == old(table.rows)
    ensures var (valid, email) := GetEmailByVerificationToken(cfg, token, now);
      email.None? ==> r == Ok(LoginPage(Some(LinkInvalid), None, None)) && table.rows == old(table.rows)
    ensures var (valid, email) := GetEmailByVerificationToken(cfg, token, now);
      valid && email.Some? && GetUserByEmail(old(table.rows), email.value).None? ==>
        r == Err(ServerError) && table.rows == old(table.rows)
    ensures var (valid, email) := GetEmailByVerificationToken(cfg, token, now);
      valid && email.Some? && GetUserByEmail(old(table.rows), email.value).Some? ==>
        var k := IndexOfEmail(old(table.rows), email.value).value;
        && r == Ok(LoginPage(None, None, Some(VerificationSuccess)))
        && table.rows == old(table.rows)[k := if old(table.rows)[k].activated then old(table.rows)[k]
                                           else old(table.rows)[k].(activated := true, updatedAt := now)]
  {
    var (valid, email) := GetEmailByVerificationToken(cfg, token, now);
    if !valid && email.Some? {
      return Ok(LoginPage(Some(LinkExpired), Some(GenerateEmailVerificationRequestUri(url, email.value)), None));
    }
    if email.None? {
      return Ok(LoginPage(Some(LinkInvalid), None, None));
    }
    var ok := ActivateAccount(table, email.value, now);
    if !ok {
      return Err(ServerError);
    }
    r := Ok(LoginPage(None, None, Some(VerificationSuccess)));
  }

  /** `logout_web`: drops the 'user' entry if there is one and always redirects to the dashboard. */
  method LogoutWeb(session: CookieSession) returns (p: Page)
    modifies session
    ensures p == Redirect(Dashboard)
    ensures session.data == old(session.data) - {UserKey}
    ensures GetCurrentSession(session.data) == None
  {
    if GetCurrentSession(session.data).Some? {
      session.PopUser();
    }
    p := Redirect(Dashboard);
  }
}
