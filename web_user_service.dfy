/**
 * Account page of the web UI: looking a user up and changing the password
 * (app/webapps/user/service.py).
 */
module WebUserService {
  import opened Wrappers
  import opened Security
  import opened Users
  import opened UserStore
  import opened PasswordRules

  const IncorrectOldPassword: string := "Incorrect old password."
  const NewPasswordMismatch: string := "New password did not match"

  /** The refusal for an account that signed up through a social provider. */
  function CannotChangeMessage(signupBy: string): string {
    "You cannot change the password when you registered with " + signupBy + "."
  }

  /** `get_user`: the user registered under `email`, if any. */
  function GetUser(rows: seq<User>, email: string): (r: Option<User>)
    ensures r == GetUserByEmail(rows, email)
    ensures r.Some? ==> r.value in rows && r.value.email == email
  {
    GetUserByEmail(rows, email)
  }

  /**
   * `validate_ch_passwd`: the first failing check among social sign-up,
   * wrong old password, weak new password and mismatched repetition; None
   * when the change may go ahead.
   */
  function ValidateChPasswd(u: User, passOld: string, passNew: string, passNewAgain: string): (r: Option<string>)
    ensures u.signupBy != EmailSignup ==> r == Some(CannotChangeMessage(u.signupBy))
    ensures u.signupBy == EmailSignup && !VerifyPassword(passOld, u.hashedPassword) ==> r == Some(IncorrectOldPassword)
    ensures u.signupBy == EmailSignup && VerifyPassword(passOld, u.hashedPassword) && CheckPassword(passNew).Some? ==>
      r == CheckPassword(passNew)
    ensures u.signupBy == EmailSignup && VerifyPassword(passOld, u.hashedPassword) && CheckPassword(passNew).None?
      && passNew != passNewAgain
      ==> r == Some(NewPasswordMismatch)
    ensures r.None? <==> (u.signupBy == EmailSignup && VerifyPassword(passOld, u.hashedPassword)
      && CheckPassword(passNew).None? && passNew == passNewAgain)
  {
    if u.signupBy != EmailSignup then Some(CannotChangeMessage(u.signupBy))
    else if !VerifyPassword(passOld, u.hashedPassword) then Some(IncorrectOldPassword)
    else if CheckPassword(passNew).Some? then CheckPassword(passNew)
    else if passNew != passNewAgain then Some(NewPasswordMismatch)
    else None
  }

  /** The old password is checked before the new one: a wrong old password hides every other problem. */
  lemma WrongOldPasswordFirst(u: User, passOld: string, passNew: string, passNewAgain: string)
    requires u.signupBy == EmailSignup && !VerifyPassword(passOld, u.hashedPassword)
    ensures ValidateChPasswd(u, passOld, passNew, passNewAgain) == Some(IncorrectOldPassword)
    ensures forall p, q :: ValidateChPasswd(u, passOld, p, q) == ValidateChPasswd(u, passOld, passNew, passNewAgain)
  {
  }

  /**
   * An accepted change leaves a digest that verifies the new password and
   * no longer the old one, unless both are the same.
   */
  lemma {:induction false} AcceptedChangeSwapsPasswords(u: User, passOld: string, passNew: string, passNewAgain: string)
    requires ValidateChPasswd(u, passOld, passNew, passNewAgain).None?
    ensures VerifyPassword(passNew, GetPasswordHash(passNew))
    ensures VerifyPassword(passOld, GetPasswordHash(passNew)) <==> passOld == passNew
    ensures CheckPassword(passNew).None? && passNew == passNewAgain
  {
    HashVerifiesOnlyItsPassword(passNew, passOld);
  }

  /**
   * `update_password`: stores the hash of the new password on the user's
   * row; every other row stays as it was.
   */
  method UpdatePassword(table: UserTable, u: User, newPassword: string, now: int)
    requires table.Valid() && u in table.rows
    modifies table
    ensures table.Valid() && table.nextId == old(table.nextId)
    ensures var k := IndexOfId(old(table.rows), u.id).value;
      var changed := u.(hashedPassword := GetPasswordHash(newPassword));
      table.rows == old(table.rows)[k := if changed == u then u else changed.(updatedAt := now)]
    ensures var k := IndexOfId(old(table.rows), u.id).value;
      VerifyPassword(newPassword, table.rows[k].hashedPassword)
  {
    var k :| 0 <= k < |table.rows| && table.rows[k] == u;
    IdIdentifiesUser(table.rows, table.nextId, k);
    var ok := table.Commit(u.(hashedPassword := GetPasswordHash(newPassword)), now);
  }
}
