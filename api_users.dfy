/**
 * The `/users` endpoints of the API (app/api/v1/endpoints/users/users.py and
 * the `insert` of app/api/v1/endpoints/users/service.py): creating a user,
 * reading and updating the authenticated user.
 */
module ApiUsers {
  import opened Wrappers
  import opened Http
  import opened Security
  import opened Users
  import opened UserStore
  import opened TokenCache
  import opened AuthService
  import opened ApiDeps
  import opened CoreUtils

  datatype UserCreate = UserCreate(email: string, password: string, fullName: string)

  /** The optional fields of a `PUT /users/me` body. */
  datatype UserUpdate = UserUpdate(email: Option<string>, password: Option<string>, fullName: Option<string>)

  /**
   * The answer `insert` gives for a rejected row: 400 with the sentence of
   * the database message, or a server error when that message has no line.
   */
  function IntegrityFailure(integrityMessage: string): (e: HttpError)
    ensures integrityMessage == [] <==> e == ServerError
    ensures integrityMessage != [] ==> e == HttpError(400, GetPgsqlIntegrityErrorMsg(integrityMessage).value)
  {
    match GetPgsqlIntegrityErrorMsg(integrityMessage)
    case None => ServerError
    case Some(detail) => HttpError(400, detail)
  }

  /**
   * `create_user`: stores a new email account with the hash of the password
   * and returns it; a taken email is refused by the unique constraint, whose
   * message (`integrityMessage`, written by the database) becomes the error.
   * The new account can at once obtain tokens with that password.
   */
  method CreateUser(table: UserTable, create: UserCreate, integrityMessage: string, now: int) returns (r: Response<User>)
    requires table.Valid()
    modifies table
    ensures table.Valid()
    ensures r.Ok? <==> GetUserByEmail(old(table.rows), create.email).None?
    ensures r.Ok? ==> r.value == NewUser(old(table.nextId), create.fullName, create.email, GetPasswordHash(create.password), None, now)
    ensures r.Ok? ==> table.rows == old(table.rows) + [r.value]
    ensures r.Ok? ==> ValidateUser(table.rows, LoginForm(create.email, create.password)) == Ok(r.value)
    ensures r.Err? ==> table.rows == old(table.rows) && r.error == IntegrityFailure(integrityMessage)
  {
    var inserted := table.Insert(create.fullName, create.email, GetPasswordHash(create.password), None, now);
    if inserted.None? {
      return Err(IntegrityFailure(integrityMessage));
    }
    NewEmailIsFound(old(table.rows), inserted.value);
    r := Ok(inserted.value);
  }

  /** A row appended under an email no earlier row has is the one found for that email. */
  lemma {:induction false} NewEmailIsFound(rows: seq<User>, u: User)
    requires GetUserByEmail(rows, u.email).None?
    ensures GetUserByEmail(rows + [u], u.email) == Some(u)
  {
    assert (rows + [u])[|rows|] == u;
    assert forall i :: 0 <= i < |rows| ==> (rows + [u])[i] == rows[i];
  }

  /** The assignments of `update_user_me`: each field given replaces the stored one, the password by its hash. */
  function Patch(u: User, upd: UserUpdate): (v: User)
    ensures v.id == u.id && v.totalLogin == u.totalLogin && v.activated == u.activated && v.signupBy == u.signupBy
    ensures v.createdAt == u.createdAt && v.updatedAt == u.updatedAt && v.sessionAt == u.sessionAt
    ensures v.email == (if upd.email.Some? then upd.email.value else u.email)
    ensures v.fullName == (if upd.fullName.Some? then upd.fullName.value else u.fullName)
    ensures upd.password.Some? ==> VerifyPassword(upd.password.value, v.hashedPassword)
    ensures upd.password.None? ==> v.hashedPassword == u.hashedPassword
  {
    var withPassword := if upd.password.Some? then u.(hashedPassword := GetPasswordHash(upd.password.value)) else u;
    var withName := if upd.fullName.Some? then withPassword.(fullName := upd.fullName.value) else withPassword;
    if upd.email.Some? then withName.(email := upd.email.value) else withName
  }

  /** An empty update changes nothing, and applying an update twice is applying it once. */
  lemma PatchIdentityAndIdempotent(u: User, upd: UserUpdate)
    ensures Patch(u, UserUpdate(None, None, None)) == u
    ensures Patch(Patch(u, upd), upd) == Patch(u, upd)
  {
  }

  /**
   * `update_user_me`: authenticates the bearer token, applies the update to
   * the user's row and returns the stored row. An email that another user
   * already has breaks the unique constraint, which nothing catches: a
   * server error, with the table unchanged.
   */
  method UpdateUserMe(cache: RedisCache, table: UserTable, cfg: Config, header: Option<Token>, upd: UserUpdate, now: int)
    returns (r: Response<User>)
    requires table.Valid()
    modifies table
    ensures table.Valid() && table.nextId == old(table.nextId)
    ensures var cur := GetCurrentUser(cfg, cache.entries, old(table.rows), header, now);
      && (cur.Err? ==> r == Err(cur.error) && table.rows == old(table.rows))
      && (cur.Ok? ==> var k := IndexOfId(old(table.rows), cur.value.id).value;
          var v := Patch(cur.value, upd);
          var clash := exists j :: 0 <= j < |old(table.rows)| && old(table.rows)[j].id != v.id && old(table.rows)[j].email == v.email;
          && (clash ==> r == Err(ServerError) && table.rows == old(table.rows))
          && (!clash ==> && table.rows == old(table.rows)[k := if v == cur.value then v else v.(updatedAt := now)]
                         && r == Ok(table.rows[k])))
  {
    var cur := GetCurrentUser(cfg, cache.entries, table.rows, header, now);
    if cur.Err? {
      return Err(cur.error);
    }
    var k :| 0 <= k < |table.rows| && table.rows[k] == cur.value;
    IdIdentifiesUser(table.rows, table.nextId, k);
    var ok := table.Commit(Patch(cur.value, upd), now);
    if !ok {
      return Err(ServerError);
    }
    r := Ok(table.rows[k]);
  }

  /** `read_user_me`: the user the bearer token authenticates, as stored. */
  function ReadUserMe(cfg: Config, entries: map<Token, Entry>, rows: seq<User>, header: Option<Token>, now: int)
    : (r: Response<User>)
    ensures r == GetCurrentUser(cfg, entries, rows, header, now)
    ensures r.Ok? ==> r.value in rows
  {
    GetCurrentUser(cfg, entries, rows, header, now)
  }
}
