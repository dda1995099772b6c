/**
 * The `user` table record and its defaults (app/models/user.py).
 *
 * The sign-up origin column is called `login_by` in that file and `signup_by`
 * by every module that reads it; the model names it `signupBy` and keeps it a
 * string column, as the table does. Timestamps are integers (seconds).
 */
module Users {
  import opened Wrappers
  import opened Security

  /** `LoginBy`: how an account was registered. */
  datatype LoginBy = EMAIL | FACEBOOK | GMAIL {
    /** The enum member's `.value`, the text stored in the column. */
    function Value(): (s: string)
      ensures |s| >= 5
    {
      match this
      case EMAIL => "EMAIL"
      case FACEBOOK => "FACEBOOK"
      case GMAIL => "GMAIL"
    }
  }

  /** `LoginBy(s)`: the member whose value is `s`, if any. */
  function LoginByOf(s: string): (r: Option<LoginBy>)
    ensures r.Some? ==> r.value.Value() == s
    ensures r.None? ==> forall b: LoginBy :: b.Value() != s
  {
    if s == "EMAIL" then Some(EMAIL)
    else if s == "FACEBOOK" then Some(FACEBOOK)
    else if s == "GMAIL" then Some(GMAIL)
    else None
  }

  /** The enum has exactly three members and their values are distinct. */
  lemma LoginByValuesRoundTrip(b: LoginBy)
    ensures LoginByOf(b.Value()) == Some(b)
  {
  }

  /** The value of the email sign-up origin, `SignupBy.EMAIL.value`. */
  const EmailSignup: string := EMAIL.Value()

  /**
   * One row of `user`. `totalLogin` is nullable in the record so that the
   * counter update of the API login can test it, although the column itself is
   * `nullable=False`.
   */
  datatype User = User(
    id: nat,
    fullName: string,
    email: string,
    hashedPassword: Digest,
    totalLogin: Option<nat>,
    activated: bool,
    signupBy: string,
    createdAt: int,
    updatedAt: int,
    sessionAt: int)

  /**
   * The row the database stores for `User(full_name=…, email=…,
   * hashed_password=…[, signup_by=…])` inserted at time `now` under primary key
   * `id`: every column left out takes its declared default.
   */
  function NewUser(id: nat, fullName: string, email: string, hashed: Digest, signupBy: Option<string>, now: int): (u: User)
    ensures u.id == id && u.fullName == fullName && u.email == email && u.hashedPassword == hashed
    ensures u.totalLogin == Some(0) && !u.activated
    ensures u.signupBy == (if signupBy.Some? then signupBy.value else EmailSignup)
    ensures u.createdAt == now && u.updatedAt == now && u.sessionAt == now
  {
    User(id, fullName, email, hashed, Some(0), false,
         match signupBy case Some(s) => s case None => EmailSignup,
         now, now, now)
  }
}
