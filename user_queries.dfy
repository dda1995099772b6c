/**
 * The user listing of the API (`build_where_by` and `get_all_users` in
 * app/api/v1/endpoints/users/service.py): the WHERE clause is built as text
 * from two optional filters.
 */
module UserQueries {
  import opened Wrappers
  import opened Users

  const WhereBase: string := "1 = 1"
  /** The text for `activated=False`. */
  const NotActivatedClause: string := " and activated IS NOT TRUE"
  /** The text for `activated=True`: the empty `opt` leaves two blanks. */
  const ActivatedClause: string := " and activated IS  TRUE"

  /** The text for a `signup_by` filter; the value is pasted between quotes as given. */
  function SignupClause(signupBy: string): string {
    " and signup_by = '" + signupBy + "'"
  }

  /** The activation filter's text: nothing, `IS NOT TRUE` or `IS  TRUE`. */
  function ActivationText(activated: Option<bool>): string {
    match activated
    case None => ""
    case Some(false) => NotActivatedClause
    case Some(true) => ActivatedClause
  }

  /** The sign-up filter's text: nothing, or the quoted clause. */
  function SignupText(signupBy: Option<string>): string {
    match signupBy
    case None => ""
    case Some(s) => SignupClause(s)
  }

  /** `build_where_by`: the base condition, then the activation filter, then the sign-up filter. */
  function BuildWhereBy(activated: Option<bool>, signupBy: Option<string>): (w: string)
    ensures |WhereBase| <= |w| && w[..|WhereBase|] == WhereBase
    ensures activated.None? && signupBy.None? <==> w == WhereBase
    ensures signupBy.Some? ==> (|w| >= |SignupClause(signupBy.value)|
      && w[|w| - |SignupClause(signupBy.value)|..] == SignupClause(signupBy.value))
  {
    WhereBase + (ActivationText(activated) + SignupText(signupBy))
  }

  predicate HasPrefix(s: string, p: string) {
    |p| <= |s| && s[..|p|] == p
  }

  /** Reads the activation filter at the front of `rest`, and returns what follows it. */
  function ReadActivation(rest: string): (Option<bool>, string) {
    if HasPrefix(rest, NotActivatedClause) then (Some(false), rest[|NotActivatedClause|..])
    else if HasPrefix(rest, ActivatedClause) then (Some(true), rest[|ActivatedClause|..])
    else (None, rest)
  }

  /** Reads the quoted sign-up value: everything between the opening quote and the last character. */
  function ReadSignup(tail: string): Option<string> {
    if |tail| >= 19 then Some(tail[18..|tail| - 1]) else None
  }

  /** Reads the filters back from a clause `build_where_by` wrote. */
  function ParseWhereBy(w: string): (Option<bool>, Option<string>) {
    var rest := if |w| >= |WhereBase| then w[|WhereBase|..] else [];
    var read := ReadActivation(rest);
    (read.0, ReadSignup(read.1))
  }

  lemma ReadSignupText(s: Option<string>)
    ensures ReadSignup(SignupText(s)) == s
  {
  }

  lemma ReadNotActivated(tail: string)
    ensures ReadActivation(NotActivatedClause + tail) == (Some(false), tail)
  {
    var rest := NotActivatedClause + tail;
    assert rest[..|NotActivatedClause|] == NotActivatedClause;
    assert rest[|NotActivatedClause|..] == tail;
  }

  lemma ReadActivated(tail: string)
    ensures ReadActivation(ActivatedClause + tail) == (Some(true), tail)
  {
    var rest := ActivatedClause + tail;
    assert rest[18] != NotActivatedClause[18];
    assert rest[..|ActivatedClause|] == ActivatedClause;
    assert rest[|ActivatedClause|..] == tail;
  }

  lemma ReadNoActivation(s: Option<string>)
    ensures ReadActivation(SignupText(s)) == (None, SignupText(s))
  {
    if s.Some? {
      var rest := SignupText(s);
      assert rest[5] != NotActivatedClause[5];
      assert rest[5] != ActivatedClause[5];
    }
  }

  /** The activation text is recognised, whatever sign-up text follows it. */
  lemma ReadActivationText(a: Option<bool>, s: Option<string>)
    ensures ReadActivation(ActivationText(a) + SignupText(s)) == (a, SignupText(s))
  {
    match a
    case None =>
      assert ActivationText(a) + SignupText(s) == SignupText(s);
      ReadNoActivation(s);
    case Some(false) => ReadNotActivated(SignupText(s));
    case Some(true) => ReadActivated(SignupText(s));
  }

  lemma ParseAfterBase(rest: string)
    ensures ParseWhereBy(WhereBase + rest) == (ReadActivation(rest).0, ReadSignup(ReadActivation(rest).1))
  {
    assert (WhereBase + rest)[|WhereBase|..] == rest;
  }

  /** `build_where_by` loses nothing: the filters can be read back from its text. */
  lemma {:induction false} ParseBuildWhereBy(a: Option<bool>, s: Option<string>)
    ensures ParseWhereBy(BuildWhereBy(a, s)) == (a, s)
  {
    var rest := ActivationText(a) + SignupText(s);
    assert BuildWhereBy(a, s) == WhereBase + rest;
    ParseAfterBase(rest);
    ReadActivationText(a, s);
    ReadSignupText(s);
  }

  /** Different filters give different WHERE clauses. */
  lemma BuildWhereByInjective(a1: Option<bool>, s1: Option<string>, a2: Option<bool>, s2: Option<string>)
    requires BuildWhereBy(a1, s1) == BuildWhereBy(a2, s2)
    ensures a1 == a2 && s1 == s2
  {
    ParseBuildWhereBy(a1, s1);
    ParseBuildWhereBy(a2, s2);
  }

  /** `get_all_users`: the statement sent to the database. */
  function GetAllUsersQuery(activated: Option<bool>, signupBy: Option<string>): (q: string)
    ensures |q| >= 32 && q[..32] == "SELECT * FROM public.user WHERE " && q[32..] == BuildWhereBy(activated, signupBy)
  {
    "SELECT * FROM public.user WHERE " + BuildWhereBy(activated, signupBy)
  }

  /** What the WHERE clause selects: `IS NOT TRUE` keeps the inactive rows, `IS TRUE` the active ones. */
  predicate Selects(activated: Option<bool>, signupBy: Option<string>, u: User) {
    (activated.None? || u.activated == activated.value) && (signupBy.None? || u.signupBy == signupBy.value)
  }

  /** The rows the statement returns, in table order. */
  function GetAllUsers(rows: seq<User>, activated: Option<bool>, signupBy: Option<string>): (r: seq<User>)
    ensures forall u :: u in r <==> u in rows && Selects(activated, signupBy, u)
    ensures |r| <= |rows|
  {
    if rows == [] then []
    else
      var rest := GetAllUsers(rows[1..], activated, signupBy);
      assert forall u :: u in rows <==> u == rows[0] || u in rows[1..];
      if Selects(activated, signupBy, rows[0]) then [rows[0]] + rest else rest
  }

  /** Without filters every row is listed. */
  lemma {:induction false} NoFilterListsAll(rows: seq<User>)
    ensures GetAllUsers(rows, None, None) == rows
  {
    if rows != [] {
      NoFilterListsAll(rows[1..]);
      assert [rows[0]] + rows[1..] == rows;
    }
  }
}
