/**
 * The user table and the queries and updates of app/db/adapters/user/user.py.
 *
 * The table is a sequence of rows in storage order, so that "the first row the
 * query returns" has a meaning. An ORM object that a function updates in place
 * and commits is modelled as the row with the same primary key being replaced.
 * Every commit that changes a row refreshes `updated_at` (`onupdate`).
 */
module UserStore {
  import opened Wrappers
  import opened Security
  import opened Users

  /** Position of the first row that satisfies `p`, the row a `.first()` query returns. */
  function IndexWhere(rows: seq<User>, p: User -> bool): (k: Option<nat>)
    ensures k.Some? ==> k.value < |rows| && p(rows[k.value])
    ensures k.Some? ==> forall j :: 0 <= j < k.value ==> !p(rows[j])
    ensures k.None? ==> forall j :: 0 <= j < |rows| ==> !p(rows[j])
  {
    if rows == [] then None
    else if p(rows[0]) then Some(0)
    else match IndexWhere(rows[1..], p)
      case Some(k) => Some(k + 1)
      case None => None
  }

  /** Position of the first row whose email is `email`. */
  function IndexOfEmail(rows: seq<User>, email: string): Option<nat> {
    IndexWhere(rows, (u: User) => u.email == email)
  }

  /** Position of the first row whose primary key is `id`. */
  function IndexOfId(rows: seq<User>, id: nat): Option<nat> {
    IndexWhere(rows, (u: User) => u.id == id)
  }

  /** `get_user_by_email`: the first user whose email equals `email`, or None. */
  function GetUserByEmail(rows: seq<User>, email: string): (r: Option<User>)
    ensures r.Some? <==> exists i :: 0 <= i < |rows| && rows[i].email == email
    ensures r.Some? ==> r.value.email == email && r.value in rows
  {
    match IndexOfEmail(rows, email)
    case Some(k) => Some(rows[k])
    case None => None
  }

  /** `select(User).where(User.id == id).first()`. */
  function GetUserById(rows: seq<User>, id: nat): (r: Option<User>)
    ensures r.Some? <==> exists i :: 0 <= i < |rows| && rows[i].id == id
    ensures r.Some? ==> r.value.id == id && r.value in rows
  {
    match IndexOfId(rows, id)
    case Some(k) => Some(rows[k])
    case None => None
  }

  /**
   * The table's constraints: `id` is the primary key and below the next key to
   * be assigned, `email` is unique, `total_login` is never NULL.
   */
  ghost predicate WellFormed(rows: seq<User>, nextId: nat) {
    && (forall i :: 0 <= i < |rows| ==> rows[i].id < nextId && rows[i].totalLogin.Some?)
    && (forall i, j :: 0 <= i < j < |rows| ==> rows[i].id != rows[j].id && rows[i].email != rows[j].email)
  }

  /** In a well-formed table the email lookup finds exactly the row holding that email. */
  lemma EmailIdentifiesUser(rows: seq<User>, nextId: nat, i: nat)
    requires WellFormed(rows, nextId) && i < |rows|
    ensures GetUserByEmail(rows, rows[i].email) == Some(rows[i])
  {
  }

  /** In a well-formed table the id lookup finds exactly the row holding that key. */
  lemma IdIdentifiesUser(rows: seq<User>, nextId: nat, i: nat)
    requires WellFormed(rows, nextId) && i < |rows|
    ensures GetUserById(rows, rows[i].id) == Some(rows[i])
  {
  }

  /** The persistent `user` table. */
  class UserTable {
    var rows: seq<User>
    var nextId: nat

    ghost predicate Valid()
      reads this
    {
      WellFormed(rows, nextId)
    }

    constructor ()
      ensures Valid() && rows == [] && nextId == 1
    {
      rows := [];
      nextId := 1;
    }

    /** `get_all_users`: every row. */
    method GetAllUsers() returns (users: seq<User>)
      ensures users == rows
    {
      users := rows;
    }

    /** `insert` (success path): adds a new row with the next primary key, unless the email is taken. */
    method Insert(fullName: string, email: string, hashed: Digest, signupBy: Option<string>, now: int)
      returns (r: Option<User>)
      requires Valid()
      modifies this
      ensures Valid()
      ensures r.Some? <==> GetUserByEmail(old(rows), email).None?
      ensures r.Some? ==> r.value == NewUser(old(nextId), fullName, email, hashed, signupBy, now)
      ensures r.Some? ==> rows == old(rows) + [r.value] && nextId == old(nextId) + 1
      ensures r.None? ==> rows == old(rows) && nextId == old(nextId)
    {
      if IndexOfEmail(rows, email).Some? {
        return None;
      }
      var u := NewUser(nextId, fullName, email, hashed, signupBy, now);
      rows := rows + [u];
      nextId := nextId + 1;
      r := Some(u);
    }

    /**
     * `session.add(u); session.commit()` for a row loaded earlier and changed in
     * place: it replaces the row with the same key, unless its email now
     * clashes with another row (an integrity error, after which nothing is
     * stored).
     */
    method Commit(u: User, now: int) returns (ok: bool)
      requires Valid() && IndexOfId(rows, u.id).Some? && u.totalLogin.Some?
      modifies this
      ensures Valid() && nextId == old(nextId)
      ensures ok <==> forall j :: 0 <= j < |old(rows)| && old(rows)[j].id != u.id ==> old(rows)[j].email != u.email
      ensures var k := IndexOfId(old(rows), u.id).value;
        rows == if !ok then old(rows)
                else if u == old(rows)[k] then old(rows)
                else old(rows)[k := u.(updatedAt := now)]
    {
      var k := IndexOfId(rows, u.id).value;
      ok := forall j :: 0 <= j < |rows| && rows[j].id != u.id ==> rows[j].email != u.email;
      if ok && u != rows[k] {
        rows := rows[k := u.(updatedAt := now)];
      }
    }

    /** `update_activation_status`: sets `activated` of that user and nothing else. */
    method UpdateActivationStatus(id: nat, activated: bool, now: int)
      requires Valid() && IndexOfId(rows, id).Some?
      modifies this
      ensures Valid() && nextId == old(nextId)
      ensures var k := IndexOfId(old(rows), id).value;
        rows == old(rows)[k := if old(rows)[k].activated == activated then old(rows)[k]
                               else old(rows)[k].(activated := activated, updatedAt := now)]
    {
      var k := IndexOfId(rows, id).value;
      if rows[k].activated != activated {
        rows := rows[k := rows[k].(activated := activated, updatedAt := now)];
      }
    }

    /** `update_session_login`: unconditionally one more login and the session time set to `now`. */
    method UpdateSessionLogin(id: nat, now: int)
      requires Valid() && IndexOfId(rows, id).Some?
      modifies this
      ensures Valid() && nextId == old(nextId)
      ensures var k := IndexOfId(old(rows), id).value;
        var u := old(rows)[k];
        rows == old(rows)[k := u.(totalLogin := Some(u.totalLogin.value + 1), sessionAt := now, updatedAt := now)]
    {
      var k := IndexOfId(rows, id).value;
      var u := rows[k];
      rows := rows[k := u.(totalLogin := Some(u.totalLogin.value + 1), sessionAt := now, updatedAt := now)];
    }
  }
}
