/**
 * The cookie session of the web UI and its read dependency
 * (app/webapps/deps.py). The session is the dictionary `request.session`; the
 * application only ever uses its key 'user', whose value is `{email, full_name}`.
 */
module WebDeps {
  import opened Wrappers

  const UserKey: string := "user"

  /** The value stored under 'user'. */
  datatype SessionUser = SessionUser(email: string, fullName: string)

  /** `get_current_session`: the 'user' entry when present, None (not an error) otherwise. */
  function GetCurrentSession(session: map<string, SessionUser>): (r: Option<SessionUser>)
    ensures r.Some? <==> UserKey in session
    ensures r.Some? ==> r.value == session[UserKey]
  {
    if UserKey in session then Some(session[UserKey]) else None
  }

  /** `request.session`, which the handlers write. */
  class CookieSession {
    var data: map<string, SessionUser>

    constructor ()
      ensures data == map[]
    {
      data := map[];
    }

    /** `request.session['user'] = value`. */
    method SetUser(value: SessionUser)
      modifies this
      ensures data == old(data)[UserKey := value]
      ensures GetCurrentSession(data) == Some(value)
    {
      data := data[UserKey := value];
    }

    /** `request.session.pop('user', None)`. */
    method PopUser()
      modifies this
      ensures data == old(data) - {UserKey}
      ensures GetCurrentSession(data) == None
    {
      data := data - {UserKey};
    }
  }
}
