# login-boilerplate: authentication and session core in Dafny

This project models the authentication core of a FastAPI login boilerplate:

- JWT access, refresh and email-verification tokens. The claims are `sub`, `exp` and `refresh`, as in RFC 7519. They are signed with HS256, section 3.2 of RFC 7518.
- Password hashing and the password-quality validator.
- The Redis cache that pairs each access token with its refresh token.
- The API login, logout and refresh endpoints, and the `/users` endpoints.
- The bearer-token dependency that resolves the current user.
- The web UI's login, sign-up, email verification, password change and cookie session.
- Helpers: the root URL, the PostgreSQL integrity-message extractor, the user-listing WHERE clause and the dashboard averages.

How the model represents the system:

- A token is a value `Signed(claims, key)` or `Malformed(text)`. Decoding checks the key and the expiry against a `now` parameter. A bcrypt digest is `Digest(of)`, and it verifies exactly its own password.
- The user table is a class holding a sequence of rows and the next primary key. Its invariant states that ids and emails are unique and that `total_login` is never NULL.
- Reads through `.first()` become "first row that matches".
- The Redis cache and the cookie session are classes over maps. The handlers change them through `modifies` clauses.
- Functions model the read-only decision chains (`get_current_user`, `refresh_token`, `validate_login`, ...). Methods model the handlers that write the table, the cache or the session. Each method's `ensures` gives its new state in terms of those functions.
- `validate_and_wait` keeps its loop over the characters, which updates the validator's `results` map in place.
- Clocks, configuration and database-written texts are parameters: `now`, `Config`, and the integrity message.

## Model

| member | source | states |
|---|---|---|
| Security.Encode | app/core/security.py:27-32 | encoding records exactly the claims and the signing key |
| Security.Decode | app/core/security.py:72-86 | a token is valid iff it was signed with this key and `now <= exp`; it is expired iff signed with this key and `exp < now`; otherwise it is invalid; claims come back unchanged |
| Security.CreateToken | app/core/security.py:23-46 | the returned expiry is `now + minutes*60`, and the token carries `sub`, that expiry and the refresh flag |
| Security.CreateAccessToken | app/core/security.py:23-33 | the access token has `refresh` false and the access lifetime, and its expiry is returned alongside |
| Security.CreateRefreshToken | app/core/security.py:36-46 | the same shape with `refresh` true and the refresh lifetime |
| Security.CreateEmailVerificationToken | app/core/security.py:57-67 | the access-token shape with the email-verification lifetime |
| Security.GetEmailByVerificationToken | app/core/security.py:70-86 | returns (True, sub) for a valid token, (False, sub) for a correctly signed but expired one, and (False, None) otherwise |
| Security.CreatedTokensDecode | app/core/security.py:23-67 | each created token decodes with the same key up to its expiry, giving back the same `sub` and refresh flag |
| Security.AccessNeverRefresh | app/core/security.py:27-46 | an access token is never equal to a refresh token |
| Security.VerificationTokenIsAccessShaped | app/core/security.py:57-67 | a verification token differs from an access token for the same subject only in `exp` |
| Security.GetPasswordHash | app/core/security.py:53-54 | the hash verifies the password it was made from |
| Security.HashVerifiesOnlyItsPassword | app/core/security.py:49-54 | `verify_password(q, get_password_hash(p))` holds exactly when p = q |
| Decimal.NatToString | app/core/security.py:27 | `str(subject)` for an id is a non-empty digit string without leading zeros |
| Decimal.ParseNat | app/api/deps.py:45 | reading `sub` back as an integer succeeds exactly for non-empty digit strings |
| Decimal.ParseNatToString | app/api/deps.py:45-52 | parsing the text of an id gives back that id |
| Decimal.NatToStringInjective | app/core/security.py:27 | different ids give different subjects |
| PasswordRules.Count | app/utils/password_validator.py:82-102 | a class count never exceeds the password length |
| PasswordRules.Tally | app/utils/password_validator.py:51-57 | the counts hold all four classes, each equal to the number of characters in that class |
| PasswordRules.CountPositiveIff | app/utils/password_validator.py:82-102 | a count is positive iff some character of that class occurs |
| PasswordRules.CheckPasswordSpec | app/utils/password_validator.py:63-80 | each of the six outcomes (five messages or None) holds iff the earlier rules pass and this one fails; None iff all four classes occur and the length is at least 8 |
| PasswordRules.ShortWithoutLowerGetsLowerMessage | app/utils/password_validator.py:63-80 | a short password without a lowercase letter gets the lowercase message, not the length message |
| PasswordRules.DocumentedExamplePasses | app/utils/password_validator.py:116-119 | "aRdi-1fds*" passes |
| PasswordRules.PasswordValidator.constructor | app/utils/password_validator.py:21-37 | the rules are 8/1/1/1/1 and every class count starts at 0 |
| PasswordRules.PasswordValidator.CheckCharType | app/utils/password_validator.py:82-109 | increments exactly the classes the character belongs to: DIGIT for '0'..'9', SYMBOL for the fixed set |
| PasswordRules.PasswordValidator.ValidateAndWait | app/utils/password_validator.py:51-80 | only `results` changes, by the counts of the password; the result is the first failing rule; a fresh validator returns exactly `CheckPassword(password)` |
| Users.LoginByOf | app/models/user.py:16-19 | a text is read as a sign-up method only when it is that method's value |
| Users.LoginByValuesRoundTrip | app/models/user.py:16-19 | each of EMAIL, FACEBOOK and GMAIL reads back from its value as itself |
| Users.NewUser | app/models/user.py:22-33 | a new user has total_login 0, is not activated, has EMAIL unless another method is given, and all three timestamps equal the creation time |
| UserStore.IndexWhere | app/db/adapters/user/user.py:11-15 | the index of the first row the filter accepts (the row `.first()` returns), or None when no row passes; the email and id lookups use it |
| UserStore.GetUserByEmail | app/db/adapters/user/user.py:11-15 | Some iff some row has the email; the result is a row with that email |
| UserStore.GetUserById | app/api/deps.py:52-53 | Some iff some row has the id; the result is a row with that id |
| UserStore.EmailIdentifiesUser | app/models/user.py:26 | with unique emails, looking up a row's email finds that row |
| UserStore.IdIdentifiesUser | app/models/user.py:24 | with unique ids, looking up a row's id finds that row |
| UserStore.UserTable.constructor | app/models/user.py:22-24 | an empty table satisfies the invariant |
| UserStore.UserTable.GetAllUsers | app/db/adapters/user/user.py:51-55 | returns every row |
| UserStore.UserTable.Insert | app/db/adapters/user/user.py:18-38 | appends the new user with the next key when the email is free; otherwise nothing changes; the invariant is kept |
| UserStore.UserTable.Commit | app/models/user.py:26-32 | an update is refused iff another row has the new email; otherwise exactly that row changes, and updated_at moves only when something changed |
| UserStore.UserTable.UpdateActivationStatus | app/db/adapters/user/user.py:41-48 | sets `activated` on that row only |
| UserStore.UserTable.UpdateSessionLogin | app/db/adapters/user/user.py:58-66 | increments total_login by 1 and sets session_at on that row only |
| TokenCache.StoredPairIsLive | app/api/endpoints/auth/service.py:54-57 | after storing, each token of the pair is a key pointing at the other, and no other key changes |
| TokenCache.StoreThenRevoke | app/api/endpoints/auth/service.py:49-69 | storing a pair and then revoking its access token leaves neither token in the cache and every other key as it was |
| TokenCache.RevokeIdempotent | app/api/endpoints/auth/service.py:59-69 | revoking twice equals revoking once |
| TokenCache.RedisCache.Get | app/api/endpoints/auth/service.py:64 | Some iff the key is present, with the stored value |
| TokenCache.RedisCache.Set | app/api/endpoints/auth/service.py:55-57 | writes one key with its value and TTL |
| TokenCache.RedisCache.Delete | app/api/endpoints/auth/service.py:66-69 | removes one key; a missing key is a no-op |
| AuthService.ValidateUser | app/api/endpoints/auth/service.py:18-29 | Ok iff the email exists and the password verifies, with the user found; otherwise 400 "Incorrect email or password"; there is no activation check |
| AuthService.UnknownEmailLikeWrongPassword | app/api/endpoints/auth/service.py:23-27 | an unknown email and a wrong password give identical answers |
| AuthService.RightPasswordAccepted | app/api/endpoints/auth/service.py:21-29 | a stored user who gives their password is accepted |
| AuthService.LoginCounted | app/api/endpoints/auth/service.py:37-41 | total_login None becomes 1 with session_at unchanged; otherwise it goes up by 1 and session_at becomes now |
| AuthService.UpdateLoginCounter | app/api/endpoints/auth/service.py:31-47 | stores the counted user on its row and returns it; other rows are unchanged |
| AuthService.StoreTokens | app/api/endpoints/auth/service.py:49-57 | access maps to refresh with the access TTL, and refresh maps to access with the refresh TTL |
| AuthService.RevokeTokens | app/api/endpoints/auth/service.py:59-69 | removes the access key and the refresh key it points to, nothing else |
| AuthService.ValidRefreshToken | app/api/endpoints/auth/service.py:72-81 | true exactly when the token is a key, whatever kind of token it is |
| ApiDeps.BearerToken | app/api/v1/endpoints/auth/utils.py:7 | a missing header is 401 "Not authenticated"; otherwise the token is returned |
| ApiDeps.GetCurrentToken | app/api/deps.py:25-29 | returns the bearer token unchanged |
| ApiDeps.TokenRevoked | app/api/deps.py:59-63 | true exactly when the cache has no entry for the token |
| ApiDeps.GetCurrentUser | app/api/deps.py:31-57 | 401 without a token; 403 revoked before any decoding; 403 "Could not validate credentials" for a token that fails to decode or whose `sub` is not an integer; 404 "User not found" for a live valid token whose `sub` names no user; Ok iff live, valid, with a numeric `sub` naming a user, and that user is returned; the refresh flag is not read |
| ApiDeps.UnknownSubjectNotFound | app/api/deps.py:52-56 | a live valid token whose `sub` names no user gets 404 "User not found" |
| ApiDeps.RefreshFlagIgnored | app/api/deps.py:45-57 | a token answers the same whatever its refresh flag |
| ApiAuth.IssuePair | app/api/v1/endpoints/auth/auth.py:42-48 | a "bearer" response with an access and a refresh token for `str(id)` and their expiries; the two tokens differ |
| ApiAuth.LoginAccessToken | app/api/v1/endpoints/auth/auth.py:23-48 | a failed validation changes neither the table nor the cache; otherwise the counter is updated, then a pair is issued and stored |
| ApiAuth.LogoutAccessToken | app/api/v1/endpoints/auth/auth.py:52-67 | on success the token is revoked and the user's name, email and `logout_status` true are returned; errors change nothing |
| ApiAuth.RefreshToken | app/api/v1/endpoints/auth/auth.py:71-114 | 403 "Invalidated/Invalid refresh token" for a token not in the cache; 403 "Could not validate credentials" for a token that does not decode, whose `sub` is not an integer or that is not a refresh token; 404 "User not found" for a valid refresh token naming no user; otherwise a fresh pair, which is not stored |
| ApiAuth.LoginThenAuthenticate | app/api/v1/endpoints/auth/auth.py:32-48 | the access token a login returns authenticates the same user until it expires |
| ApiAuth.LogoutThenRevoked | app/api/v1/endpoints/auth/auth.py:61-67 | after logout the token is refused as revoked |
| ApiAuth.RefreshedAccessTokenIsRevoked | app/api/v1/endpoints/auth/auth.py:106-114 | the access token from a refresh is not stored, so it is refused as revoked |
| ApiAuth.RefreshWithAccessTokenForbidden | app/api/v1/endpoints/auth/auth.py:85-99 | refreshing with a live access token gives 403 |
| ApiAuth.MalformedRefreshForbidden | app/api/v1/endpoints/auth/auth.py:79-99 | a string that is not a token gets 403 |
| ApiUsers.IntegrityFailure | app/api/v1/endpoints/users/service.py:23-28 | a rejected insert gives 400 with the extracted sentence, or a server error when the message has no line |
| ApiUsers.CreateUser | app/api/v1/endpoints/users/users.py:16-31 | a free email gives a new user with that email, name and the hash of the password, who can log in with it; a taken email leaves the table unchanged |
| ApiUsers.Patch | app/api/v1/endpoints/users/users.py:43-48 | each given field replaces the stored one, the password by its hash; id, total_login, activated and the other fields are unchanged |
| ApiUsers.PatchIdentityAndIdempotent | app/api/v1/endpoints/users/users.py:43-48 | an empty update is the identity, and an update applied twice equals it applied once |
| ApiUsers.UpdateUserMe | app/api/v1/endpoints/users/users.py:35-54 | authentication errors change nothing; an email clash is a server error with no change; otherwise the patched row is stored and returned |
| ApiUsers.ReadUserMe | app/api/v1/endpoints/users/users.py:58-64 | returns the current user unchanged |
| UserQueries.BuildWhereBy | app/api/v1/endpoints/users/service.py:37-47 | starts with "1 = 1"; equals it iff there is no filter; ends with the quoted sign-up clause when one is given |
| UserQueries.ParseBuildWhereBy | app/api/v1/endpoints/users/service.py:37-47 | both filters can be read back from the clause, including the two-blank `IS  TRUE` text |
| UserQueries.BuildWhereByInjective | app/api/v1/endpoints/users/service.py:37-47 | different filters give different clauses |
| UserQueries.GetAllUsersQuery | app/api/v1/endpoints/users/service.py:54-56 | the statement is the fixed SELECT prefix followed by the clause |
| UserQueries.GetAllUsers | app/api/v1/endpoints/users/service.py:50-58 | a row is listed iff it satisfies both filters |
| UserQueries.NoFilterListsAll | app/api/v1/endpoints/users/service.py:38-47 | without filters every row is listed, in order |
| CoreUtils.FirstBreak | app/core/utils.py:5 | the first line break, with no break before it |
| CoreUtils.SplitLines | app/core/utils.py:5 | no lines iff the text is empty; no line contains a break |
| CoreUtils.SplitSingleLine | app/core/utils.py:5 | a non-empty text without breaks is one line |
| CoreUtils.SplitFirstLine | app/core/utils.py:5 | a line ended by "\n" is split off and the rest is split on its own |
| CoreUtils.RemoveAll | app/core/utils.py:7 | never lengthens the text and adds no line break |
| CoreUtils.RemoveAllLeftmost | app/core/utils.py:7 | the leftmost occurrence is removed: text before it is kept, the occurrence disappears and removal goes on after it |
| CoreUtils.RemoveAllAbsent | app/core/utils.py:7 | a text without the pattern is unchanged |
| CoreUtils.RemoveAllDoesNotRescan | app/core/utils.py:7 | removal does not rescan the text it joins: a pattern wrapped around its own front part leaves one whole pattern behind |
| CoreUtils.DetailNotRescanned | app/core/utils.py:7 | removing "DETAIL:" from "DETDETAIL:AIL:" leaves "DETAIL:", so the cleaned line can still contain the label |
| CoreUtils.LStrip | app/core/utils.py:7 | the result is a suffix that does not start with whitespace, and everything removed is whitespace |
| CoreUtils.LStripKeepsTail | app/core/utils.py:7 | trailing whitespace is kept |
| CoreUtils.GetPgsqlIntegrityErrorMsg | app/core/utils.py:4-9 | None (the index fails) iff the message is empty; otherwise the cleaned last line, which has no break and no leading blank |
| CoreUtils.LastLine | app/core/utils.py:5 | after any text ending in a line break, a non-empty break-free text is the last line |
| CoreUtils.DetailLineSentence | app/core/utils.py:4-9 | for any lines followed by a line "DETAIL:" plus a sentence, the result is the sentence without leading blanks |
| Common.GetRootUrl | app/utils/common.py:4-19 | starts with scheme://hostname, and equals that iff there is no port |
| Common.RootUrlIgnoresPath | app/utils/common.py:10-19 | path, query and fragment do not affect the result |
| Common.RootUrlPortIff | app/utils/common.py:12-19 | a ':' follows the host iff there is a port, and the digits after it read back as that port |
| WebDeps.GetCurrentSession | app/webapps/deps.py:21-31 | the 'user' entry when present, None otherwise |
| WebDeps.CookieSession.constructor | app/webapps/deps.py:21-31 | a session starts empty |
| WebDeps.CookieSession.SetUser | app/webapps/auth/service.py:192-195 | writes 'user' only, and it is read back |
| WebDeps.CookieSession.PopUser | app/webapps/auth/route.py:155 | removes 'user' only, and nothing is read back |
| WebAuthService.GenerateEmailVerificationRequestUri | app/webapps/auth/service.py:79-98 | root URL + "/verification-request/" + email, with the email as the suffix |
| WebAuthService.ValidateLogin | app/webapps/auth/service.py:22-53 | "User not found."; an inactive account gets its message and a link whatever the password; social sign-ups get their message without a password check; a wrong password gets "Incorrect password."; (None, None) iff all pass; the link is present iff the account is inactive |
| WebAuthService.InactiveIgnoresPassword | app/webapps/auth/service.py:36-39 | an inactive account's answer does not depend on the password |
| WebAuthService.ValidateSignup | app/webapps/auth/service.py:56-76 | an existing user is refused without a password check; otherwise the password verdict is returned |
| WebAuthService.GenerateEmailVerificationUri | app/webapps/auth/service.py:101-123 | the link's token reads back as the email: valid at its expiry, expired one second later |
| WebAuthService.VerificationLinkRoundTrip | app/webapps/auth/service.py:101-123 | at any time, the link's token gives (still valid, email) |
| WebAuthService.ActivateAccount | app/webapps/auth/service.py:126-136 | ok iff the email is registered; that row becomes activated, with `updated_at` set to now only when it was not active yet, and the others are unchanged |
| WebAuthService.SaveNewUser | app/webapps/auth/service.py:139-157 | a free email gets one new EMAIL user with the hash of the password; otherwise nothing changes |
| WebAuthService.SaveAndLoadUser | app/webapps/auth/service.py:160-181 | an existing user comes back unchanged with no insert; otherwise exactly one user is inserted with the given email, name, sign-up method and the hash of the social id |
| WebAuthService.SaveSessionAndWait | app/webapps/auth/service.py:183-198 | the session holds exactly {email, full_name} under 'user', and the user's row counts one more login |
| WebAuthRoute.LoginWeb | app/webapps/auth/route.py:20-36 | redirects to the dashboard iff a session exists |
| WebAuthRoute.LoginWebPostAsWritten | app/webapps/auth/route.py:40-71 | as written: a validation error re-renders the page with the message and link, and a passing validation is a server error |
| WebAuthRoute.AsWrittenRejectsGoodLogin | app/webapps/auth/route.py:67 | an active email user with the right password gets a server error |
| WebAuthRoute.LoginWebPost | app/webapps/auth/route.py:40-71 | a validation error changes no session or table and re-renders the page; otherwise the session is saved and the user is redirected to the dashboard |
| WebAuthRoute.RequestVerificationEmail | app/webapps/auth/route.py:75-100 | an unknown email re-renders the page with "User not found."; otherwise the "sent" message |
| WebAuthRoute.VerifyEmail | app/webapps/auth/route.py:103-138 | an expired token gives the expired message and a request link; an undecodable one gives the invalid message; in both cases nothing is activated; a valid one activates that email, moving `updated_at` only when the account was not active yet |
| WebAuthRoute.LogoutWeb | app/webapps/auth/route.py:142-158 | removes 'user' when present and always redirects, so a second logout has the same effect |
| WebUserService.GetUser | app/webapps/user/service.py:14-22 | the user registered under the email |
| WebUserService.ValidateChPasswd | app/webapps/user/service.py:25-55 | a social sign-up is refused first, then a wrong old password, then a weak new one, then "New password did not match"; None iff all checks pass and the two new passwords match |
| WebUserService.WrongOldPasswordFirst | app/webapps/user/service.py:39-40 | a wrong old password hides every problem with the new one |
| WebUserService.AcceptedChangeSwapsPasswords | app/webapps/user/service.py:25-62 | after an accepted change, the stored digest verifies the new password and no longer the old one, unless the two are equal |
| WebUserService.UpdatePassword | app/webapps/user/service.py:58-62 | stores the hash of the new password on that user's row only |
| Dashboard.CeilDiv | app/webapps/dashboard/service.py:45-46 | the least integer whose multiple reaches the total |
| Dashboard.Get7DaysTotalAvgSession | app/webapps/dashboard/service.py:30-46 | the totals collected by the loop, averaged and rounded up; None (division by zero) iff there are no rows |
| Dashboard.ConstantDaysAverage | app/webapps/dashboard/service.py:40-46 | days with equal totals average to that total |
| Dashboard.GetStatistics | app/webapps/dashboard/service.py:49-63 | total_users is passed through; today's and this month's figures are the lengths of their query results, and the 7-day figure is the rounded-up average |

## Left out

- Social login (Facebook and Google OAuth), email sending, configuration loading, HTML templates and `url_for`: I/O and library wiring. URLs are parameters, and the templates are reduced to the messages and links they receive.
- async/await and `asyncio.as_completed` in the password validator: the per-character tasks never suspend, so they run as a sequential loop.
- HS256 signing and bcrypt: modelled by their verify and round-trip behaviour only. The bcrypt salt, which makes two hashes of one password differ, is not modelled.
- Redis networking and TTL expiry: a TTL is stored as a number and never expires an entry.
- The TokenPayload schema is not part of this model: `sub` is read as a decimal id and `refresh` as a flag.
- Pydantic integer parsing is modelled only for plain digit strings.
- PasswordRules.IsLower and PasswordRules.IsUpper: only ASCII letters count, where `str.islower`/`str.isupper` also accept other Unicode letters.
- Common.GetRootUrl: works on an already parsed URL; `urlparse`'s text splitting, lower-casing of the host and port range checks are not modelled.
- Dashboard.Get7DaysTotalAvgSession: the source divides in floating point before `ceil`; the model uses exact integer ceiling division, so rounding errors on huge totals are not captured.
- Dashboard.GetStatistics: the rows of today's sessions, of the last 7 days and of this month's unverified accounts are parameters; their queries are not part of this model.
- The 400 "Your account has not been activated yet" of the API login comes from a validation step that is not part of this model; `validate_user` as modelled has no activation check.
- `update_current_password`, called by app/webapps/user/service.py, is not part of this model; WebUserService.UpdatePassword assumes it stores the new hash on the user's row.
- The `insert` of app/db/adapters/user/user.py raises with names it does not import; only its success path is modelled (UserStore.UserTable.Insert), and a taken email simply returns no user.
- The generic `except Exception` of `insert` (database failures other than the unique constraint) is not modelled.
- app/models/user.py names the sign-up column `login_by`; the services read it as `signup_by`. The model keeps one field, `signupBy`.
- `full_name` is nullable in the table but modelled as a string.
- AuthService.RevokeTokens: the `RedisClient` wrapper is not part of this model, so what `delete(None)` does when the access token has no entry is unknown (a plain Redis client would raise); the model assumes it deletes only the access key. ApiAuth.LogoutAccessToken never takes this path, because GetCurrentUser has already refused a token without an entry.
- UserQueries.GetAllUsers: describes what the database selects for the clause; the SQL engine itself is not modelled, and a `signup_by` value containing a quote would change the clause's meaning.

## Findings

| source | as written | input that shows it | evidently intended | confidence | as-written member | corrected member |
|---|---|---|---|---|---|---|
| app/webapps/auth/route.py:67 | after a successful validation the handler calls `deps.save_session`, which app/webapps/deps.py does not define, so the call raises | an activated EMAIL user posting the right password | save the session with `save_session_and_wait` and redirect to the dashboard | not executed | WebAuthRoute.LoginWebPostAsWritten | WebAuthRoute.LoginWebPost |
