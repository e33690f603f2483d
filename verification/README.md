# Authentication backends, modelled in Dafny

This project models a small authentication service. It has two backends and a client script:

- the Flask + SQLite backend (`app.py`);
- the Express backend with in-memory storage (`server.js`);
- the client script (`auth-script.js`) that scores password strength and checks the signup and login forms.

Both backends offer the same flows:

- signup with a password-complexity policy;
- login with a common 401 for an unknown email and for a wrong password;
- a social-login stub;
- a password reset in three steps: forgot-password issues a six-character code, verify-otp exchanges the code for a fifteen-minute reset token, and reset-password replaces the password.

The Flask backend also has a Bearer-token guard.

Modules:

| file | module | models |
|---|---|---|
| `base.dfy` | `Base` | `Option`, ASCII character classes, first-match search and counting over a table held as a sequence, decimal rendering |
| `crypto.dfy` | `Crypto` | bcrypt, idealised: a digest is the hashed plaintext plus its salt; the empty password of social accounts is `Blank` |
| `jwt.dfy` | `Jwt` | signed tokens: claims plus `exp`; verification fails once `now >= exp`, and for any text the server did not sign |
| `password_policy.dfy` | `PasswordPolicy` | the Flask `any(...)` complexity checks and the Express lookahead pattern, and how the two relate |
| `flask_app.dfy` | `FlaskApp` | the `users` and `password_reset_tokens` tables as the class `Database` with one method per handler; the login, token-guard and reset checks as functions |
| `express_server.dfy` | `ExpressServer` | the `users` array and the `passwordResetTokens` map as the class `Server` with one method per handler; login, code and reset checks as functions |
| `auth_script.dfy` | `AuthScript` | the strength score and label, the confirm-password matcher, and the submit-time form checks |

Outside inputs are parameters of the operations:

- the clock: seconds in Flask, milliseconds in Express;
- the uuid4 draws and the `Math.random` draw of a code;
- bcrypt's salt;
- the token parser of the Flask guard;
- the verdicts of express-validator's `isEmail` and of the name's `isLength({ min: 2 })`.

The main results:

- **The two password policies agree on line-free passwords.** `PasswordPolicy.PatternCharacterised` characterises the Express pattern exactly. The two policies accept the same passwords unless the password holds a line terminator, which JavaScript's `.` does not match.
- **Every password either server accepts scores 100.** The client meter shows it as Strong.
- **Flask signup keeps ids and emails unique** when requests are handled one at a time.
- **Express ids stay positions plus one.**
- **An Express social login can duplicate an email.** Two social logins of one provider get the same address exactly when they happen in the same millisecond, and the endpoints store both.
- **Overlapping Express signups can duplicate an email.** The signup handler awaits the hash between its lookup and its push, so two overlapping signups for one new email both append.
- **A Flask code can be verified once, under conditions.** Verify-otp marks exactly one usable row used. A just-issued code therefore verifies exactly once, provided no earlier usable row carries the same email and code and the requests do not overlap. Two requests whose SELECTs both run before either UPDATE are both granted a reset token.
- **An Express code can be verified again and again.** Verify-otp leaves an accepted code in place; the code is still valid exactly at `expiresAt`.
- **A reset token is accepted throughout its window and refused from `exp` on.** In both backends a session token is never accepted as a reset token.
- **After a reset, login accepts the new password only.**
- **The Flask guard authenticates a stored user's session token.** A reset token presented to the guard ends in the uncaught `KeyError`.

Where the system's documented behaviour and the code differ, the model follows the code:

- the Flask reset checks only the new password's length, not its character classes;
- the Flask social login cannot create an account (see Findings);
- neither backend stores sessions or sends mail; the code is returned in the response body.

## Model

| member | source | states |
|---|---|---|
| Base.FindFirst | app.py:94-95 | the index returned is the first row satisfying the query, and there is none exactly when no row does |
| Base.Count | app.py:366-368 | a statement's row count is zero exactly when no row matches, and at most the table size |
| Base.CountUpdate | app.py:308 | updating one row changes the count of matching rows by that row's old and new contribution |
| Base.CountAppend | app.py:267-268 | appending one row adds that row's contribution to the count of matching rows |
| Base.ToUpper | app.py:161 | a lower-case ASCII letter becomes the upper-case letter 32 code points below; every other character is kept |
| Base.ToLower | app.py:195 | an upper-case ASCII letter becomes the lower-case letter 32 code points above; every other character is kept |
| Base.Decimal | server.js:308 | `toString()` of n is a non-empty digit string that denotes n, with no leading zero |
| Base.DecimalLength | server.js:308 | a number with k + 1 digits renders as k + 1 characters |
| Crypto.Hash | app.py:157 | a fresh digest verifies the hashed password and no other |
| Jwt.Issue | app.py:74-79 | a token issued at `now` carries its claims and expires at `now + lifetime` |
| Jwt.Decode | server.js:412-420 | a server-signed token is valid with its claims strictly before `exp` and expired from `exp`; any other text is invalid |
| Jwt.IssuedTokenLifetime | app.py:77 | a token issued at t verifies throughout [t, t + lifetime) and is expired afterwards |
| PasswordPolicy.Any | app.py:138-141 | `any(test(c) for c in s)` holds exactly when some character passes the test |
| PasswordPolicy.CheckComplexity | app.py:134-144 | a password under 12 characters is refused as too short; a longer one is accepted exactly when it has an upper, a lower, a digit and a non-alphanumeric character |
| PasswordPolicy.LineFree | server.js:96 | the password holds no character the pattern's `.` refuses |
| PasswordPolicy.PatternCharacterised | server.js:95-96 | the four lookaheads plus `.{12,}$` match exactly the line-free passwords of at least 12 characters holding all four classes |
| PasswordPolicy.ServerAccepts | server.js:95-96 | the signup validator accepts exactly what the pattern matches |
| PasswordPolicy.PoliciesAgree | server.js:395-396 | on line-free passwords the Express validator and the Flask checks accept the same passwords |
| PasswordPolicy.PoliciesDisagreeOnNewline | server.js:96 | a password ending in a newline passes the Flask checks and fails the Express pattern |
| AuthScript.CountMetUnfolded | auth-script.js:33-42 | the number of criteria met is the sum of the four independent tests |
| AuthScript.StrengthScore | auth-script.js:29-43 | the score is 25 per criterion met (length over 7, both cases, a digit, a symbol), hence one of 0, 25, 50, 75, 100 |
| AuthScript.StrengthLabel | auth-script.js:48-57 | Weak exactly below 50, Strong exactly from 75, Medium in between |
| AuthScript.LabelMonotone | auth-script.js:48-57 | a higher score never shows a lower label |
| AuthScript.LabelCountsCriteria | auth-script.js:30-57 | Strong from three criteria met, Medium for exactly two, Weak for at most one |
| AuthScript.ServerAcceptedIsStrong | auth-script.js:29-43 | every password either backend accepts scores 100 and reads Strong |
| AuthScript.PasswordsMatch | auth-script.js:61-72 | a mismatch is reported exactly when both fields are non-empty and differ |
| AuthScript.MatchSymmetric | auth-script.js:61-72 | the matcher's verdict does not depend on which field is which |
| AuthScript.SubmitSignup | auth-script.js:126-137 | the match is checked first; a matching password under 8 characters is refused; otherwise the form submits |
| AuthScript.EmptyConfirmationSubmits | auth-script.js:127-137 | an empty confirmation field does not stop a submission |
| AuthScript.FormLooserThanServers | auth-script.js:134 | every confirmed password of 8 to 11 characters is submitted by the form and refused by both backends |
| AuthScript.SimulatedLogin | auth-script.js:109 | the simulated login succeeds exactly when the email holds '@' and the password has at least 6 characters |
| AuthScript.SimulatedLoginMatchesServerGate | auth-script.js:109 | for an address with '@', the form's password gate lets through exactly the passwords that the Express login validator (server.js:34) does not refuse |
| FlaskApp.InsertUser | app.py:21-27 | the insert succeeds exactly when the password column is given and id and email are new; it appends one row and keeps ids and emails unique |
| FlaskApp.SetUsed | app.py:308 | every row with the given id is marked used and every other row is kept |
| FlaskApp.SetUsedMarksOneRow | app.py:308 | with increasing ids, marking a row's id used changes that row alone |
| FlaskApp.SetUsedIdempotent | app.py:308 | running the UPDATE a second time changes nothing |
| FlaskApp.OverlappingVerifiesBothSucceed | app.py:299-308 | two verify_otp requests whose SELECTs both find the row before either UPDATE both succeed, and leave the table as one request does |
| FlaskApp.UsableCode | app.py:299-301 | the row found matches email and code, expires after now and is unused, and no earlier row does; none is found exactly when no row qualifies |
| FlaskApp.UsableCount | app.py:299-301 | the number of qualifying rows is zero exactly when the SELECT finds none |
| FlaskApp.SetPassword | app.py:366 | every row with the email gets the new credential and every other row is kept |
| FlaskApp.SetPasswordUpdatesOneRow | app.py:366-370 | with unique emails the row count is zero exactly when no user has the email; otherwise only that user's password changes |
| FlaskApp.StripBearer | app.py:50-52 | a leading "Bearer " is removed once; any other header is used unchanged |
| FlaskApp.StripBearerInverse | app.py:50-52 | stripping undoes the client's prefix, and only one prefix is removed |
| FlaskApp.Authenticate | app.py:41-71 | a missing header is refused; authentication succeeds exactly for a valid token whose `user_id` names a stored row; a valid token without `user_id` raises |
| FlaskApp.SessionTokenAuthenticates | app.py:54-62 | a stored user's session token, sent with "Bearer ", authenticates that user until it expires |
| FlaskApp.ResetTokenAsBearerCrashes | app.py:57 | a valid reset token sent to the guard raises the uncaught KeyError |
| FlaskApp.LoginAvatar | app.py:111 | the stored avatar if there is one, else the upper-cased first letter of the name; neither exists exactly when indexing raises |
| FlaskApp.Login | app.py:82-120 | missing fields give 400; unknown email and wrong password give the same 401; login succeeds exactly when the stored digest verifies and an avatar exists, returning that row with a 24-hour token for its id; a blank stored password raises a 500 |
| FlaskApp.SignupThenLogin | app.py:98-115 | the row signup appends logs in with its own password and gets the common 401 for any other |
| FlaskApp.LoginAfterReset | app.py:98-117 | after reset_password's update, login accepts the new password and gives the common 401 for any other |
| FlaskApp.SignupRejection | app.py:130-144 | signup passes its checks exactly when name and email are present and the password is accepted by the complexity checks; every refusal is a 400 |
| FlaskApp.LowerAll | app.py:195 | `lower()` lower-cases every character in place |
| FlaskApp.UpperAll | app.py:263 | `upper()` upper-cases every character in place |
| FlaskApp.Capitalize | app.py:195 | `capitalize` upper-cases the first character and lower-cases every later one |
| FlaskApp.UuidCode | app.py:263 | the code cut from a uuid4 text is its first six hex digits upper-cased: six characters from 0-9 and A-F |
| FlaskApp.SocialEmail | app.py:196 | the address is "user_", then the uuid's first eight characters, then "@", the provider and ".com" |
| FlaskApp.SocialInsertAsWrittenFails | app.py:205-208 | the social insert without a password column is always refused |
| FlaskApp.SocialInsertCorrectedSucceeds | app.py:205-209 | with a blank password the social insert succeeds for a new address and id, storing the synthesized address |
| FlaskApp.CheckResetRequest | app.py:337-358 | a reset is authorised exactly for a present, valid token of purpose password_reset naming an email, with a new password of at least 12 characters; every refusal is a 400 |
| FlaskApp.ResetTokenWindow | app.py:313-314 | the granted token authorises its email for fifteen minutes and is refused as expired afterwards; a session token is never accepted |
| FlaskApp.VerifyConsumesCode | app.py:299-308 | marking the found row used lowers the number of usable rows for that email and code by one; when it was the only one, a second verification finds nothing |
| FlaskApp.IssuedCodeVerifiesOnce | app.py:263-308 | when no earlier usable row carries the same email and code, a code just stored is found by verify_otp before it expires, and no longer once marked used |
| FlaskApp.AppendedCodeFound | app.py:267-268 | a usable row appended behind no usable row is the one found and the only usable one |
| FlaskApp.Database.constructor | app.py:16-38 | both tables start empty |
| FlaskApp.Database.Signup | app.py:122-185 | refusals leave users unchanged; a known email gives 409; a repeated uuid gives a 500; otherwise one row with the upper-cased first letter as avatar is appended and ids and emails stay unique |
| FlaskApp.Database.SocialLoginWith | app.py:187-234 | a registered synthesized address is reused unchanged; otherwise the insert's outcome decides between one appended row and a 500 |
| FlaskApp.Database.SocialLoginAsWritten | app.py:205-208 | as written, a new address always gets a 500 and nothing is stored; a registered address is reused with its stored row |
| FlaskApp.Database.SocialLogin | app.py:187-234 | with a blank password column, a new address and fresh uuid add exactly the synthesized user and return its session token; a uuid already used as an id gives a 500; a registered address is reused with its stored row |
| FlaskApp.Database.ForgotPassword | app.py:236-283 | no '@' gives 400; an unknown email gets a six-character decoy code and no row; a known email appends one unused row holding the six-character code cut from the uuid, expiring in ten minutes |
| FlaskApp.Database.VerifyOtp | app.py:285-328 | for a request handled alone: a code not of length 6 is refused; only the first usable row matching email and code is marked used, nothing else changes, and the usable count drops by one exactly on success |
| FlaskApp.Database.ResetPassword | app.py:330-383 | refusals change nothing; no user with the email gives 404; otherwise only that user's password changes |
| ExpressServer.Avatar | server.js:77 | the empty name gives the empty avatar; otherwise the avatar is the name's first character upper-cased |
| ExpressServer.Lookup | server.js:352 | an entry is found exactly when the email has one, and it is that entry |
| ExpressServer.Login | server.js:32-89 | validation failures give 400; unknown email and wrong password give the same 401; success returns the first user with that email and a 24-hour token |
| ExpressServer.SocialAccountsCannotLogIn | server.js:58-65 | an account with the empty password never logs in |
| ExpressServer.SocialUser | server.js:164-170 | the appended user has the given id, the empty password, the name "<Provider> User" with its initial as avatar, and the address `user-<milliseconds>@<domain>` |
| ExpressServer.SocialEmailDeterminesTime | server.js:167 | two social logins of one provider get the same address exactly when they happen in the same millisecond |
| ExpressServer.SameMillisecondSocialLoginsShareEmail | server.js:164-172 | two social logins in one millisecond keep ids as positions but store one email twice |
| ExpressServer.OverlappingSignupsDuplicateEmail | server.js:112-132 | two signups for one new email whose lookups both run before either push keep ids as positions but store the email twice |
| ExpressServer.IssuedCode | server.js:308 | the code is six decimal digits |
| ExpressServer.CheckCode | server.js:352-367 | no entry or another code is refused; a matching code is expired exactly when the clock is past `expiresAt` and accepted otherwise |
| ExpressServer.StoredCodeWindow | server.js:311-314 | a code stored at t is accepted through t + 600000 inclusive and expired afterwards |
| ExpressServer.CheckResetRequest | server.js:393-428 | a reset is authorised exactly for a non-empty, valid token of purpose password_reset with a new password the pattern accepts; every refusal is a 400 |
| ExpressServer.GrantedTokenAuthorisesReset | server.js:370-374 | the granted token authorises its email until fifteen minutes have passed and is refused afterwards; a session token never is |
| ExpressServer.LoginAfterReset | server.js:440 | after the reset, login accepts the new password and gives the common 401 for any other |
| ExpressServer.Server.constructor | server.js:17-18 | both stores start empty |
| ExpressServer.Server.Signup | server.js:92-156 | for a request handled alone: validation failures give 400 and a known email 409, both with no change; otherwise one user with id `users.length + 1` is appended and email uniqueness is kept |
| ExpressServer.Server.SocialLogin | server.js:159-196 | exactly one user with id `users.length + 1` and the synthesized address is appended, with no lookup |
| ExpressServer.Server.ForgotPassword | server.js:277-331 | an unknown email gets a decoy code and no change; a known email's entry is replaced by the new code expiring in ten minutes |
| ExpressServer.Server.VerifyOtp | server.js:334-390 | a wrong code changes nothing; an expired one is deleted; an accepted one stays and a fifteen-minute reset token is granted |
| ExpressServer.Server.ResetPassword | server.js:393-458 | refusals change nothing; no user with the token's email gives 404; otherwise only that user's password changes and that email's entry is deleted |

## Left out

- bcrypt is idealised as collision-free. Its 72-byte truncation and its cost factor are not modelled.
- Token signatures and algorithms are not modelled. A token the server did not sign is one `Unsigned` value.
- SQL text, connections, `init_db`'s file handling, Flask/Express routing, CORS and JSON parsing are not modelled. Absent JSON fields are the empty string.
- The `created_at` column is not modelled.
- SQLite compares the stored `expires_at` text with `datetime('now')`. The model compares whole seconds instead.
- express-validator's `normalizeEmail`, `trim` and `escape` are not modelled; emails and names are the strings those sanitizers hand on. `isEmail` and the name's length check are parameters.
- Character classes are ASCII. Python's Unicode `isupper`/`isalnum` and JavaScript's UTF-16 lengths are not modelled.
- `Math.random` is a parameter: a draw in [100000, 999999].
- The uuid4 values are parameters, so a uuid collision is an input rather than a probability.
- The 500 replies that Express sends when a library throws are not modelled. The Flask 500 paths the code reaches are modelled: the failing insert, the `KeyError`, and a blank stored password in login.
- The Flask `get_user` route (app.py:385-401) only echoes the row `token_required` found, and is not modelled beyond `FlaskApp.Authenticate`.
- The DOM updates, notifications and visibility toggles of `auth-script.js` are not modelled. Neither are `script.js` (UI animation) or `api_utils.js` (network I/O).
- The three Express social endpoints differ only in provider name and domain. They are one method with a `Provider` argument.
- The Express signup validator is modelled as one check, `ServerAccepts`. That check already includes the separate `isLength({ min: 12 })`.

- ExpressServer.Server.Signup: each handler is one atomic step of the model. The source awaits `bcrypt.hash` (server.js:121) between the lookup (server.js:112) and the push (server.js:132), so interleaved signups are not modelled by the method. Its uniqueness clause holds only for a signup handled alone; `ExpressServer.OverlappingSignupsDuplicateEmail` shows the interleaving that stores an email twice.
- FlaskApp.Database.VerifyOtp: each handler is one atomic step of the model. Flask's development server handles requests in threads, and the SELECT (app.py:299) and the UPDATE (app.py:308) are separate statements, so interleaved requests are not modelled by the method. Its "verified once" consequence holds only for requests handled one at a time; `FlaskApp.OverlappingVerifiesBothSucceed` shows two overlapping requests both succeeding.
- FlaskApp.Usable: the row condition of the SELECT is a predicate without a contract of its own. Its meaning is stated by `FlaskApp.UsableCode`.

## Findings

| source | as written | input that shows it | evidently intended | confidence | as-written member | corrected member |
|---|---|---|---|---|---|---|
| app.py:207-208 | the social-login INSERT names only id, name, email and avatar, but `password` is `TEXT NOT NULL` (app.py:25) | any provider with a fresh uuid, so the synthesized address is new: the insert raises an IntegrityError and the reply is a 500 | create the passwordless account with an empty password, as server.js does, and sign it in | high, not executed | FlaskApp.Database.SocialLoginAsWritten | FlaskApp.Database.SocialLogin |
