/**
 * The Flask backend: a `users` table and a `password_reset_tokens` table,
 * the handlers that read and change them, and the Bearer-token guard.
 *
 * The clock, the uuid4 draws, bcrypt's salt and the token decoder are
 * parameters. Time is in whole seconds. A JSON field that is absent is the
 * empty string, which the handlers' `not x` tests treat alike.
 */
module FlaskApp {
  import opened Base
  import opened Crypto
  import opened Jwt
  import opened PasswordPolicy

  const SessionLifetime: nat := 24 * 60 * 60
  const CodeLifetime: nat := 10 * 60
  const ResetTokenLifetime: nat := 15 * 60
  const ResetPurpose := "password_reset"
  const BearerPrefix := "Bearer "
  const BadCredentials := "Invalid email or password"

  /** A row of `users` (id, name, email, password, avatar); created_at is not modelled. */
  datatype UserRow = UserRow(id: string, name: string, email: string, password: Credential, avatar: string)

  /** The values an INSERT INTO users supplies; None is a column the statement leaves out. */
  datatype NewUser = NewUser(id: string, name: string, email: string, password: Option<Credential>, avatar: string)

  /** A row of `password_reset_tokens`. */
  datatype ResetRow = ResetRow(id: nat, email: string, code: string, expiresAt: int, used: bool)

  /** The claims the backend signs: `user_id` for a session, `email` and `purpose` for a reset. */
  datatype Payload = Payload(userId: Option<string>, email: Option<string>, purpose: Option<string>)

  datatype UserView = UserView(id: string, name: string, email: string, avatar: string)

  datatype Data =
    | Session(user: UserView, token: Token<Payload>)
    | Notice(message: string, otp: string)
    | CodeSent(message: string, otp: string, expiresIn: nat)
    | ResetGrant(message: string, token: Token<Payload>)
    | Done(message: string)

  /** A response: success with its status and data, a handled error, or a 500 raised by an exception. */
  datatype Reply = Ok(status: nat, data: Data) | Fail(status: nat, message: string) | InternalError

  function SessionPayload(userId: string): Payload { Payload(Some(userId), None, None) }

  function ResetPayload(email: string): Payload { Payload(None, Some(email), Some(ResetPurpose)) }

  function View(row: UserRow): UserView { UserView(row.id, row.name, row.email, row.avatar) }

  // ---------------------------------------------------------------- queries

  /** `SELECT * FROM users WHERE email=?` and `fetchone()`. */
  function UserByEmail(users: seq<UserRow>, email: string): Option<nat> {
    FindFirst(users, (u: UserRow) => u.email == email)
  }

  /** `SELECT * FROM users WHERE id=?` and `fetchone()`. */
  function UserById(users: seq<UserRow>, id: string): Option<nat> {
    FindFirst(users, (u: UserRow) => u.id == id)
  }

  /** The condition of verify_otp's SELECT: email and code match, not expired, not used. */
  predicate Usable(row: ResetRow, email: string, code: string, now: int) {
    row.email == email && row.code == code && row.expiresAt > now && !row.used
  }

  /**
   * The first row verify_otp's SELECT returns, in row order: it matches
   * email and code, expires after `now` and is unused, and no earlier row does.
   */
  function UsableCode(resets: seq<ResetRow>, email: string, code: string, now: int): (r: Option<nat>)
    ensures r.Some? ==> r.value < |resets|
    ensures r.Some? ==>
      var row := resets[r.value];
      row.email == email && row.code == code && row.expiresAt > now && !row.used
    ensures r.Some? ==> forall k :: 0 <= k < r.value ==> !Usable(resets[k], email, code, now)
    ensures r.None? <==> forall k :: 0 <= k < |resets| ==> !Usable(resets[k], email, code, now)
  {
    FindFirst(resets, (r: ResetRow) => Usable(r, email, code, now))
  }

  /** How many rows would still let (email, code) through at `now`. */
  function UsableCount(resets: seq<ResetRow>, email: string, code: string, now: int): (n: nat)
    ensures n <= |resets|
    ensures n == 0 <==> UsableCode(resets, email, code, now).None?
  {
    Count(resets, (r: ResetRow) => Usable(r, email, code, now))
  }

  // ------------------------------------------------------------- invariants

  /** The PRIMARY KEY on id and the UNIQUE constraint on email. */
  ghost predicate KeysUnique(users: seq<UserRow>) {
    forall i, j :: 0 <= i < j < |users| ==> users[i].id != users[j].id && users[i].email != users[j].email
  }

  /** AUTOINCREMENT: row ids increase in row order and stay below the next id to hand out. */
  ghost predicate ResetIdsIncreasing(resets: seq<ResetRow>, next: nat) {
    && (forall i, j :: 0 <= i < j < |resets| ==> resets[i].id < resets[j].id)
    && (forall i :: 0 <= i < |resets| ==> resets[i].id < next)
  }

  // ------------------------------------------------------------- statements

  /**
   * `INSERT INTO users`, which the table's constraints refuse (an
   * IntegrityError, None here) for a duplicate id or email and for a
   * missing password.
   */
  function InsertUser(users: seq<UserRow>, row: NewUser): (r: Option<seq<UserRow>>)
    ensures r.Some? <==> row.password.Some? && UserById(users, row.id).None? && UserByEmail(users, row.email).None?
    ensures r.Some? ==> r.value == users + [UserRow(row.id, row.name, row.email, row.password.value, row.avatar)]
    ensures r.Some? && KeysUnique(users) ==> KeysUnique(r.value)
  {
    if row.password.None? || UserById(users, row.id).Some? || UserByEmail(users, row.email).Some? then None
    else Some(users + [UserRow(row.id, row.name, row.email, row.password.value, row.avatar)])
  }

  /** `UPDATE password_reset_tokens SET used=1 WHERE id=?`. */
  function SetUsed(resets: seq<ResetRow>, id: nat): (r: seq<ResetRow>)
    ensures |r| == |resets|
    ensures forall k :: 0 <= k < |r| ==> r[k] == if resets[k].id == id then resets[k].(used := true) else resets[k]
  {
    if resets == [] then []
    else [if resets[0].id == id then resets[0].(used := true) else resets[0]] + SetUsed(resets[1..], id)
  }

  /** With increasing ids, marking a row's id used changes that row alone. */
  lemma SetUsedMarksOneRow(resets: seq<ResetRow>, next: nat, i: nat)
    requires ResetIdsIncreasing(resets, next) && i < |resets|
    ensures SetUsed(resets, resets[i].id) == resets[i := resets[i].(used := true)]
  {
    var r := SetUsed(resets, resets[i].id);
    forall k | 0 <= k < |resets| ensures r[k] == resets[i := resets[i].(used := true)][k] {
      if k < i {
        assert resets[k].id < resets[i].id;
      } else if k > i {
        assert resets[i].id < resets[k].id;
      }
    }
  }

  /**
   * Marking a row used a second time changes nothing: two verify_otp
   * requests whose SELECTs both ran before either UPDATE both grant a reset
   * token and leave the table as one request does.
   */
  lemma {:induction false} SetUsedIdempotent(resets: seq<ResetRow>, id: nat)
    ensures SetUsed(SetUsed(resets, id), id) == SetUsed(resets, id)
  {
    var once := SetUsed(resets, id);
    var twice := SetUsed(once, id);
    assert |twice| == |once|;
    forall k | 0 <= k < |once| ensures twice[k] == once[k] {
    }
  }

  /**
   * verify_otp's SELECT and UPDATE are separate statements. Two requests
   * for one code whose SELECTs both run before either UPDATE both find the
   * same row and are both granted a reset token, yet the table ends as
   * after one request: the code has been verified twice.
   */
  lemma OverlappingVerifiesBothSucceed(resets: seq<ResetRow>, next: nat, email: string, code: string, now: int)
    requires ResetIdsIncreasing(resets, next)
    requires UsableCode(resets, email, code, now).Some?
    ensures var i := UsableCode(resets, email, code, now).value;
      SetUsed(SetUsed(resets, resets[i].id), resets[i].id) == resets[i := resets[i].(used := true)]
  {
    var i := UsableCode(resets, email, code, now).value;
    SetUsedIdempotent(resets, resets[i].id);
    SetUsedMarksOneRow(resets, next, i);
  }

  /** `UPDATE users SET password=? WHERE email=?`. */
  function SetPassword(users: seq<UserRow>, email: string, c: Credential): (r: seq<UserRow>)
    ensures |r| == |users|
    ensures forall k :: 0 <= k < |r| ==> r[k] == if users[k].email == email then users[k].(password := c) else users[k]
  {
    if users == [] then []
    else [if users[0].email == email then users[0].(password := c) else users[0]] + SetPassword(users[1..], email, c)
  }

  /** The UPDATE's row count. */
  function RowsWithEmail(users: seq<UserRow>, email: string): nat {
    Count(users, (u: UserRow) => u.email == email)
  }

  /**
   * With unique emails, reset_password's UPDATE changes the password of the
   * one user with that email and nothing else; it changes nothing when the
   * row count is zero.
   */
  lemma SetPasswordUpdatesOneRow(users: seq<UserRow>, email: string, c: Credential)
    requires KeysUnique(users)
    ensures RowsWithEmail(users, email) == 0 <==> UserByEmail(users, email).None?
    ensures UserByEmail(users, email).None? ==> SetPassword(users, email, c) == users
    ensures UserByEmail(users, email).Some? ==>
      var i := UserByEmail(users, email).value;
      SetPassword(users, email, c) == users[i := users[i].(password := c)]
  {
    var r := SetPassword(users, email, c);
    match UserByEmail(users, email)
    case None =>
      assert r == users;
    case Some(i) =>
      forall k | 0 <= k < |users| ensures r[k] == users[i := users[i].(password := c)][k] {
        if k < i {
          assert users[k].email != users[i].email;
        } else if k > i {
          assert users[i].email != users[k].email;
        }
      }
  }

  // ------------------------------------------------------------ token guard

  /** Removes one leading "Bearer " (seven characters) and keeps any other header as it is. */
  function StripBearer(header: string): (token: string)
    ensures BearerPrefix <= header ==> BearerPrefix + token == header
    ensures !(BearerPrefix <= header) ==> token == header
    ensures |token| <= |header|
  {
    if BearerPrefix <= header then header[|BearerPrefix|..] else header
  }

  /** Stripping undoes the prefix a client adds, exactly once. */
  lemma StripBearerInverse(token: string)
    ensures StripBearer(BearerPrefix + token) == token
    ensures StripBearer(BearerPrefix + BearerPrefix + token) == BearerPrefix + token
  {
    assert BearerPrefix <= BearerPrefix + token;
    assert BearerPrefix <= BearerPrefix + BearerPrefix + token;
    assert BearerPrefix + BearerPrefix + token == BearerPrefix + (BearerPrefix + token);
  }

  datatype AuthOutcome = Authenticated(user: UserRow) | Rejected(message: string) | Crashed

  /**
   * `token_required`: a missing header is refused; otherwise the token
   * after "Bearer " is decoded (by `parse`, standing for the library with
   * the app's secret) and the user named by its `user_id` is looked up. A
   * valid token without `user_id` raises a KeyError the decorator does not
   * catch.
   */
  function Authenticate(users: seq<UserRow>, header: string, now: int, parse: string -> Token<Payload>): (a: AuthOutcome)
    ensures header == "" ==> a == Rejected("Token is missing")
    ensures a.Authenticated? <==>
      && header != ""
      && Decode(parse(StripBearer(header)), now).Valid?
      && parse(StripBearer(header)).claims.userId.Some?
      && UserById(users, parse(StripBearer(header)).claims.userId.value).Some?
    ensures a.Authenticated? ==> a.user in users && Some(a.user.id) == parse(StripBearer(header)).claims.userId
    ensures a.Crashed? <==>
      header != "" && Decode(parse(StripBearer(header)), now).Valid? && parse(StripBearer(header)).claims.userId.None?
  {
    if header == "" then Rejected("Token is missing")
    else match Decode(parse(StripBearer(header)), now)
      case Expired => Rejected("Token has expired")
      case Invalid => Rejected("Invalid token")
      case Valid(claims) =>
        match claims.userId
        case None => Crashed
        case Some(id) =>
          match UserById(users, id)
          case None => Rejected("Invalid token")
          case Some(i) => Authenticated(users[i])
  }

  /** A session token issued for a stored user authenticates that user until it expires. */
  lemma SessionTokenAuthenticates(users: seq<UserRow>, i: nat, wire: string, issuedAt: int, now: int,
                                  parse: string -> Token<Payload>)
    requires KeysUnique(users) && i < |users|
    requires parse(wire) == Issue(SessionPayload(users[i].id), issuedAt, SessionLifetime)
    requires issuedAt <= now < issuedAt + SessionLifetime
    ensures Authenticate(users, BearerPrefix + wire, now, parse) == Authenticated(users[i])
  {
    StripBearerInverse(wire);
    var found := UserById(users, users[i].id);
    assert found.Some?;
    assert users[found.value].id == users[i].id;
  }

  /** A reset token presented as a Bearer token ends in the uncaught KeyError. */
  lemma ResetTokenAsBearerCrashes(users: seq<UserRow>, wire: string, email: string, issuedAt: int, now: int,
                                  parse: string -> Token<Payload>)
    requires parse(wire) == Issue(ResetPayload(email), issuedAt, ResetTokenLifetime)
    requires issuedAt <= now < issuedAt + ResetTokenLifetime
    ensures Authenticate(users, BearerPrefix + wire, now, parse) == Crashed
  {
    StripBearerInverse(wire);
  }

  // ----------------------------------------------------------------- login

  /**
   * The avatar login returns, `user[4] or user[1][0].upper()`: the stored
   * one, else the upper-cased first letter of the name; with neither,
   * indexing the empty name raises (None).
   */
  function LoginAvatar(row: UserRow): (a: Option<string>)
    ensures row.avatar != "" ==> a == Some(row.avatar)
    ensures row.avatar == "" && row.name != "" ==> a.Some? && |a.value| == 1 && a.value[0] == ToUpper(row.name[0])
    ensures a.None? <==> row.avatar == "" && row.name == ""
  {
    if row.avatar != "" then Some(row.avatar)
    else if row.name == "" then None
    else Some([ToUpper(row.name[0])])
  }

  /**
   * `login`: an unknown email and a wrong password give the same 401; a
   * stored credential bcrypt cannot parse raises; success issues a session
   * token for the stored row's id.
   */
  function Login(users: seq<UserRow>, email: string, password: string, now: int): (r: Reply)
    ensures email == "" || password == "" ==> r == Fail(400, "Email and password are required")
    ensures r == Fail(401, BadCredentials) <==>
      && email != "" && password != ""
      && (|| UserByEmail(users, email).None?
          || (users[UserByEmail(users, email).value].password.Digest?
              && !Verifies(password, users[UserByEmail(users, email).value].password)))
    ensures r.Ok? <==>
      && email != "" && password != ""
      && UserByEmail(users, email).Some?
      && Verifies(password, users[UserByEmail(users, email).value].password)
      && LoginAvatar(users[UserByEmail(users, email).value]).Some?
    ensures r == InternalError <==>
      && email != "" && password != ""
      && UserByEmail(users, email).Some?
      && var row := users[UserByEmail(users, email).value];
      (row.password.Blank? || (Verifies(password, row.password) && LoginAvatar(row).None?))
    ensures r.Ok? ==>
      && UserByEmail(users, email).Some?
      && var row := users[UserByEmail(users, email).value];
      && Verifies(password, row.password)
      && LoginAvatar(row).Some?
      && r == Ok(200, Session(UserView(row.id, row.name, row.email, LoginAvatar(row).value),
                              Issue(SessionPayload(row.id), now, SessionLifetime)))
  {
    if email == "" || password == "" then Fail(400, "Email and password are required")
    else match UserByEmail(users, email)
      case None => Fail(401, BadCredentials)
      case Some(i) =>
        var row := users[i];
        if row.password.Blank? then InternalError
        else if !Verifies(password, row.password) then Fail(401, BadCredentials)
        else match LoginAvatar(row)
          case None => InternalError
          case Some(avatar) =>
            Ok(200, Session(UserView(row.id, row.name, row.email, avatar), Issue(SessionPayload(row.id), now, SessionLifetime)))
  }

  /**
   * After reset_password's update, login accepts the new password and
   * refuses any other with the common 401.
   */
  lemma LoginAfterReset(users: seq<UserRow>, email: string, newPassword: string, other: string, salt: nat, now: int)
    requires KeysUnique(users) && email != "" && newPassword != "" && other != "" && other != newPassword
    requires UserByEmail(users, email).Some? && users[UserByEmail(users, email).value].avatar != ""
    ensures Login(SetPassword(users, email, Hash(newPassword, salt)), email, newPassword, now).Ok?
    ensures Login(SetPassword(users, email, Hash(newPassword, salt)), email, other, now) == Fail(401, BadCredentials)
  {
    var i := UserByEmail(users, email).value;
    SetPasswordUpdatesOneRow(users, email, Hash(newPassword, salt));
    var updated := users[i := users[i].(password := Hash(newPassword, salt))];
    assert UserByEmail(updated, email) == Some(i);
  }

  /** The row signup appends logs in with its own password and no other. */
  lemma SignupThenLogin(users: seq<UserRow>, uid: string, name: string, email: string, password: string,
                        other: string, salt: nat, now: int)
    requires UserByEmail(users, email).None?
    requires name != "" && email != "" && password != "" && other != "" && other != password
    ensures var row := UserRow(uid, name, email, Hash(password, salt), [ToUpper(name[0])]);
      && Login(users + [row], email, password, now)
         == Ok(200, Session(UserView(uid, name, email, [ToUpper(name[0])]), Issue(SessionPayload(uid), now, SessionLifetime)))
      && Login(users + [row], email, other, now) == Fail(401, BadCredentials)
  {
    var row := UserRow(uid, name, email, Hash(password, salt), [ToUpper(name[0])]);
    var added := users + [row];
    assert forall k :: 0 <= k < |users| ==> added[k] == users[k];
    var found := UserByEmail(added, email);
    assert added[|users|].email == email;
    assert found.Some?;
    assert found.value == |users|;
  }

  // ---------------------------------------------------------------- signup

  /**
   * signup's checks made before the database is opened: every field
   * present, then the password's length, then its character classes.
   */
  function SignupRejection(name: string, email: string, password: string): (r: Option<Reply>)
    ensures r.None? <==> name != "" && email != "" && |password| >= MinLength && HasAllClasses(password)
    ensures r.Some? ==> r.value.Fail? && r.value.status == 400
    ensures name == "" || email == "" || password == "" ==> r == Some(Fail(400, "All fields are required"))
  {
    if name == "" || email == "" || password == "" then Some(Fail(400, "All fields are required"))
    else match CheckComplexity(password)
      case TooShort => Some(Fail(400, "Password must be at least 12 characters"))
      case TooSimple => Some(Fail(400, "Password does not meet complexity requirements"))
      case Accepted => None
  }

  // ----------------------------------------------------------- social login

  /** Python's `str.lower` on ASCII: each character lower-cased in place. */
  function LowerAll(s: string): (r: string)
    ensures |r| == |s|
    ensures forall k :: 0 <= k < |s| ==> r[k] == ToLower(s[k])
  {
    if s == [] then [] else [ToLower(s[0])] + LowerAll(s[1..])
  }

  /** Python's `str.upper` on ASCII: each character upper-cased in place. */
  function UpperAll(s: string): (r: string)
    ensures |r| == |s|
    ensures forall k :: 0 <= k < |s| ==> r[k] == ToUpper(s[k])
  {
    if s == [] then [] else [ToUpper(s[0])] + UpperAll(s[1..])
  }

  /** Python's `str.capitalize` on ASCII: the first character upper-cased, the rest lower-cased. */
  function Capitalize(s: string): (r: string)
    ensures |r| == |s|
    ensures s != [] ==> r[0] == ToUpper(s[0])
    ensures forall k :: 1 <= k < |s| ==> r[k] == ToLower(s[k])
  {
    if s == [] then [] else [ToUpper(s[0])] + LowerAll(s[1..])
  }

  predicate IsLowerHex(c: char) { IsAsciiDigit(c) || 'a' <= c <= 'f' }

  /** The text of `uuid.uuid4()`: 36 characters, lower-case hex digits with hyphens at 8, 13, 18 and 23. */
  ghost predicate IsUuidText(u: string) {
    && |u| == 36
    && forall k :: 0 <= k < 36 ==> if k in {8, 13, 18, 23} then u[k] == '-' else IsLowerHex(u[k])
  }

  /** The code forgot_password draws, `str(uuid.uuid4())[:6].upper()`: six upper-case hex digits. */
  function UuidCode(u: string): (code: string)
    requires IsUuidText(u)
    ensures |code| == 6
    ensures forall k :: 0 <= k < 6 ==> code[k] == ToUpper(u[k]) && (IsAsciiDigit(code[k]) || 'A' <= code[k] <= 'F')
  {
    UpperAll(u[..6])
  }

  /** The synthesized address `user_<first 8 characters of the uuid>@<provider>.com`. */
  function SocialEmail(provider: string, uid: string): (e: string)
    ensures var k := if |uid| < 8 then |uid| else 8;
      && |e| == 5 + k + 1 + |provider| + 4
      && e[..5] == "user_" && e[5..5 + k] == uid[..k]
      && e[5 + k..] == "@" + provider + ".com"
  {
    var k := if |uid| < 8 then |uid| else 8;
    var e := "user_" + uid[..k] + "@" + provider + ".com";
    assert e[..5] == "user_" && e[5..5 + k] == uid[..k] && e[5 + k..] == "@" + provider + ".com";
    e
  }

  /** The row social_login inserts for a new address, with the given password column. */
  function SocialRow(provider: string, uid: string, password: Option<Credential>): NewUser
    requires provider != ""
  {
    NewUser(uid, Capitalize(provider) + " User", SocialEmail(provider, uid), password, [ToUpper(provider[0])])
  }

  /** The insert as written names no password column, so the NOT NULL constraint always refuses it. */
  lemma SocialInsertAsWrittenFails(users: seq<UserRow>, provider: string, uid: string)
    requires provider != ""
    ensures InsertUser(users, SocialRow(provider, uid, None)).None?
  {
  }

  /** With a blank password the insert succeeds for a new address and a new id. */
  lemma SocialInsertCorrectedSucceeds(users: seq<UserRow>, provider: string, uid: string)
    requires provider != ""
    requires UserByEmail(users, SocialEmail(provider, uid)).None? && UserById(users, uid).None?
    ensures InsertUser(users, SocialRow(provider, uid, Some(Blank))).Some?
    ensures InsertUser(users, SocialRow(provider, uid, Some(Blank))).value[|users|].email == SocialEmail(provider, uid)
  {
  }

  // ------------------------------------------------------- password reset

  datatype ResetCheck = Authorised(email: string) | Refused(reply: Reply)

  /**
   * reset_password's checks, none of which reads a table: a token is
   * present, the new password has at least 12 characters, and the token
   * verifies, is for 'password_reset' and names an email.
   */
  function CheckResetRequest(token: Token<Payload>, newPassword: string, now: int): (c: ResetCheck)
    ensures c.Refused? ==> c.reply.Fail? && c.reply.status == 400
    ensures c.Authorised? <==>
      && token != Unsigned("")
      && |newPassword| >= MinLength
      && Decode(token, now).Valid?
      && token.claims.purpose == Some(ResetPurpose)
      && token.claims.email.Some? && token.claims.email.value != ""
    ensures c.Authorised? ==> token.claims.email == Some(c.email)
  {
    if token == Unsigned("") then Refused(Fail(400, "Token is required"))
    else if newPassword == "" || |newPassword| < MinLength then
      Refused(Fail(400, "New password must be at least 12 characters"))
    else match Decode(token, now)
      case Expired => Refused(Fail(400, "Token has expired"))
      case Invalid => Refused(Fail(400, "Invalid token"))
      case Valid(claims) =>
        if claims.purpose != Some(ResetPurpose) then Refused(Fail(400, "Invalid token"))
        else if claims.email.None? || claims.email.value == "" then Refused(Fail(400, "Invalid token"))
        else Authorised(claims.email.value)
  }

  /**
   * The token verify_otp grants authorises a reset of its email for fifteen
   * minutes, any number of times (nothing consumes it), and is refused as
   * expired afterwards. A session token is never accepted.
   */
  lemma ResetTokenWindow(email: string, issuedAt: int, now: int, newPassword: string, userId: string)
    requires email != "" && |newPassword| >= MinLength
    ensures issuedAt <= now < issuedAt + ResetTokenLifetime ==>
      CheckResetRequest(Issue(ResetPayload(email), issuedAt, ResetTokenLifetime), newPassword, now) == Authorised(email)
    ensures issuedAt + ResetTokenLifetime <= now ==>
      CheckResetRequest(Issue(ResetPayload(email), issuedAt, ResetTokenLifetime), newPassword, now)
        == Refused(Fail(400, "Token has expired"))
    ensures CheckResetRequest(Issue(SessionPayload(userId), issuedAt, SessionLifetime), newPassword, now).Refused?
  {
  }

  /**
   * Marking the row verify_otp found as used removes exactly one usable
   * row for that email and code; when it was the only one, a second
   * verification with the same code finds nothing.
   */
  lemma {:induction false} VerifyConsumesCode(resets: seq<ResetRow>, next: nat, email: string, code: string, now: int)
    requires ResetIdsIncreasing(resets, next)
    requires UsableCode(resets, email, code, now).Some?
    ensures var i := UsableCode(resets, email, code, now).value;
      UsableCount(SetUsed(resets, resets[i].id), email, code, now) == UsableCount(resets, email, code, now) - 1
    ensures var i := UsableCode(resets, email, code, now).value;
      UsableCount(resets, email, code, now) == 1 ==> UsableCode(SetUsed(resets, resets[i].id), email, code, now).None?
  {
    var i := UsableCode(resets, email, code, now).value;
    SetUsedMarksOneRow(resets, next, i);
    CountUpdate(resets, i, resets[i].(used := true), (r: ResetRow) => Usable(r, email, code, now));
  }

  /**
   * A code forgot_password has just stored is found by verify_otp until it
   * expires, provided no earlier usable row carries the same email and code;
   * once it has been marked used, verify_otp no longer finds it.
   */
  lemma {:induction false} IssuedCodeVerifiesOnce(resets: seq<ResetRow>, next: nat, email: string, code: string,
                                                  issuedAt: int, now: int)
    requires ResetIdsIncreasing(resets, next)
    requires UsableCode(resets, email, code, now).None?
    requires now < issuedAt + CodeLifetime
    ensures var added := resets + [ResetRow(next, email, code, issuedAt + CodeLifetime, false)];
      && UsableCode(added, email, code, now) == Some(|resets|)
      && UsableCode(SetUsed(added, next), email, code, now).None?
  {
    var row := ResetRow(next, email, code, issuedAt + CodeLifetime, false);
    var added := resets + [row];
    AppendedCodeFound(resets, row, email, code, now);
    assert ResetIdsIncreasing(added, next + 1);
    VerifyConsumesCode(added, next + 1, email, code, now);
  }

  /** A usable row appended behind rows none of which is usable is the one found, and the only one. */
  lemma AppendedCodeFound(resets: seq<ResetRow>, row: ResetRow, email: string, code: string, now: int)
    requires UsableCode(resets, email, code, now).None? && Usable(row, email, code, now)
    ensures UsableCode(resets + [row], email, code, now) == Some(|resets|)
    ensures UsableCount(resets + [row], email, code, now) == 1
  {
    var added := resets + [row];
    var p := (r: ResetRow) => Usable(r, email, code, now);
    assert forall k :: 0 <= k < |resets| ==> added[k] == resets[k];
    var found := UsableCode(added, email, code, now);
    assert found.Some? by { assert p(added[|resets|]); }
    assert !p(added[found.value]) || found.value == |resets|;
    CountAppend(resets, row, p);
  }

  // --------------------------------------------------------------- tables

  /** The two tables of the app's database. */
  class Database {
    var users: seq<UserRow>
    var resets: seq<ResetRow>
    var nextResetId: nat

    ghost predicate Valid()
      reads this
    {
      KeysUnique(users) && ResetIdsIncreasing(resets, nextResetId)
    }

    /** `init_db` on a fresh file: both tables empty. */
    constructor ()
      ensures Valid() && users == [] && resets == [] && nextResetId == 1
    {
      users, resets, nextResetId := [], [], 1;
    }

    /**
     * `signup`: the checks of SignupRejection, then 409 for a registered
     * email, then one new row (a uuid that is already a key makes the
     * insert fail with a 500) and a session token for it.
     */
    method Signup(name: string, email: string, password: string, uid: string, salt: nat, now: int)
      returns (r: Reply)
      requires Valid()
      modifies this
      ensures Valid() && resets == old(resets) && nextResetId == old(nextResetId)
      ensures SignupRejection(name, email, password).Some? ==>
        r == SignupRejection(name, email, password).value && users == old(users)
      ensures SignupRejection(name, email, password).None? && UserByEmail(old(users), email).Some? ==>
        r == Fail(409, "User already exists with this email") && users == old(users)
      ensures SignupRejection(name, email, password).None? && UserByEmail(old(users), email).None?
              && UserById(old(users), uid).Some? ==>
        r == InternalError && users == old(users)
      ensures SignupRejection(name, email, password).None? && UserByEmail(old(users), email).None?
              && UserById(old(users), uid).None? ==>
        && name != ""
        && users == old(users) + [UserRow(uid, name, email, Hash(password, salt), [ToUpper(name[0])])]
        && r == Ok(201, Session(UserView(uid, name, email, [ToUpper(name[0])]),
                                Issue(SessionPayload(uid), now, SessionLifetime)))
      ensures UserByEmail(old(users), email).Some? ==> users == old(users)
    {
      var rejection := SignupRejection(name, email, password);
      if rejection.Some? {
        return rejection.value;
      }
      if UserByEmail(users, email).Some? {
        return Fail(409, "User already exists with this email");
      }
      var hashed := Hash(password, salt);
      var avatar := [ToUpper(name[0])];
      var inserted := InsertUser(users, NewUser(uid, name, email, Some(hashed), avatar));
      if inserted.None? {
        return InternalError;
      }
      users := inserted.value;
      r := Ok(201, Session(UserView(uid, name, email, avatar), Issue(SessionPayload(uid), now, SessionLifetime)));
    }

    /**
     * social_login's create-or-reuse, inserting the given password column:
     * a registered synthesized address is reused as stored; otherwise the
     * row is inserted and the reply is a 500 if the insert is refused.
     */
    method SocialLoginWith(provider: string, uid: string, password: Option<Credential>, now: int)
      returns (r: Reply)
      requires Valid() && provider != ""
      modifies this
      ensures Valid() && resets == old(resets) && nextResetId == old(nextResetId)
      ensures UserByEmail(old(users), SocialEmail(provider, uid)).Some? ==>
        var row := old(users)[UserByEmail(old(users), SocialEmail(provider, uid)).value];
        users == old(users) && r == Ok(200, Session(View(row), Issue(SessionPayload(row.id), now, SessionLifetime)))
      ensures UserByEmail(old(users), SocialEmail(provider, uid)).None? ==>
        match InsertUser(old(users), SocialRow(provider, uid, password))
        case None => users == old(users) && r == InternalError
        case Some(updated) =>
          users == updated && r == Ok(200, Session(View(updated[|old(users)|]), Issue(SessionPayload(uid), now, SessionLifetime)))
    {
      var email := SocialEmail(provider, uid);
      var existing := UserByEmail(users, email);
      if existing.Some? {
        var row := users[existing.value];
        return Ok(200, Session(View(row), Issue(SessionPayload(row.id), now, SessionLifetime)));
      }
      var inserted := InsertUser(users, SocialRow(provider, uid, password));
      if inserted.None? {
        return InternalError;
      }
      users := inserted.value;
      r := Ok(200, Session(View(users[|users| - 1]), Issue(SessionPayload(uid), now, SessionLifetime)));
    }

    /** `social_login` as written: the insert leaves out the NOT NULL password column, so a new address always gets a 500. */
    method SocialLoginAsWritten(provider: string, uid: string, now: int) returns (r: Reply)
      requires Valid() && provider != ""
      modifies this
      ensures Valid() && resets == old(resets) && nextResetId == old(nextResetId)
      ensures UserByEmail(old(users), SocialEmail(provider, uid)).Some? ==>
        var row := old(users)[UserByEmail(old(users), SocialEmail(provider, uid)).value];
        users == old(users) && r == Ok(200, Session(View(row), Issue(SessionPayload(row.id), now, SessionLifetime)))
      ensures UserByEmail(old(users), SocialEmail(provider, uid)).None? ==> users == old(users) && r == InternalError
    {
      SocialInsertAsWrittenFails(users, provider, uid);
      r := SocialLoginWith(provider, uid, None, now);
    }

    /**
     * `social_login` with the password column given as the empty text: a
     * new address with a fresh uuid adds exactly one user.
     */
    method SocialLogin(provider: string, uid: string, now: int) returns (r: Reply)
      requires Valid() && provider != ""
      modifies this
      ensures Valid() && resets == old(resets) && nextResetId == old(nextResetId)
      ensures UserByEmail(old(users), SocialEmail(provider, uid)).None? && UserById(old(users), uid).None? ==>
        && users == old(users) + [UserRow(uid, Capitalize(provider) + " User", SocialEmail(provider, uid), Blank,
                                          [ToUpper(provider[0])])]
        && r == Ok(200, Session(UserView(uid, Capitalize(provider) + " User", SocialEmail(provider, uid),
                                         [ToUpper(provider[0])]),
                                Issue(SessionPayload(uid), now, SessionLifetime)))
      ensures UserByEmail(old(users), SocialEmail(provider, uid)).None? && UserById(old(users), uid).Some? ==>
        users == old(users) && r == InternalError
      ensures UserByEmail(old(users), SocialEmail(provider, uid)).Some? ==>
        var row := old(users)[UserByEmail(old(users), SocialEmail(provider, uid)).value];
        users == old(users) && r == Ok(200, Session(View(row), Issue(SessionPayload(row.id), now, SessionLifetime)))
    {
      r := SocialLoginWith(provider, uid, Some(Blank), now);
    }

    /**
     * `forgot_password`: 400 without an '@'; for an unregistered address a
     * decoy code is echoed and nothing is stored; otherwise one unused row
     * expiring in ten minutes is appended.
     */
    method ForgotPassword(email: string, otpUuid: string, decoyUuid: string, now: int) returns (r: Reply)
      requires Valid() && IsUuidText(otpUuid) && IsUuidText(decoyUuid)
      modifies this
      ensures Valid() && users == old(users)
      ensures '@' !in email ==>
        r == Fail(400, "Valid email is required") && resets == old(resets) && nextResetId == old(nextResetId)
      ensures '@' in email && UserByEmail(users, email).None? ==>
        && r == Ok(200, Notice("If this email is registered, you will receive a verification code", UuidCode(decoyUuid)))
        && resets == old(resets) && nextResetId == old(nextResetId)
      ensures '@' in email && UserByEmail(users, email).Some? ==>
        && resets == old(resets) + [ResetRow(old(nextResetId), email, UuidCode(otpUuid), now + CodeLifetime, false)]
        && nextResetId == old(nextResetId) + 1
        && r == Ok(200, CodeSent("Verification code sent to your email", UuidCode(otpUuid), CodeLifetime))
    {
      if email == "" || '@' !in email {
        return Fail(400, "Valid email is required");
      }
      if UserByEmail(users, email).None? {
        return Ok(200, Notice("If this email is registered, you will receive a verification code", UuidCode(decoyUuid)));
      }
      var otp := UuidCode(otpUuid);
      resets := resets + [ResetRow(nextResetId, email, otp, now + CodeLifetime, false)];
      nextResetId := nextResetId + 1;
      r := Ok(200, CodeSent("Verification code sent to your email", otp, CodeLifetime));
    }

    /**
     * `verify_otp`: a code that is not six characters long is refused;
     * otherwise the first unexpired, unused row matching email and code is
     * marked used, nothing else changes, and a fifteen-minute reset token is
     * granted.
     */
    method VerifyOtp(email: string, otp: string, now: int) returns (r: Reply)
      requires Valid()
      modifies this
      ensures Valid() && users == old(users) && nextResetId == old(nextResetId)
      ensures |otp| != 6 ==> r == Fail(400, "Valid OTP is required") && resets == old(resets)
      ensures |otp| == 6 && UsableCode(old(resets), email, otp, now).None? ==>
        r == Fail(400, "Invalid or expired OTP") && resets == old(resets)
      ensures |otp| == 6 && UsableCode(old(resets), email, otp, now).Some? ==>
        var i := UsableCode(old(resets), email, otp, now).value;
        && resets == old(resets)[i := old(resets)[i].(used := true)]
        && r == Ok(200, ResetGrant("OTP verified successfully", Issue(ResetPayload(email), now, ResetTokenLifetime)))
      ensures UsableCount(resets, email, otp, now) ==
        if r.Ok? then UsableCount(old(resets), email, otp, now) - 1 else UsableCount(old(resets), email, otp, now)
    {
      if otp == "" || |otp| != 6 {
        return Fail(400, "Valid OTP is required");
      }
      var found := UsableCode(resets, email, otp, now);
      if found.None? {
        return Fail(400, "Invalid or expired OTP");
      }
      var i := found.value;
      VerifyConsumesCode(resets, nextResetId, email, otp, now);
      SetUsedMarksOneRow(resets, nextResetId, i);
      resets := SetUsed(resets, resets[i].id);
      r := Ok(200, ResetGrant("OTP verified successfully", Issue(ResetPayload(email), now, ResetTokenLifetime)));
    }

    /**
     * `reset_password`: the checks of CheckResetRequest, then 404 when no
     * user has the token's email; otherwise that user's password is
     * replaced and nothing else changes.
     */
    method ResetPassword(token: Token<Payload>, newPassword: string, salt: nat, now: int) returns (r: Reply)
      requires Valid()
      modifies this
      ensures Valid() && resets == old(resets) && nextResetId == old(nextResetId)
      ensures CheckResetRequest(token, newPassword, now).Refused? ==>
        r == CheckResetRequest(token, newPassword, now).reply && users == old(users)
      ensures CheckResetRequest(token, newPassword, now).Authorised? ==>
        var email := CheckResetRequest(token, newPassword, now).email;
        match UserByEmail(old(users), email)
        case None => r == Fail(404, "User not found") && users == old(users)
        case Some(i) =>
          && users == old(users)[i := old(users)[i].(password := Hash(newPassword, salt))]
          && r == Ok(200, Done("Password reset successfully"))
    {
      var check := CheckResetRequest(token, newPassword, now);
      if check.Refused? {
        return check.reply;
      }
      var email := check.email;
      var hashed := Hash(newPassword, salt);
      SetPasswordUpdatesOneRow(users, email, hashed);
      if RowsWithEmail(users, email) == 0 {
        return Fail(404, "User not found");
      }
      users := SetPassword(users, email, hashed);
      r := Ok(200, Done("Password reset successfully"));
    }
  }
}
