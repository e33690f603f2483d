/**
 * The Express backend: an in-memory `users` array that handlers append to,
 * and a `passwordResetTokens` object keyed by email.
 *
 * The clock (`Date.now()`, milliseconds), the `Math.random` draw of a code,
 * bcrypt's salt and the verdict of express-validator's `isEmail` (and, for
 * signup, of the name's `isLength({ min: 2 })`) are parameters; emails and
 * names are the values the validators' sanitizers hand on.
 */
module ExpressServer {
  import opened Base
  import opened Crypto
  import opened Jwt
  import opened PasswordPolicy

  const SessionLifetime: nat := 24 * 60 * 60
  const ResetTokenLifetime: nat := 15 * 60
  const CodeLifetimeMs: nat := 600000
  const ResetPurpose := "password_reset"
  const BadCredentials := "Invalid email or password"
  const ValidationFailed := "Validation failed"
  const UnknownCode := "Invalid or expired verification code"

  /** An element of `users`. Social accounts have the empty password. */
  datatype User = User(id: int, name: string, email: string, password: Credential, createdAt: int)

  /** An entry of `passwordResetTokens`. */
  datatype PendingCode = PendingCode(otp: string, expiresAt: int)

  datatype Provider = Google | Apple | Microsoft

  /** The claims the server signs: `{id, email}` for a session, `{email, purpose}` for a reset. */
  datatype Claims = Claims(id: Option<int>, email: Option<string>, purpose: Option<string>)

  datatype UserView = UserView(id: int, name: string, email: string, avatar: string)

  datatype Data =
    | Session(user: UserView, token: Token<Claims>)
    | CodeSent(message: string, otp: string, expiresIn: nat)
    | ResetGrant(message: string, token: Token<Claims>)
    | Done(message: string)

  datatype Reply = Ok(status: nat, data: Data) | Fail(status: nat, message: string)

  /** jsonwebtoken's clock: whole seconds, `Math.floor(Date.now() / 1000)`. */
  function Seconds(nowMs: nat): int { nowMs / 1000 }

  /** `generateToken(user)`. */
  function SessionToken(u: User, nowMs: nat): Token<Claims> {
    Issue(Claims(Some(u.id), Some(u.email), None), Seconds(nowMs), SessionLifetime)
  }

  function ResetToken(email: string, nowMs: nat): Token<Claims> {
    Issue(Claims(None, Some(email), Some(ResetPurpose)), Seconds(nowMs), ResetTokenLifetime)
  }

  /** `user.name.charAt(0).toUpperCase()`, ASCII only; the empty name gives the empty text. */
  function Avatar(name: string): (a: string)
    ensures name == "" <==> a == ""
    ensures name != "" ==> |a| == 1 && a[0] == ToUpper(name[0])
  {
    if name == "" then "" else [ToUpper(name[0])]
  }

  function View(u: User): UserView { UserView(u.id, u.name, u.email, Avatar(u.name)) }

  /** `users.find(u => u.email === email)`. */
  function UserByEmail(users: seq<User>, email: string): Option<nat> {
    FindFirst(users, (u: User) => u.email == email)
  }

  /** `passwordResetTokens[email]`, undefined when the email has no entry. */
  function Lookup(codes: map<string, PendingCode>, email: string): (r: Option<PendingCode>)
    ensures r.Some? <==> email in codes
    ensures r.Some? ==> r.value == codes[email]
  {
    if email in codes then Some(codes[email]) else None
  }

  /** Every append uses `users.length + 1` and nothing is removed, so ids are positions plus one. */
  ghost predicate IdsArePositions(users: seq<User>) {
    forall i :: 0 <= i < |users| ==> users[i].id == i + 1
  }

  ghost predicate EmailsUnique(users: seq<User>) {
    forall i, j :: 0 <= i < j < |users| ==> users[i].email != users[j].email
  }

  // ----------------------------------------------------------------- login

  /**
   * The login handler: the validators first (email accepted by `isEmail`,
   * password of at least six characters); an unknown email and a wrong
   * password give the same 401; success issues a session token for the
   * first user with that email.
   */
  function Login(users: seq<User>, email: string, password: string, emailValid: bool, nowMs: nat): (r: Reply)
    ensures !emailValid || |password| < 6 ==> r == Fail(400, ValidationFailed)
    ensures r == Fail(401, BadCredentials) <==>
      && emailValid && |password| >= 6
      && (UserByEmail(users, email).None? || !Verifies(password, users[UserByEmail(users, email).value].password))
    ensures r.Ok? <==>
      && emailValid && |password| >= 6
      && UserByEmail(users, email).Some? && Verifies(password, users[UserByEmail(users, email).value].password)
    ensures r.Ok? ==>
      var u := users[UserByEmail(users, email).value];
      r == Ok(200, Session(View(u), SessionToken(u, nowMs)))
  {
    if !emailValid || |password| < 6 then Fail(400, ValidationFailed)
    else match UserByEmail(users, email)
      case None => Fail(401, BadCredentials)
      case Some(i) =>
        if !Verifies(password, users[i].password) then Fail(401, BadCredentials)
        else Ok(200, Session(View(users[i]), SessionToken(users[i], nowMs)))
  }

  /** A social account has no password: login never succeeds for it. */
  lemma SocialAccountsCannotLogIn(users: seq<User>, email: string, password: string, emailValid: bool, nowMs: nat)
    requires UserByEmail(users, email).Some? && users[UserByEmail(users, email).value].password == Blank
    ensures !Login(users, email, password, emailValid, nowMs).Ok?
  {
  }

  // ----------------------------------------------------------- social login

  function ProviderName(p: Provider): string {
    match p
    case Google => "Google"
    case Apple => "Apple"
    case Microsoft => "Microsoft"
  }

  function ProviderDomain(p: Provider): string {
    match p
    case Google => "google.com"
    case Apple => "apple.com"
    case Microsoft => "microsoft.com"
  }

  /** The user a social endpoint appends: `user-<Date.now()>@<provider domain>` with the empty password. */
  function SocialUser(p: Provider, id: int, nowMs: nat): (u: User)
    ensures u.id == id && u.password == Blank && u.createdAt == nowMs
    ensures u.email == "user-" + Decimal(nowMs) + "@" + ProviderDomain(p)
    ensures u.name == ProviderName(p) + " User" && Avatar(u.name) == [ProviderName(p)[0]]
  {
    User(id, ProviderName(p) + " User", "user-" + Decimal(nowMs) + "@" + ProviderDomain(p), Blank, nowMs)
  }

  /**
   * The synthesized address determines the millisecond: two social logins
   * of one provider get the same address exactly when they happen in the
   * same millisecond.
   */
  lemma SocialEmailDeterminesTime(p: Provider, id1: int, id2: int, t1: nat, t2: nat)
    ensures SocialUser(p, id1, t1).email == SocialUser(p, id2, t2).email <==> t1 == t2
  {
    var d1, d2, domain := Decimal(t1), Decimal(t2), ProviderDomain(p);
    var e1, e2 := "user-" + d1 + "@" + domain, "user-" + d2 + "@" + domain;
    if e1 == e2 {
      assert |d1| == |d2|;
      forall k | 0 <= k < |d1| ensures d1[k] == d2[k] {
        assert e1[5 + k] == d1[k] && e2[5 + k] == d2[k];
      }
      assert d1 == d2;
    }
  }

  /**
   * The social endpoints append without looking for the address: two calls
   * in the same millisecond store two users with one email.
   */
  lemma SameMillisecondSocialLoginsShareEmail(users: seq<User>, p: Provider, nowMs: nat)
    ensures var after := users + [SocialUser(p, |users| + 1, nowMs)] + [SocialUser(p, |users| + 2, nowMs)];
      IdsArePositions(users) ==> IdsArePositions(after)
    ensures !EmailsUnique(users + [SocialUser(p, |users| + 1, nowMs)] + [SocialUser(p, |users| + 2, nowMs)])
  {
    var after := users + [SocialUser(p, |users| + 1, nowMs)] + [SocialUser(p, |users| + 2, nowMs)];
    assert after[|users|].email == after[|users| + 1].email;
  }

  /**
   * The signup handler awaits `bcrypt.hash` between its lookup and its
   * push. Two signups for one new email whose lookups both run before
   * either push both append, each with `users.length + 1` read at the push:
   * ids stay positions, but the email is stored twice.
   */
  lemma OverlappingSignupsDuplicateEmail(users: seq<User>, email: string, name1: string, name2: string,
                                         password1: string, password2: string, salt1: nat, salt2: nat,
                                         t1: nat, t2: nat)
    requires UserByEmail(users, email).None?
    ensures var first := users + [User(|users| + 1, name1, email, Hash(password1, salt1), t1)];
      var after := first + [User(|first| + 1, name2, email, Hash(password2, salt2), t2)];
      && (IdsArePositions(users) ==> IdsArePositions(after))
      && !EmailsUnique(after)
  {
    var first := users + [User(|users| + 1, name1, email, Hash(password1, salt1), t1)];
    var after := first + [User(|first| + 1, name2, email, Hash(password2, salt2), t2)];
    assert after[|users|].email == after[|users| + 1].email;
  }

  // ------------------------------------------------------ one-time codes

  /** The code `Math.floor(100000 + Math.random() * 900000).toString()` for a draw in [100000, 999999]. */
  function IssuedCode(draw: nat): (otp: string)
    requires 100000 <= draw <= 999999
    ensures |otp| == 6
    ensures forall i :: 0 <= i < |otp| ==> IsAsciiDigit(otp[i])
  {
    assert Pow10(5) == 100000 && Pow10(6) == 1000000;
    DecimalLength(draw, 5);
    Decimal(draw)
  }

  datatype CodeCheck = NoSuchCode | CodeExpired | CodeAccepted

  /**
   * verify-otp's decision on the entry stored for the email: no entry or
   * another code is refused; a matching code is expired only once the
   * clock is past `expiresAt`.
   */
  function CheckCode(entry: Option<PendingCode>, otp: string, nowMs: int): (c: CodeCheck)
    ensures c == NoSuchCode <==> entry.None? || entry.value.otp != otp
    ensures c == CodeAccepted <==> entry.Some? && entry.value.otp == otp && nowMs <= entry.value.expiresAt
    ensures c == CodeExpired <==> entry.Some? && entry.value.otp == otp && nowMs > entry.value.expiresAt
  {
    if entry.None? || entry.value.otp != otp then NoSuchCode
    else if nowMs > entry.value.expiresAt then CodeExpired
    else CodeAccepted
  }

  /**
   * A code stored at time t is accepted at every instant up to and including
   * t + 600000 and expired after; accepting it does not consume it.
   */
  lemma StoredCodeWindow(otp: string, storedAt: nat, nowMs: nat)
    ensures storedAt <= nowMs <= storedAt + CodeLifetimeMs ==>
      CheckCode(Some(PendingCode(otp, storedAt + CodeLifetimeMs)), otp, nowMs) == CodeAccepted
    ensures nowMs > storedAt + CodeLifetimeMs ==>
      CheckCode(Some(PendingCode(otp, storedAt + CodeLifetimeMs)), otp, nowMs) == CodeExpired
  {
  }

  // ------------------------------------------------------- password reset

  datatype ResetCheck = Authorised(email: Option<string>) | Refused(reply: Reply)

  /**
   * reset-password's checks before the user lookup: the validators (token
   * not empty, new password accepted by the pattern), then `jwt.verify`,
   * then the purpose claim. The token's email, possibly absent, is handed on.
   */
  function CheckResetRequest(token: Token<Claims>, newPassword: string, nowMs: nat): (c: ResetCheck)
    ensures c.Refused? ==> c.reply.Fail? && c.reply.status == 400
    ensures c.Authorised? <==>
      && token != Unsigned("")
      && PatternMatches(newPassword)
      && Decode(token, Seconds(nowMs)).Valid?
      && token.claims.purpose == Some(ResetPurpose)
    ensures c.Authorised? ==> c.email == token.claims.email
  {
    if token == Unsigned("") || !ServerAccepts(newPassword) then Refused(Fail(400, ValidationFailed))
    else match Decode(token, Seconds(nowMs))
      case Expired => Refused(Fail(400, "Invalid or expired token"))
      case Invalid => Refused(Fail(400, "Invalid or expired token"))
      case Valid(claims) =>
        if claims.purpose != Some(ResetPurpose) then Refused(Fail(400, "Invalid token"))
        else Authorised(claims.email)
  }

  /**
   * The token verify-otp grants authorises a reset of its email, with any
   * accepted password, until fifteen minutes have passed; a session token
   * never does.
   */
  lemma GrantedTokenAuthorisesReset(email: string, grantedMs: nat, nowMs: nat, newPassword: string, u: User)
    requires ServerAccepts(newPassword)
    ensures grantedMs <= nowMs && Seconds(nowMs) < Seconds(grantedMs) + ResetTokenLifetime ==>
      CheckResetRequest(ResetToken(email, grantedMs), newPassword, nowMs) == Authorised(Some(email))
    ensures Seconds(grantedMs) + ResetTokenLifetime <= Seconds(nowMs) ==>
      CheckResetRequest(ResetToken(email, grantedMs), newPassword, nowMs) == Refused(Fail(400, "Invalid or expired token"))
    ensures CheckResetRequest(SessionToken(u, grantedMs), newPassword, nowMs).Refused?
  {
  }

  /**
   * After a reset of the first user with an email, login with the new
   * password succeeds and any other password gets the common 401.
   */
  lemma LoginAfterReset(users: seq<User>, email: string, newPassword: string, other: string, salt: nat, nowMs: nat)
    requires UserByEmail(users, email).Some? && |newPassword| >= 6 && |other| >= 6 && other != newPassword
    ensures var i := UserByEmail(users, email).value;
      var after := users[i := users[i].(password := Hash(newPassword, salt))];
      && Login(after, email, newPassword, true, nowMs).Ok?
      && Login(after, email, other, true, nowMs) == Fail(401, BadCredentials)
  {
    var i := UserByEmail(users, email).value;
    var after := users[i := users[i].(password := Hash(newPassword, salt))];
    assert forall k :: 0 <= k < |users| && k != i ==> after[k] == users[k];
    var found := UserByEmail(after, email);
    assert after[i].email == email;
    assert found.Some?;
    assert found.value == i;
  }

  // ---------------------------------------------------------------- state

  /** The server's module-level state. */
  class Server {
    var users: seq<User>
    var resetTokens: map<string, PendingCode>

    ghost predicate Valid()
      reads this
    {
      IdsArePositions(users)
    }

    constructor ()
      ensures Valid() && users == [] && resetTokens == map[]
    {
      users, resetTokens := [], map[];
    }

    /**
     * The signup handler: 400 when a validator fails, 409 for a known
     * email, otherwise exactly one user appended with id `users.length + 1`.
     */
    method Signup(name: string, email: string, password: string, fieldsValid: bool, salt: nat, nowMs: nat)
      returns (r: Reply)
      requires Valid()
      modifies this
      ensures Valid() && resetTokens == old(resetTokens)
      ensures !(fieldsValid && ServerAccepts(password)) ==> r == Fail(400, ValidationFailed) && users == old(users)
      ensures fieldsValid && ServerAccepts(password) && UserByEmail(old(users), email).Some? ==>
        r == Fail(409, "User already exists with this email") && users == old(users)
      ensures fieldsValid && ServerAccepts(password) && UserByEmail(old(users), email).None? ==>
        var u := User(|old(users)| + 1, name, email, Hash(password, salt), nowMs);
        users == old(users) + [u] && r == Ok(201, Session(View(u), SessionToken(u, nowMs)))
      ensures EmailsUnique(old(users)) ==> EmailsUnique(users)
    {
      if !fieldsValid || !ServerAccepts(password) {
        return Fail(400, ValidationFailed);
      }
      if UserByEmail(users, email).Some? {
        return Fail(409, "User already exists with this email");
      }
      var u := User(|users| + 1, name, email, Hash(password, salt), nowMs);
      users := users + [u];
      r := Ok(201, Session(View(u), SessionToken(u, nowMs)));
    }

    /** The Google, Apple and Microsoft endpoints: one user appended with id `users.length + 1`, no lookup. */
    method SocialLogin(provider: Provider, nowMs: nat) returns (r: Reply)
      requires Valid()
      modifies this
      ensures Valid() && resetTokens == old(resetTokens)
      ensures users == old(users) + [SocialUser(provider, |old(users)| + 1, nowMs)]
      ensures r == Ok(200, Session(View(users[|old(users)|]), SessionToken(users[|old(users)|], nowMs)))
    {
      var u := SocialUser(provider, |users| + 1, nowMs);
      users := users + [u];
      r := Ok(200, Session(View(u), SessionToken(u, nowMs)));
    }

    /**
     * The forgot-password handler: 400 when `isEmail` fails; a decoy code
     * and no change for an unknown email; otherwise the email's entry is
     * replaced by the new code, expiring in ten minutes.
     */
    method ForgotPassword(email: string, emailValid: bool, draw: nat, nowMs: nat) returns (r: Reply)
      requires Valid()
      requires 100000 <= draw <= 999999
      modifies this
      ensures Valid() && users == old(users)
      ensures !emailValid ==> r == Fail(400, ValidationFailed) && resetTokens == old(resetTokens)
      ensures emailValid && UserByEmail(users, email).None? ==>
        && resetTokens == old(resetTokens)
        && r == Ok(200, CodeSent("If this email is registered, you will receive a verification code", IssuedCode(draw), 600))
      ensures emailValid && UserByEmail(users, email).Some? ==>
        && resetTokens == old(resetTokens)[email := PendingCode(IssuedCode(draw), nowMs + CodeLifetimeMs)]
        && r == Ok(200, CodeSent("Verification code sent to your email", IssuedCode(draw), 600))
    {
      if !emailValid {
        return Fail(400, ValidationFailed);
      }
      if UserByEmail(users, email).None? {
        return Ok(200, CodeSent("If this email is registered, you will receive a verification code", IssuedCode(draw), 600));
      }
      var otp := IssuedCode(draw);
      resetTokens := resetTokens[email := PendingCode(otp, nowMs + CodeLifetimeMs)];
      r := Ok(200, CodeSent("Verification code sent to your email", otp, 600));
    }

    /**
     * The verify-otp handler: a wrong or missing code changes nothing; an
     * expired one is deleted; an accepted one stays in place (it can be
     * verified again) and a fifteen-minute reset token is granted.
     */
    method VerifyOtp(email: string, otp: string, emailValid: bool, nowMs: nat) returns (r: Reply)
      requires Valid()
      modifies this
      ensures Valid() && users == old(users)
      ensures !emailValid || |otp| != 6 ==> r == Fail(400, ValidationFailed) && resetTokens == old(resetTokens)
      ensures emailValid && |otp| == 6 ==>
        match CheckCode(Lookup(old(resetTokens), email), otp, nowMs)
        case NoSuchCode => r == Fail(400, UnknownCode) && resetTokens == old(resetTokens)
        case CodeExpired => r == Fail(400, "Verification code has expired") && resetTokens == old(resetTokens) - {email}
        case CodeAccepted =>
          r == Ok(200, ResetGrant("OTP verified successfully", ResetToken(email, nowMs))) && resetTokens == old(resetTokens)
    {
      if !emailValid || |otp| != 6 {
        return Fail(400, ValidationFailed);
      }
      match CheckCode(Lookup(resetTokens, email), otp, nowMs)
      case NoSuchCode =>
        r := Fail(400, UnknownCode);
      case CodeExpired =>
        resetTokens := resetTokens - {email};
        r := Fail(400, "Verification code has expired");
      case CodeAccepted =>
        r := Ok(200, ResetGrant("OTP verified successfully", ResetToken(email, nowMs)));
    }

    /**
     * The reset-password handler: the checks of CheckResetRequest, then 404
     * when no user has the token's email; otherwise that user's password is
     * replaced and the email's pending code deleted.
     */
    method ResetPassword(token: Token<Claims>, newPassword: string, salt: nat, nowMs: nat) returns (r: Reply)
      requires Valid()
      modifies this
      ensures Valid()
      ensures CheckResetRequest(token, newPassword, nowMs).Refused? ==>
        r == CheckResetRequest(token, newPassword, nowMs).reply
        && users == old(users) && resetTokens == old(resetTokens)
      ensures CheckResetRequest(token, newPassword, nowMs).Authorised? ==>
        var email := CheckResetRequest(token, newPassword, nowMs).email;
        if email.None? || UserByEmail(old(users), email.value).None? then
          r == Fail(404, "User not found") && users == old(users) && resetTokens == old(resetTokens)
        else
          var i := UserByEmail(old(users), email.value).value;
          && users == old(users)[i := old(users)[i].(password := Hash(newPassword, salt))]
          && resetTokens == old(resetTokens) - {email.value}
          && r == Ok(200, Done("Password reset successfully"))
    {
      var check := CheckResetRequest(token, newPassword, nowMs);
      if check.Refused? {
        return check.reply;
      }
      if check.email.None? || UserByEmail(users, check.email.value).None? {
        return Fail(404, "User not found");
      }
      var email := check.email.value;
      var i := UserByEmail(users, email).value;
      users := users[i := users[i].(password := Hash(newPassword, salt))];
      resetTokens := resetTokens - {email};
      r := Ok(200, Done("Password reset successfully"));
    }
  }
}
