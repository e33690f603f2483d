/**
 * The client-side checks of the login and signup pages: the password
 * strength meter, the confirm-password matcher and the checks made when a
 * form is submitted. The meter's regular expressions `/[a-z]/`, `/[A-Z]/`,
 * `/\d/` and `/[^a-zA-Z0-9]/` are the ASCII classes of PasswordPolicy.
 */
module AuthScript {
  import opened PasswordPolicy
  import ExpressServer

  /** The four things the strength meter rewards. */
  datatype Criterion = LongerThanSeven | MixedCase | HasNumber | HasSymbol

  const Criteria: seq<Criterion> := [LongerThanSeven, MixedCase, HasNumber, HasSymbol]

  ghost predicate Meets(p: string, c: Criterion) {
    match c
    case LongerThanSeven => |p| > 7
    case MixedCase => Has(Lower, p) && Has(Upper, p)
    case HasNumber => Has(Digit, p)
    case HasSymbol => Has(Special, p)
  }

  /** How many of the criteria cs the password p meets. */
  ghost function CountMet(p: string, cs: seq<Criterion>): nat {
    if cs == [] then 0 else (if Meets(p, cs[0]) then 1 else 0) + CountMet(p, cs[1..])
  }

  lemma CountMetUnfolded(p: string)
    ensures CountMet(p, Criteria) ==
      (if Meets(p, LongerThanSeven) then 1 else 0) + (if Meets(p, MixedCase) then 1 else 0)
      + (if Meets(p, HasNumber) then 1 else 0) + (if Meets(p, HasSymbol) then 1 else 0)
  {
    var c1, c2, c3 := Criteria[1..], Criteria[2..], Criteria[3..];
    assert c1[1..] == c2 && c2[1..] == c3 && c3[1..] == [];
    assert CountMet(p, c3) == if Meets(p, HasSymbol) then 1 else 0;
    assert CountMet(p, c2) == (if Meets(p, HasNumber) then 1 else 0) + CountMet(p, c3);
    assert CountMet(p, c1) == (if Meets(p, MixedCase) then 1 else 0) + CountMet(p, c2);
  }

  /**
   * `checkPasswordStrength`: the score starts at 0 and each test that
   * passes adds 25, so it is 25 for every criterion met.
   */
  function StrengthScore(p: string): (s: nat)
    ensures s == 25 * CountMet(p, Criteria)
    ensures s in {0, 25, 50, 75, 100}
  {
    CountMetUnfolded(p);
    var strength := 0;
    var strength := if |p| > 7 then strength + 25 else strength;
    var strength := if Any(Lower, p) && Any(Upper, p) then strength + 25 else strength;
    var strength := if Any(Digit, p) then strength + 25 else strength;
    var strength := if Any(Special, p) then strength + 25 else strength;
    strength
  }

  datatype Label = Weak | Medium | Strong

  function Rank(l: Label): nat {
    match l
    case Weak => 0
    case Medium => 1
    case Strong => 2
  }

  /** The text shown under the meter for a score. */
  function StrengthLabel(score: int): (l: Label)
    ensures l == Weak <==> score < 50
    ensures l == Strong <==> score >= 75
  {
    if score < 50 then Weak else if score < 75 then Medium else Strong
  }

  /** A higher score never shows a lower label. */
  lemma LabelMonotone(a: int, b: int)
    requires a <= b
    ensures Rank(StrengthLabel(a)) <= Rank(StrengthLabel(b))
  {
  }

  /** The label counts criteria: Strong from three of them, Medium for exactly two, Weak below. */
  lemma LabelCountsCriteria(p: string)
    ensures StrengthLabel(StrengthScore(p)) == Strong <==> CountMet(p, Criteria) >= 3
    ensures StrengthLabel(StrengthScore(p)) == Medium <==> CountMet(p, Criteria) == 2
    ensures StrengthLabel(StrengthScore(p)) == Weak <==> CountMet(p, Criteria) <= 1
  {
  }

  /** Every password the servers accept scores the full 100 and reads Strong. */
  lemma ServerAcceptedIsStrong(p: string)
    requires ServerAccepts(p) || CheckComplexity(p) == Accepted
    ensures StrengthScore(p) == 100
    ensures StrengthLabel(StrengthScore(p)) == Strong
  {
    PatternCharacterised(p);
  }

  /**
   * `checkPasswordMatch`: while either field is empty nothing is reported;
   * otherwise the two values must be equal.
   */
  function PasswordsMatch(password: string, confirm: string): (ok: bool)
    ensures !ok <==> password != "" && confirm != "" && password != confirm
  {
    if password != "" && confirm != "" then password == confirm else true
  }

  /** The matcher does not care which field is which. */
  lemma MatchSymmetric(a: string, b: string)
    ensures PasswordsMatch(a, b) == PasswordsMatch(b, a)
  {
  }

  datatype SignupOutcome = Mismatch | TooShortForForm | Submitted

  /**
   * The signup form's submit handler: the match is checked first, then a
   * password under 8 characters is refused.
   */
  function SubmitSignup(password: string, confirm: string): (o: SignupOutcome)
    ensures o == Mismatch <==> !PasswordsMatch(password, confirm)
    ensures o == TooShortForForm <==> PasswordsMatch(password, confirm) && |password| < 8
    ensures o == Submitted <==> PasswordsMatch(password, confirm) && |password| >= 8
  {
    if !PasswordsMatch(password, confirm) then Mismatch
    else if |password| < 8 then TooShortForForm
    else Submitted
  }

  /** An empty confirmation field does not stop a submission. */
  lemma EmptyConfirmationSubmits(password: string)
    requires |password| >= 8
    ensures SubmitSignup(password, "") == Submitted
  {
  }

  /**
   * The form is looser than the servers: every password of 8 to 11
   * characters, confirmed, is submitted, and both servers refuse it.
   */
  lemma FormLooserThanServers(p: string)
    requires 8 <= |p| < MinLength
    ensures SubmitSignup(p, p) == Submitted
    ensures CheckComplexity(p) == TooShort
    ensures !ServerAccepts(p)
  {
  }

  /** The login form's simulated check: the email holds an '@' and the password is longer than five characters. */
  function SimulatedLogin(email: string, password: string): (ok: bool)
    ensures ok ==> exists i :: 0 <= i < |email| && email[i] == '@'
    ensures ok <==> '@' in email && |password| >= 6
  {
    '@' in email && |password| > 5
  }

  /**
   * For an address the server's `isEmail` accepts, the simulated login's
   * password gate is the Express login validator's `isLength({ min: 6 })`:
   * the form lets a password through exactly when the server does not
   * refuse it as a validation failure.
   */
  lemma SimulatedLoginMatchesServerGate(users: seq<ExpressServer.User>, email: string, password: string, nowMs: nat)
    requires '@' in email
    ensures SimulatedLogin(email, password) <==>
      ExpressServer.Login(users, email, password, true, nowMs) != ExpressServer.Fail(400, ExpressServer.ValidationFailed)
  {
  }
}
