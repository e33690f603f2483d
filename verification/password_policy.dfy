/**
 * The two server-side password policies.
 *
 * The Flask backend tests the length and then four character classes with
 * `any(...)`; the Express backend uses the pattern
 * `^(?=.*[a-z])(?=.*[A-Z])(?=.*\d)(?=.*[^a-zA-Z0-9]).{12,}$`. Characters are
 * classified as ASCII (see Base). The two policies agree except on passwords
 * holding a line terminator, which the pattern's `.` does not match.
 */
module PasswordPolicy {
  import opened Base

  const MinLength: nat := 12

  /** The four character tests of the signup checks. */
  datatype CharTest = Upper | Lower | Digit | Special

  predicate Passes(t: CharTest, c: char) {
    match t
    case Upper => IsAsciiUpper(c)
    case Lower => IsAsciiLower(c)
    case Digit => IsAsciiDigit(c)
    case Special => !IsAsciiAlnum(c)
  }

  /** Some character of s passes t. */
  ghost predicate Has(t: CharTest, s: string) {
    exists i :: 0 <= i < |s| && Passes(t, s[i])
  }

  /** Python's `any(test(c) for c in s)`, scanning from the left. */
  function Any(t: CharTest, s: string): (r: bool)
    ensures r <==> Has(t, s)
  {
    if s == [] then false
    else if Passes(t, s[0]) then true
    else
      assert forall i :: 1 <= i < |s| ==> s[i] == s[1..][i - 1];
      Any(t, s[1..])
  }

  ghost predicate HasAllClasses(p: string) {
    Has(Upper, p) && Has(Lower, p) && Has(Digit, p) && Has(Special, p)
  }

  /** The Flask signup's verdict on a present password. */
  datatype Verdict = Accepted | TooShort | TooSimple

  /**
   * The Flask signup's password checks: fewer than 12 characters is refused
   * first; then an uppercase, a lowercase, a digit and a non-alphanumeric
   * character must all occur.
   */
  function CheckComplexity(p: string): (v: Verdict)
    ensures v == TooShort <==> |p| < MinLength
    ensures v == Accepted <==> |p| >= MinLength && HasAllClasses(p)
    ensures v == TooSimple <==> |p| >= MinLength && !HasAllClasses(p)
  {
    if |p| < MinLength then TooShort
    else if Any(Upper, p) && Any(Lower, p) && Any(Digit, p) && Any(Special, p) then Accepted
    else TooSimple
  }

  /** No character of s is a line terminator. */
  function LineFree(s: string): (r: bool)
    ensures r <==> forall j :: 0 <= j < |s| ==> !IsLineTerminator(s[j])
  {
    if s == [] then true
    else
      assert forall j :: 1 <= j < |s| ==> s[j] == s[1..][j - 1];
      !IsLineTerminator(s[0]) && LineFree(s[1..])
  }

  /** The lookahead `(?=.*X)` at the start: a character of X is reached before any line terminator. */
  ghost predicate Lookahead(t: CharTest, p: string) {
    exists i :: 0 <= i < |p| && Passes(t, p[i]) && forall j :: 0 <= j < i ==> !IsLineTerminator(p[j])
  }

  /**
   * What the pattern matches: its four lookaheads succeed at position 0, and
   * `.{12,}$` consumes at least twelve characters that are not line
   * terminators up to the end of the input.
   */
  ghost predicate PatternMatches(p: string) {
    && Lookahead(Lower, p) && Lookahead(Upper, p) && Lookahead(Digit, p) && Lookahead(Special, p)
    && |p| >= MinLength
    && forall j :: 0 <= j < |p| ==> !IsLineTerminator(p[j])
  }

  /** The pattern accepts exactly the line-free passwords of at least 12 characters holding all four classes. */
  lemma PatternCharacterised(p: string)
    ensures PatternMatches(p) <==> |p| >= MinLength && LineFree(p) && HasAllClasses(p)
  {
    if |p| >= MinLength && LineFree(p) && HasAllClasses(p) {
      forall t: CharTest ensures Lookahead(t, p) {
        var i :| 0 <= i < |p| && Passes(t, p[i]);
        assert forall j :: 0 <= j < i ==> !IsLineTerminator(p[j]);
      }
    }
  }

  /**
   * The Express validator for a new password: `isLength({ min: 12 })`
   * followed by the pattern.
   */
  function ServerAccepts(p: string): (ok: bool)
    ensures ok <==> PatternMatches(p)
  {
    PatternCharacterised(p);
    |p| >= MinLength && LineFree(p) && Any(Lower, p) && Any(Upper, p) && Any(Digit, p) && Any(Special, p)
  }

  /** On passwords without a line terminator the two backends accept the same passwords. */
  lemma PoliciesAgree(p: string)
    requires LineFree(p)
    ensures ServerAccepts(p) <==> CheckComplexity(p) == Accepted
  {
    PatternCharacterised(p);
  }

  /** A line terminator counts as a special character for Flask but makes the Express pattern fail. */
  lemma PoliciesDisagreeOnNewline()
    ensures CheckComplexity("Abcdefghij1\n") == Accepted
    ensures !ServerAccepts("Abcdefghij1\n")
  {
    var p := "Abcdefghij1\n";
    assert Passes(Upper, p[0]) && Passes(Lower, p[1]) && Passes(Digit, p[10]) && Passes(Special, p[11]);
    assert IsLineTerminator(p[11]);
  }
}
