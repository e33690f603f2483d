/**
 * Signed tokens. Signatures are not modelled: a token either carries claims
 * signed with the server's own secret together with its `exp` time, or it is
 * some other text, which never verifies.
 */
module Jwt {

  datatype Token<C> = Signed(claims: C, exp: int) | Unsigned(text: string)

  /** The outcome of `jwt.decode` (PyJWT) or `jwt.verify` (jsonwebtoken). */
  datatype Decoded<C> = Valid(claims: C) | Expired | Invalid

  /** A token issued at `now` for `lifetime` seconds (`exp = now + lifetime`). */
  function Issue<C>(claims: C, now: int, lifetime: nat): (t: Token<C>)
    ensures t.Signed? && t.claims == claims && t.exp == now + lifetime
  {
    Signed(claims, now + lifetime)
  }

  /**
   * Verification at time `now` (seconds): both libraries reject a token whose
   * `exp` has been reached, and any token they did not sign themselves.
   */
  function Decode<C>(t: Token<C>, now: int): (d: Decoded<C>)
    ensures d.Valid? <==> t.Signed? && now < t.exp
    ensures d.Valid? ==> d.claims == t.claims
    ensures d.Expired? <==> t.Signed? && t.exp <= now
    ensures d.Invalid? <==> t.Unsigned?
  {
    match t
    case Unsigned(_) => Invalid
    case Signed(claims, exp) => if now < exp then Valid(claims) else Expired
  }

  /** A freshly issued token verifies, with its claims, until its lifetime has passed, and is expired from then on. */
  lemma IssuedTokenLifetime<C>(claims: C, issuedAt: int, lifetime: nat, now: int)
    ensures issuedAt <= now < issuedAt + lifetime ==> Decode(Issue(claims, issuedAt, lifetime), now) == Valid(claims)
    ensures issuedAt + lifetime <= now ==> Decode(Issue(claims, issuedAt, lifetime), now) == Expired
  {
  }
}
