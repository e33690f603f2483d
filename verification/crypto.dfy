/**
 * Password storage, idealised. A bcrypt digest is modelled by the plaintext
 * it was computed from and the salt drawn for it: the model assumes bcrypt
 * has no collisions, so checking a password against a digest succeeds
 * exactly for the plaintext that was hashed.
 */
module Crypto {

  /** A stored password: a bcrypt digest, or the empty text social accounts are given. */
  datatype Credential = Digest(plain: string, salt: nat) | Blank

  /** `bcrypt.hashpw` / `bcrypt.hash` with a freshly drawn salt. */
  function Hash(password: string, salt: nat): (c: Credential)
    ensures c.Digest?
    ensures forall q :: Verifies(q, c) <==> q == password
  {
    Digest(password, salt)
  }

  /** `bcrypt.checkpw` / `bcrypt.compare` against a digest; a Blank credential verifies nothing. */
  predicate Verifies(password: string, c: Credential) {
    c.Digest? && c.plain == password
  }
}
