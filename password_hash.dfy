/**
 * The bcrypt pair the routes use: `bcrypt.hashpw(p, gensalt())` when a user
 * registers and `bcrypt.checkpw(p, stored)` when one logs in (app.py:96,
 * app.py:118). The algorithm itself is not modelled: the digest below is a
 * stand-in, and the only fact about it the rest of the model relies on is that
 * a password verifies against its own hash. The random salt of `gensalt()` is
 * a parameter.
 */
module PasswordHash {

  /** What the `password_hash` column stores: never the password itself. */
  datatype Hashed = Hashed(salt: nat, digest: seq<int>)

  /** Stand-in for the bcrypt key derivation. */
  function Digest(salt: nat, p: string): seq<int>
  {
    seq(|p|, i requires 0 <= i < |p| => p[i] as int + salt + i)
  }

  /** `bcrypt.checkpw(p, h)`. */
  predicate Verify(p: string, h: Hashed)
  {
    Digest(h.salt, p) == h.digest
  }

  /** `bcrypt.hashpw(p, salt)`: the stored hash accepts the password it came from. */
  function Hash(salt: nat, p: string): (h: Hashed)
    ensures Verify(p, h)
  {
    Hashed(salt, Digest(salt, p))
  }
}
