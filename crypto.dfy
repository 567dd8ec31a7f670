/**
 * The password hasher and the token service, as opaque functions supplied by the caller.
 * Their salts, signatures and clock are not modelled; only how the core uses them.
 */
module Crypto {
  import opened Common

  /** The token claim set: the user's id, name and phone, and nothing else. */
  datatype Claims = Claims(id: int, name: string, phone: string)

  /** bcrypt `hash(plain, rounds)` for one call (its salt is random, so each call gets its own function). */
  type Hasher = (string, nat) -> string

  /** bcrypt `compare(plain, digest)`. */
  type Comparer = (string, string) -> bool

  /** `signAsync(claims, { secret, expiresIn })`. */
  type Signer = (Claims, string, string) -> string

  /** `verifyAsync(token, { secret })` at the current time: the claims, or `None` for any failure. */
  type Verifier = (string, string) -> Option<Claims>

  const SaltRounds: nat := 10
  const AccessTokenTtl := "30m"
  const RefreshTokenTtl := "7d"
}
