/**
 * bcrypt and the JWT signer, as the services see them: functions supplied from
 * outside whose internals (salt, cost factor, signature scheme, secret) are not
 * modelled.
 */
module Crypto {

  /** The payload `{ id, email }` that both tokens carry. */
  datatype Claims = Claims(id: int, email: string)

  /** The `expiresIn` options of the two tokens. */
  const AccessLifetime := "2h"
  const RefreshLifetime := "30d"

  /** `hash` is bcrypt.hash at cost 10, `compare` is bcrypt.compare of a plaintext
      and a stored hash, `sign` is jwtService.sign of a payload with an expiry. */
  datatype Primitives = Primitives(
    hash: string -> string,
    compare: (string, string) -> bool,
    sign: (Claims, string) -> string)

  /** The one fact about bcrypt that the model relies on, and only where it says so:
      a plaintext matches its own hash. */
  ghost predicate Sound(c: Primitives)
  {
    forall p :: c.compare(p, c.hash(p))
  }

  /** generateAccessToken: the payload `{ id, email }` signed to expire in two hours. */
  function AccessToken(c: Primitives, id: int, email: string): (r: string)
    ensures r == c.sign(Claims(id, email), "2h")
  {
    c.sign(Claims(id, email), AccessLifetime)
  }

  /** generateRefreshToken: the same payload signed to expire in thirty days. */
  function RefreshToken(c: Primitives, id: int, email: string): (r: string)
    ensures r == c.sign(Claims(id, email), "30d")
  {
    c.sign(Claims(id, email), RefreshLifetime)
  }

  /** A signer that never gives two payload-and-lifetime pairs the same token. */
  ghost predicate Injective(c: Primitives)
  {
    forall a, b, l, m :: c.sign(a, l) == c.sign(b, m) ==> a == b && l == m
  }

  /** With such a signer, a refresh token never equals an access token, and an access
      token names the one user id and email it was signed for. */
  lemma TokensDistinct(c: Primitives, id: int, email: string, id': int, email': string)
    requires Injective(c)
    ensures AccessToken(c, id, email) != RefreshToken(c, id', email')
    ensures AccessToken(c, id, email) == AccessToken(c, id', email') ==> id == id' && email == email'
  {
    assert AccessLifetime != RefreshLifetime by {
      assert AccessLifetime[0] != RefreshLifetime[0];
    }
  }
}
