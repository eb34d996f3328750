/** Session tokens as values: the claims the login and signup handlers sign,
    and signing and verification with the server's secret and a 24-hour
    lifetime. The compact string form of a token is not modelled. */
module Tokens {
  import opened Common
  import opened Schema

  /** `expiresIn: '24h'`, in seconds. */
  const TokenLifetime := 86400

  /** The signed claims. `kind` is the `type` claim: "user" or "store" when the
      server signs, but verification hands back whatever was signed. */
  datatype Claims = Claims(id: nat, email: string, role: Option<Role>, kind: string)

  datatype Jwt = Jwt(claims: Claims, issuedAt: int, expiresAt: int, key: string)

  /** `jwt.sign(claims, secret, { expiresIn: '24h' })` at time `now` (seconds). */
  function Sign(claims: Claims, key: string, now: int): (token: Jwt) {
    Jwt(claims, now, now + TokenLifetime, key)
  }

  /** `jwt.verify(token, secret)` at time `now`: the claims, or failure when the
      key is wrong or the token has expired. */
  function Verify(token: Jwt, key: string, now: int): (claims: Option<Claims>)
    ensures claims.Some? ==> claims.value == token.claims && token.key == key
  {
    if token.key == key && now < token.expiresAt then Some(token.claims) else None
  }

  /** A token verifies with its own key, returning what was signed, for exactly
      24 hours after it is issued; with another key it never verifies. */
  lemma SignThenVerify(claims: Claims, key: string, issued: int, now: int, other: string)
    ensures Verify(Sign(claims, key, issued), key, now) == Some(claims) <==> now < issued + TokenLifetime
    ensures Verify(Sign(claims, key, issued), key, now).Some? ==>
              Verify(Sign(claims, key, issued), key, now) == Some(claims)
    ensures other != key ==> Verify(Sign(claims, key, issued), other, now).None?
  {
  }

  /** The claims of a user session: `{ id, email, role, type: 'user' }`. */
  function UserClaims(u: User): (c: Claims)
    ensures c.kind == "user" && c.id == u.id && c.email == u.email && c.role == Some(u.role)
  {
    Claims(u.id, u.email, Some(u.role), "user")
  }

  /** The claims of a store session: `{ id, email, type: 'store' }`, no role. */
  function StoreClaims(s: Store): (c: Claims)
    ensures c.kind == "store" && c.id == s.id && c.email == s.email && c.role.None?
  {
    Claims(s.id, s.email, None, "store")
  }
}
