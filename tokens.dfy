/** The signed identity tokens of the auth controller (`generateToken`) and what
    the JSON Web Token library is assumed to guarantee about them. */
module Tokens {
  import opened Basics
  import opened Model

  /** `expiresIn: '7d'`, in seconds. */
  const TokenLifetime: int := 7 * 24 * 60 * 60

  /** A token's payload: the `userId` claim and the registered claims "iat" and "exp"
      of section 4.1 of RFC 7519, in seconds. */
  datatype Claims = Claims(userId: Option<string>, iat: int, exp: int)

  datatype Signing = Signed(token: string) | SignFailed(message: string)

  datatype Verification = Verified(claims: Claims) | Rejected(message: string)

  /** The library's `jwt.sign(payload, secret)` and `jwt.verify(token, secret)`,
      the latter at a given clock reading in seconds. */
  datatype JwtLib = JwtLib(
    sign: (Claims, string) -> Signing,
    verify: (string, string, int) -> Verification)

  /** The one property assumed of the library: a token it signed verifies, with the same
      secret and before its "exp" instant, to exactly the claims that were signed. */
  ghost predicate Honest(jwt: JwtLib) {
    forall c: Claims, secret: string, now: int ::
      jwt.sign(c, secret).Signed? && now < c.exp ==>
        jwt.verify(jwt.sign(c, secret).token, secret, now) == Verified(c)
  }

  /** The payload `generateToken` signs when called at instant `now`. */
  function IssuedClaims(id: Id, now: int): (c: Claims)
    ensures c.userId == Some(id)
    ensures c.iat == now && c.exp - c.iat == 604800
  {
    Claims(Some(id), now, now + TokenLifetime)
  }

  /** `generateToken(id)`: `{userId: id}` signed with the configured secret, valid for seven days. */
  function GenerateToken(jwt: JwtLib, secret: string, now: int, id: Id): (r: Signing)
    ensures Honest(jwt) && r.Signed? ==>
      jwt.verify(r.token, secret, now) == Verified(Claims(Some(id), now, now + 604800))
  {
    var c := IssuedClaims(id, now);
    assert Honest(jwt) && jwt.sign(c, secret).Signed? ==> now < c.exp;
    jwt.sign(c, secret)
  }

  /** A generated token verifies to its user id at every instant of its seven-day lifetime. */
  lemma GeneratedTokenVerifies(jwt: JwtLib, secret: string, issued: int, id: Id, now: int)
    requires Honest(jwt)
    requires GenerateToken(jwt, secret, issued, id).Signed?
    requires issued <= now < issued + TokenLifetime
    ensures jwt.verify(GenerateToken(jwt, secret, issued, id).token, secret, now)
         == Verified(Claims(Some(id), issued, issued + 604800))
  {
    var c := IssuedClaims(id, issued);
    assert jwt.sign(c, secret).Signed? && now < c.exp;
  }
}
