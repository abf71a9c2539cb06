/** The token issuer (jsonwebtoken), abstracted: signing and verification are functions
    supplied with the configuration that the process reads from its environment. */
module Jwt {
  import opened Base

  /** A token payload: `{_id, name, email}` for access tokens, `{_id}` for refresh tokens. */
  datatype Claims = Claims(id: Id, name: Option<string>, email: Option<string>)

  /** `sign(payload, secret, expiresIn)` and `verify(token, secret)`, the latter None
      wherever `jwt.verify` throws; the secrets and expiry strings come from
      ACCESS_TOKEN_SECRET, ACCESS_TOKEN_EXPIRY, REFRESH_TOKEN_SECRET and REFRESH_TOKEN_EXPIRY. */
  datatype Config = Config(
    sign: (Claims, string, string) -> string,
    verify: (string, string) -> Option<Claims>,
    accessSecret: string,
    accessExpiry: string,
    refreshSecret: string,
    refreshExpiry: string)

  /** A token verifies, with the secret it was signed with, to the claims it was signed
      over, and is never the empty string (expiry is not modelled). */
  ghost predicate Sound(c: Config) {
    forall claims, secret, expiry ::
      c.verify(c.sign(claims, secret, expiry), secret) == Some(claims)
      && c.sign(claims, secret, expiry) != ""
  }

  /** A token signed with one secret fails verification with any other. */
  ghost predicate SecretBound(c: Config) {
    forall claims, secret, other, expiry ::
      secret != other ==> c.verify(c.sign(claims, secret, expiry), other) == None
  }
}
