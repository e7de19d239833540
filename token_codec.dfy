/** The token codec (the `JwtService` of `@nestjs/jwt`). Signature algorithm,
    secret and clock are not modelled: the service is given a signing function
    and a verifying function, and what it relies on of them is stated as a
    predicate over that pair. */
module TokenCodec {

  import opened Json

  datatype Option<+T> = None | Some(value: T)

  /** `sign` either returns a token or throws an error carrying a message. */
  datatype SignResult = Signed(token: string) | SignFailed(message: string)

  /** `sign(payload)` is `jwtService.sign(payload)`; `verify(token)` is
      `jwtService.verify(token, { secret })`, `None` standing for every way it
      throws (bad signature, malformed token, expired token). */
  datatype Codec = Codec(
    sign: Object -> SignResult,
    verify: string -> Option<Object>)

  /** The claims the service strips from a verified payload: three of the
      registered claims of section 4.1 of RFC 7519 (subject, issued-at and
      expiration time). The other registered claims are kept. */
  const StrippedClaims: set<string> := {"sub", "iat", "exp"}

  /** A token the codec signed verifies again, and gives back the signed
      payload up to the stripped claims, which the codec may add or overwrite. */
  ghost predicate RoundTrips(c: Codec) {
    forall payload :: c.sign(payload).Signed? ==>
      c.verify(c.sign(payload).token).Some? &&
      Rest(c.verify(c.sign(payload).token).value, StrippedClaims) == Rest(payload, StrippedClaims)
  }
}
