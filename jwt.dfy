/** Token issuing (internal/lib/jwt/jwt.go).

    A token is a JWT (RFC 7519) with four claims, signed with RS256
    (RSASSA-PKCS1-v1_5 over SHA-256, section 3.3 of RFC 7518) under the
    app's private key. The JWS signer is library code, taken as a
    parameter; the clock is read by the caller and passed in nanoseconds
    since the Unix epoch. */
module Jwt {
  import opened Errors
  import opened Models
  import KeyGen

  const NewTokenOp := "jwt.NewToken"
  const NanosPerSecond := 1_000_000_000

  /** The only signing method the issuer uses. */
  datatype SigningMethod = RS256

  /** The claim set: uid, email, app_id and exp (a NumericDate, section
      4.1.4 of RFC 7519: whole seconds since the epoch). */
  datatype Claims = Claims(uid: int, email: string, appId: int, exp: int)

  /** token.SignedString: sign the claims with the method and the key. */
  type Signer = (SigningMethod, Claims, KeyGen.RsaPrivateKey) -> Result<string>

  /** time.Time.Unix: the second in which the instant lies. */
  function UnixSeconds(nanos: int): (s: int)
    ensures s * NanosPerSecond <= nanos < (s + 1) * NanosPerSecond
  {
    nanos / NanosPerSecond
  }

  /** The claims NewToken fills in for user and app, expiring duration
      nanoseconds after nowNanos. */
  function TokenClaims(user: User, app: App, nowNanos: int, duration: int): (c: Claims)
    ensures c.uid == user.id && c.email == user.email && c.appId == app.id
    ensures c.exp * NanosPerSecond <= nowNanos + duration < (c.exp + 1) * NanosPerSecond
  {
    Claims(user.id, user.email, app.id, UnixSeconds(nowNanos + duration))
  }

  /** NewToken: Go's (string, error) pair; the error is None on success. */
  function NewToken(c: KeyGen.Codecs, sign: Signer, user: User, app: App, nowNanos: int, duration: int)
    : (r: (string, Option<Error>))
    ensures r.1.Some? ==> r.0 == ""
    ensures KeyGen.ParseRSAPrivateKey(c, app.privateKey).Failure? ==>
              r == ("", Some(Wrapped(NewTokenOp + ": failed to parse private key",
                                     KeyGen.ParseRSAPrivateKey(c, app.privateKey).error)))
    ensures KeyGen.ParseRSAPrivateKey(c, app.privateKey).Success? ==>
              var signed := sign(RS256, TokenClaims(user, app, nowNanos, duration),
                                 KeyGen.ParseRSAPrivateKey(c, app.privateKey).value);
              && (signed.Failure? ==> r == ("", Some(Wrapped(NewTokenOp + ": failed to sign token", signed.error))))
              && (signed.Success? ==> r == (signed.value, None))
  {
    var claims := TokenClaims(user, app, nowNanos, duration);
    match KeyGen.ParseRSAPrivateKey(c, app.privateKey)
    case Failure(e) => ("", Some(Wrapped(NewTokenOp + ": failed to parse private key", e)))
    case Success(privateKey) =>
      match sign(RS256, claims, privateKey)
      case Failure(e) => ("", Some(Wrapped(NewTokenOp + ": failed to sign token", e)))
      case Success(tokenString) => (tokenString, None)
  }

  /** Only the app's id and private key enter the token: its name and its
      public key are never read. */
  lemma NewTokenIgnoresPublicKey(c: KeyGen.Codecs, sign: Signer, user: User, app: App,
                                 otherName: string, otherPublicKey: string, nowNanos: int, duration: int)
    ensures NewToken(c, sign, user, app, nowNanos, duration)
            == NewToken(c, sign, user, app.(name := otherName, publicKey := otherPublicKey), nowNanos, duration)
  {
  }

  /** A token issued at nowNanos with a duration of whole seconds expires
      exactly that many seconds after the second of issue; with any
      non-negative duration it never expires before the second of issue. */
  lemma ExpiryFollowsIssue(user: User, app: App, nowNanos: int, duration: int)
    ensures duration % NanosPerSecond == 0 ==>
              TokenClaims(user, app, nowNanos, duration).exp == UnixSeconds(nowNanos) + duration / NanosPerSecond
    ensures duration >= 0 ==> TokenClaims(user, app, nowNanos, duration).exp >= UnixSeconds(nowNanos)
  {
    var q := duration / NanosPerSecond;
    var s := UnixSeconds(nowNanos);
    if duration % NanosPerSecond == 0 {
      assert duration == q * NanosPerSecond;
      assert (s + q) * NanosPerSecond <= nowNanos + duration < (s + q + 1) * NanosPerSecond;
      UnixSecondsUnique(nowNanos + duration, s + q);
    }
  }

  /** UnixSeconds is the only second whose span holds the instant. */
  lemma UnixSecondsUnique(nanos: int, s: int)
    requires s * NanosPerSecond <= nanos < (s + 1) * NanosPerSecond
    ensures UnixSeconds(nanos) == s
  {
  }
}
