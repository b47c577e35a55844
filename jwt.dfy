/** The unlock token: an HS256-signed JWT (RFC 7518 section 3.2) carrying the order, the
    list, the buyer's email, a random `jti` and an `exp` claim (RFC 7519 section 4.1.4).
    Signing and the library's verification are parameters: `sign` stands for `SignJWT(...).sign`
    with the process-wide secret, `jwtVerify` for `jwtVerify(token, secret)` at a given time in
    epoch seconds; neither the encoding nor HMAC-SHA256 is modelled. */
module Jwt {
  import opened Wrappers

  /** Ten minutes, in seconds. */
  const LifetimeSeconds: int := 10 * 60

  datatype JoseHeader = JoseHeader(alg: string)

  const Hs256: JoseHeader := JoseHeader("HS256")

  /** The argument of `issueUnlockJWT`. */
  datatype UnlockRequest = UnlockRequest(orderId: string, listId: string, email: string)

  /** The claims set that is signed: the payload object plus the `iat` that `setIssuedAt` adds. */
  datatype UnlockClaims = UnlockClaims(
    jti: string,
    orderId: string,
    listId: string,
    email: string,
    exp: int,
    iat: int)

  datatype SigningInput = SigningInput(header: JoseHeader, claims: UnlockClaims)

  /** The value `issueUnlockJWT` resolves to. */
  datatype IssuedToken = IssuedToken(token: string, jti: string, exp: int)

  /** What `jwtVerify` does: resolve with the payload, or throw. */
  datatype VerifyOutcome = Verified(payload: UnlockClaims) | Threw(reason: string)

  /** `Math.floor(ms / 1000)`: Dafny's division by a positive divisor rounds down. */
  function EpochSeconds(ms: int): int {
    ms / 1000
  }

  /** `exp` for a token issued at clock reading `nowMs`: whole seconds, ten minutes ahead.
      Persisted as `exp * 1000`, it lies in the half-open window (now + 599 s, now + 600 s]. */
  function ExpiryFor(nowMs: int): (exp: int)
    ensures nowMs + 599000 < exp * 1000 <= nowMs + 600000
  {
    EpochSeconds(nowMs) + LifetimeSeconds
  }

  /** The claims `issueUnlockJWT` signs for `req`, a fresh `jti` and the clock reading `nowMs`. */
  function ClaimsFor(req: UnlockRequest, jti: string, nowMs: int): UnlockClaims {
    UnlockClaims(jti, req.orderId, req.listId, req.email, ExpiryFor(nowMs), EpochSeconds(nowMs))
  }

  /** `issueUnlockJWT`: `jti` is the value of `crypto.randomUUID()`, `nowMs` that of `Date.now()`. */
  function IssueUnlockJWT(req: UnlockRequest, nowMs: int, jti: string, sign: SigningInput -> string): (r: IssuedToken)
    ensures r.jti == jti && r.exp == EpochSeconds(nowMs) + LifetimeSeconds
  {
    var claims := ClaimsFor(req, jti, nowMs);
    IssuedToken(sign(SigningInput(Hs256, claims)), claims.jti, claims.exp)
  }

  /** `verifyUnlockJWT`: the payload, or `None` (`null`) for every way verification can fail. */
  function VerifyUnlockJWT(token: string, nowMs: int, jwtVerify: (string, int) -> VerifyOutcome): (r: Option<UnlockClaims>)
    ensures r.None? <==> jwtVerify(token, EpochSeconds(nowMs)).Threw?
    ensures r.Some? ==> r.value == jwtVerify(token, EpochSeconds(nowMs)).payload
  {
    match jwtVerify(token, EpochSeconds(nowMs))
    case Verified(payload) => Some(payload)
    case Threw(_) => None
  }

  /** The token that is returned is the signature over an HS256 header and claims that carry
      the caller's order, list and email unchanged, and exactly the `jti` and `exp` returned. */
  lemma IssuedTokenEmbedsResult(req: UnlockRequest, nowMs: int, jti: string, sign: SigningInput -> string)
    ensures var r := IssueUnlockJWT(req, nowMs, jti, sign);
      exists c: UnlockClaims ::
        && r.token == sign(SigningInput(Hs256, c))
        && c.jti == r.jti == jti
        && c.exp == r.exp
        && c.orderId == req.orderId && c.listId == req.listId && c.email == req.email
  {
    var c := ClaimsFor(req, jti, nowMs);
    assert IssueUnlockJWT(req, nowMs, jti, sign).token == sign(SigningInput(Hs256, c));
  }

  /** What `jwtVerify` promises for tokens this secret signed with HS256: before `exp` it
      returns the signed claims; from `exp` on it throws. */
  ghost predicate HonestVerifier(sign: SigningInput -> string, jwtVerify: (string, int) -> VerifyOutcome) {
    forall c: UnlockClaims, t: int ::
      jwtVerify(sign(SigningInput(Hs256, c)), t) == if t < c.exp then Verified(c) else Threw("exp")
  }

  /** A token verified less than 599 s after it was issued yields the claims it was issued with. */
  lemma VerifyIssuedBeforeExpiry(req: UnlockRequest, nowMs: int, jti: string, laterMs: int,
                                 sign: SigningInput -> string, jwtVerify: (string, int) -> VerifyOutcome)
    requires HonestVerifier(sign, jwtVerify)
    requires nowMs <= laterMs <= nowMs + 599000
    ensures VerifyUnlockJWT(IssueUnlockJWT(req, nowMs, jti, sign).token, laterMs, jwtVerify)
         == Some(ClaimsFor(req, jti, nowMs))
  {
    var c := ClaimsFor(req, jti, nowMs);
    assert EpochSeconds(laterMs) < c.exp by {
      assert laterMs < (EpochSeconds(nowMs) + 600) * 1000;
    }
    assert jwtVerify(sign(SigningInput(Hs256, c)), EpochSeconds(laterMs)) == Verified(c);
  }

  /** A token presented 600 s or more after it was issued verifies to `None`. */
  lemma VerifyIssuedAfterExpiry(req: UnlockRequest, nowMs: int, jti: string, laterMs: int,
                                sign: SigningInput -> string, jwtVerify: (string, int) -> VerifyOutcome)
    requires HonestVerifier(sign, jwtVerify)
    requires laterMs >= nowMs + 600000
    ensures VerifyUnlockJWT(IssueUnlockJWT(req, nowMs, jti, sign).token, laterMs, jwtVerify) == None
  {
    var c := ClaimsFor(req, jti, nowMs);
    assert EpochSeconds(laterMs) >= c.exp by {
      assert laterMs >= (EpochSeconds(nowMs) + 600) * 1000;
    }
    assert jwtVerify(sign(SigningInput(Hs256, c)), EpochSeconds(laterMs)).Threw?;
  }
}
