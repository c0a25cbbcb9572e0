/**
 * `lib/auth.js`: signing and verifying the admin session token, reading it
 * from the `Authorization` header, and the check protected routes run first.
 * The JSON Web Token library is not part of this model: encoding a set of
 * claims and verifying a token are parameters.
 */
module Auth {
  import opened Common

  /** What the login route signs and returns: never the password hash. */
  datatype Payload = Payload(id: int, email: string, name: string)

  /** The signed claims: the payload plus issue and expiry times, in seconds. */
  datatype Claims = Claims(payload: Payload, issuedAt: int, expiresAt: int)

  /** The outcome of the library's `verify`: the decoded claims, or a thrown error. */
  datatype VerifyOutcome = Verified(claims: Claims) | Throws(reason: string)

  /** `expiresIn: '7d'`. */
  const TokenLifetime := 7 * 24 * 60 * 60

  const BearerPrefix := "Bearer "

  /** `signToken(payload)` at time `now`: the claims it encodes expire seven days later. */
  function SignedClaims(payload: Payload, now: int): (c: Claims)
    ensures c.payload == payload && c.issuedAt == now
    ensures c.expiresAt - c.issuedAt == 604800
  {
    Claims(payload, now, now + TokenLifetime)
  }

  function SignToken(encode: Claims -> string, payload: Payload, now: int): string
  {
    encode(SignedClaims(payload, now))
  }

  /** `verifyToken`: a thrown verification error becomes `null`, so the call never throws. */
  function VerifyToken(verify: string -> VerifyOutcome, token: string): (r: Option<Claims>)
    ensures r.None? <==> verify(token).Throws?
    ensures r.Some? ==> verify(token) == Verified(r.value)
  {
    match verify(token)
    case Verified(c) => Some(c)
    case Throws(_) => None
  }

  /**
   * `getTokenFromRequest`: the rest of the header after `Bearer `, or `null`
   * when the header is missing or starts otherwise (case matters).
   */
  function TokenFromHeader(header: Option<string>): (r: Option<string>)
    ensures r.Some? <==> header.Some? && StartsWith(header.value, BearerPrefix)
    ensures r.Some? ==> header.value == BearerPrefix + r.value
  {
    if Present(header) && StartsWith(header.value, BearerPrefix) then
      assert header.value == header.value[..7] + header.value[7..];
      Some(header.value[7..])
    else None
  }

  /** The header a client builds from a token yields that token back. */
  lemma TokenRoundTrip(t: string)
    ensures TokenFromHeader(Some(BearerPrefix + t)) == Some(t)
  {
    assert StartsWith(BearerPrefix + t, BearerPrefix);
    assert (BearerPrefix + t)[7..] == t;
  }

  /** A lower-case scheme is not recognised. */
  lemma SchemeIsCaseSensitive(t: string)
    ensures TokenFromHeader(Some("bearer " + t)) == None
  {
    assert ("bearer " + t)[0] == 'b';
  }

  datatype AuthResult = Authorized(claims: Claims) | Rejected(message: string)

  const UnauthorizedMessage := "Unauthorized"
  const InvalidTokenMessage := "Invalid token"

  /**
   * `requireAuth`: `Unauthorized` when there is no token (an empty token after
   * `Bearer ` counts as none), `Invalid token` when verification fails, and
   * the decoded claims otherwise.
   */
  function RequireAuth(verify: string -> VerifyOutcome, header: Option<string>): (r: AuthResult)
    ensures r == Rejected(UnauthorizedMessage) <==> !Present(TokenFromHeader(header))
    ensures r == Rejected(InvalidTokenMessage) <==>
      Present(TokenFromHeader(header)) && verify(TokenFromHeader(header).value).Throws?
    ensures r.Authorized? ==> header.Some? && verify(header.value[7..]) == Verified(r.claims)
  {
    var token := TokenFromHeader(header);
    if !Present(token) then Rejected(UnauthorizedMessage)
    else match VerifyToken(verify, token.value)
      case None => Rejected(InvalidTokenMessage)
      case Some(c) => Authorized(c)
  }

  /**
   * A token the login route signed is accepted and yields its payload, as long
   * as the library verifies what it encoded (until expiry) and never encodes
   * to the empty string.
   */
  lemma SignedTokenAccepted(encode: Claims -> string, verify: string -> VerifyOutcome, payload: Payload, now: int)
    requires encode(SignedClaims(payload, now)) != ""
    requires verify(encode(SignedClaims(payload, now))) == Verified(SignedClaims(payload, now))
    ensures RequireAuth(verify, Some(BearerPrefix + SignToken(encode, payload, now))) ==
      Authorized(SignedClaims(payload, now))
  {
    TokenRoundTrip(SignToken(encode, payload, now));
  }
}
