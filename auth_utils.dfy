/** Password hashing and the session-token codec of `src/auth/utils.py`.

    A token is a JSON Web Token (RFC 7519) signed with HMAC-SHA256
    ("HS256", section 3.2 of RFC 7518) under one fixed key. The signature itself
    is not computed: a token records the payload it carries, the key and the
    algorithm it was signed with, and whether its compact serialisation could be
    parsed at all. */
module AuthUtils {
  import opened Common

  /** The one key and the one algorithm used to sign and to verify. */
  const SECRET_KEY: string := "VERY_SECRET_KEY"
  const ALGORITHM: string := "HS256"

  /** Lifetime of a token issued without an expiry (30 minutes). */
  const DEFAULT_EXPIRY_SECONDS: int := 30 * 60

  /** bcrypt, abstracted: `hash` gives the stored hash of a password and
      `verify(plain, hashed)` checks a password against a stored hash. */
  datatype PasswordHasher = PasswordHasher(hash: string -> string, verify: (string, string) -> bool)

  /** A hasher for which a password always verifies against its own hash. */
  ghost predicate RoundTrips(h: PasswordHasher) {
    forall p: string :: h.verify(p, h.hash(p))
  }

  /** The `user` claim: the identity captured when the token was issued. */
  datatype UserClaims = UserClaims(uid: string, email: Option<string>, role: string)

  /** A decoded payload. Each claim may be missing: `exp` (section 4.1.4 of
      RFC 7519) is an absolute time in seconds, `jti` (section 4.1.7) the token's
      unique identifier, `refresh` the access/refresh flag. */
  datatype Payload = Payload(user: Option<UserClaims>, exp: Option<int>, jti: Option<string>, refresh: Option<bool>)
  {
    /** An empty dictionary, which Python treats as false. */
    predicate IsEmpty() {
      user.None? && exp.None? && jti.None? && refresh.None?
    }
  }

  /** A token as presented by a client. */
  datatype Token = Token(payload: Payload, key: string, algorithm: string, wellFormed: bool)

  /** The token parses and its signature checks under the one key and algorithm. */
  predicate WellSigned(t: Token) {
    t.wellFormed && t.key == SECRET_KEY && t.algorithm == ALGORITHM
  }

  /** The `exp` check of the JWT library: a token is expired once the clock has
      reached its `exp`; a payload without `exp` never expires. */
  predicate Expired(p: Payload, now: int) {
    p.exp.Some? && p.exp.value <= now
  }

  /** `create_access_token(user_data, expiry, refresh)`: `now` is the clock,
      `expiry` the optional lifetime in seconds (zero counts as absent, as a zero
      `timedelta` is false) and `jti` the freshly drawn identifier. */
  function CreateAccessToken(userData: UserClaims, now: int, expiry: Option<int>, refresh: bool, jti: string): (t: Token)
    ensures WellSigned(t)
    ensures t.payload.user == Some(userData)
    ensures t.payload.jti == Some(jti)
    ensures t.payload.refresh == Some(refresh)
    ensures expiry.Some? && expiry.value != 0 ==> t.payload.exp == Some(now + expiry.value)
    ensures expiry.None? || expiry.value == 0 ==> t.payload.exp == Some(now + DEFAULT_EXPIRY_SECONDS)
  {
    var lifetime := if expiry.Some? && expiry.value != 0 then expiry.value else DEFAULT_EXPIRY_SECONDS;
    Token(Payload(Some(userData), Some(now + lifetime), Some(jti), Some(refresh)), SECRET_KEY, ALGORITHM, true)
  }

  /** `decode_access_token(token)`: the payload, or a 403 that tells an expired
      token apart from an invalid one. */
  function DecodeAccessToken(t: Token, now: int): (r: Result<Payload>)
    ensures r.Ok? <==> WellSigned(t) && !Expired(t.payload, now)
    ensures r.Ok? ==> r.value == t.payload
    ensures r.Err? ==> r.failure.HttpError? && r.failure.status == HTTP_403_FORBIDDEN
    ensures r.Err? ==> (r.failure.detail == "Token has expired" <==> WellSigned(t))
    ensures r.Err? ==> (r.failure.detail == "Invalid token" <==> !WellSigned(t))
  {
    if !WellSigned(t) then Err(HttpError(HTTP_403_FORBIDDEN, "Invalid token"))
    else if Expired(t.payload, now) then Err(HttpError(HTTP_403_FORBIDDEN, "Token has expired"))
    else Ok(t.payload)
  }

  /** Decoding a freshly issued token gives back exactly the payload built at
      issuance for as long as its `exp` lies ahead, and "Token has expired" from
      then on. */
  lemma DecodeIssuedToken(userData: UserClaims, now: int, expiry: Option<int>, refresh: bool, jti: string, at: int)
    ensures var t := CreateAccessToken(userData, now, expiry, refresh, jti);
            var exp := t.payload.exp.value;
            && (at < exp ==> DecodeAccessToken(t, at) == Ok(Payload(Some(userData), Some(exp), Some(jti), Some(refresh))))
            && (exp <= at ==> DecodeAccessToken(t, at) == Err(HttpError(HTTP_403_FORBIDDEN, "Token has expired")))
  {
  }

  /** Two tokens issued for the same user, at the same time, with the same
      lifetime and flag are the same token exactly when their jti values are the
      same: the fresh jti is what tells them apart. */
  lemma IssuedTokensDifferByJti(userData: UserClaims, now: int, expiry: Option<int>, refresh: bool, j1: string, j2: string)
    ensures CreateAccessToken(userData, now, expiry, refresh, j1) == CreateAccessToken(userData, now, expiry, refresh, j2) <==> j1 == j2
  {
    if CreateAccessToken(userData, now, expiry, refresh, j1) == CreateAccessToken(userData, now, expiry, refresh, j2) {
      assert CreateAccessToken(userData, now, expiry, refresh, j1).payload.jti == Some(j1);
    }
  }

  /** A token signed with any other key or algorithm, or one that does not
      parse, is rejected as invalid whatever it carries. */
  lemma ForeignTokensInvalid(t: Token, now: int)
    requires t.key != SECRET_KEY || t.algorithm != ALGORITHM || !t.wellFormed
    ensures DecodeAccessToken(t, now) == Err(HttpError(HTTP_403_FORBIDDEN, "Invalid token"))
  {
  }
}
