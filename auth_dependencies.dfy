/** The bearer-token guard, the current-user resolution and the role gate of
    `src/auth/dependencies.py`.

    Bearer tokens travel in the Authorization header (section 2.1 of
    RFC 6750). The guard's two subclasses, which differ only in the token type
    they want, are one guard parameterised by a `TokenKind`. */
module AuthDependencies {
  import opened Common
  import opened AuthUtils
  import opened Redis
  import opened AuthServices

  /** The token type a guard demands: `AccessTokenBearer` or `RefreshTokenBearer`. */
  datatype TokenKind = AccessToken | RefreshToken

  const TOKEN_INVALID: string := "Token is invalid or expired."
  const TOKEN_REVOKED: string := "Token has been revoked"
  const ACCESS_TOKEN_REQUIRED: string := "Please provide an access token"
  const REFRESH_TOKEN_REQUIRED: string := "Please provide a refresh token"
  const USER_NOT_FOUND: string := "User not found"
  const PERMISSION_DENIED: string := "You do not have permission to perform this action"

  /** `verify_token`: decoding either succeeds or raises, so this answers true
      or passes the decoding failure on, and never answers false. */
  function VerifyToken(t: Token, now: int): (r: Result<bool>)
    ensures r != Ok(false)
    ensures r.Ok? <==> DecodeAccessToken(t, now).Ok?
    ensures r.Err? ==> r.failure == DecodeAccessToken(t, now).failure
  {
    match DecodeAccessToken(t, now)
    case Ok(_) => Ok(true)
    case Err(f) => Err(f)
  }

  /** `verify_token_data` of the two subclasses. An empty payload passes both;
      otherwise the `refresh` claim must be present and must match the kind. */
  function VerifyTokenData(kind: TokenKind, p: Payload): (r: Result<()>)
    ensures p.IsEmpty() ==> r.Ok?
    ensures !p.IsEmpty() && p.refresh.None? ==> r.Err? && r.failure.Unhandled?
    ensures !p.IsEmpty() && p.refresh.Some? ==> (r.Ok? <==> p.refresh.value == (kind == RefreshToken))
    ensures r.Err? && p.refresh.Some? ==>
              r.failure == HttpError(HTTP_403_FORBIDDEN, if kind == AccessToken then ACCESS_TOKEN_REQUIRED else REFRESH_TOKEN_REQUIRED)
  {
    if p.IsEmpty() then Ok(())
    else if p.refresh.None? then Err(Unhandled("KeyError: 'refresh'"))
    else
      match kind
      case AccessToken =>
        if p.refresh.value then Err(HttpError(HTTP_403_FORBIDDEN, ACCESS_TOKEN_REQUIRED)) else Ok(())
      case RefreshToken =>
        if !p.refresh.value then Err(HttpError(HTTP_403_FORBIDDEN, REFRESH_TOKEN_REQUIRED)) else Ok(())
  }

  /** The token is present and decodes at time `now`. */
  predicate Decodes(creds: Option<Token>, now: int) {
    creds.Some? && DecodeAccessToken(creds.value, now).Ok?
  }

  /** The token carries a non-empty jti that the blocklist holds at `now`. */
  predicate Revoked(creds: Option<Token>, now: int, entries: map<string, Entry>)
    requires creds.Some?
  {
    Truthy(creds.value.payload.jti) && Blocked(entries, creds.value.payload.jti.value, now)
  }

  /** What `TokenBearer.__call__` decides for the presented credentials at time
      `now` with the blocklist holding `entries`: absent or undecodable, then
      revoked, then wrong type, then accepted with the decoded payload. */
  function Authorize(kind: TokenKind, creds: Option<Token>, now: int, entries: map<string, Entry>): (r: Result<Payload>)
    ensures r.Ok? <==> Decodes(creds, now) && !Revoked(creds, now, entries) && VerifyTokenData(kind, creds.value.payload).Ok?
    ensures r.Ok? ==> r.value == creds.value.payload
  {
    if creds.None? then Err(NotAuthenticated)
    else
      match VerifyToken(creds.value, now)
      case Err(f) => Err(f)
      case Ok(_) =>
        var p := DecodeAccessToken(creds.value, now).value;
        if Truthy(p.jti) && Blocked(entries, p.jti.value, now) then Err(HttpError(HTTP_403_FORBIDDEN, TOKEN_REVOKED))
        else
          match VerifyTokenData(kind, p)
          case Err(f) => Err(f)
          case Ok(_) => Ok(p)
  }

  /** `TokenBearer.__call__`: checks the credentials step by step, reading the
      blocklist only for a decoded token with a non-empty jti. */
  method TokenBearer(kind: TokenKind, creds: Option<Token>, now: int, bl: Blocklist) returns (r: Result<Payload>)
    ensures r == Authorize(kind, creds, now, bl.entries)
  {
    if creds.None? {
      // `HTTPBearer` with `auto_error=True` refuses the request itself
      return Err(NotAuthenticated);
    }
    var token := creds.value;
    // `verify_token` either raises the decoding failure or returns true.
    var verified := VerifyToken(token, now);
    if verified.Err? {
      return Err(verified.failure);
    }
    var tokenData := DecodeAccessToken(token, now).value;
    var jti := tokenData.jti;
    if Truthy(jti) {
      var blocked := bl.IsTokenBlocked(jti.value, now);
      if blocked {
        return Err(HttpError(HTTP_403_FORBIDDEN, TOKEN_REVOKED));
      }
    }
    var typeCheck := VerifyTokenData(kind, tokenData);
    if typeCheck.Err? {
      return Err(typeCheck.failure);
    }
    return Ok(tokenData);
  }

  /** A missing token, or one that does not decode, is rejected before the
      blocklist matters: the decision is the same for every blocklist. A
      missing token is refused by the framework, an undecodable one with the
      decoder's 403. */
  lemma UndecodableRejectedFirst(kind: TokenKind, creds: Option<Token>, now: int, e1: map<string, Entry>, e2: map<string, Entry>)
    requires !Decodes(creds, now)
    ensures Authorize(kind, creds, now, e1) == Authorize(kind, creds, now, e2)
    ensures Authorize(kind, creds, now, e1).Err?
    ensures creds.None? ==> Authorize(kind, creds, now, e1).failure == NotAuthenticated
    ensures var f := Authorize(kind, creds, now, e1).failure;
            creds.Some? ==> f.HttpError? && f.status == HTTP_403_FORBIDDEN
    ensures creds.Some? ==> Authorize(kind, creds, now, e1).failure == DecodeAccessToken(creds.value, now).failure
  {
  }

  /** The guard's "Token is invalid or expired." answer is never sent: an
      absent header is refused by the framework, and `verify_token` either
      holds or raises the decoder's own 403 first. */
  lemma TokenInvalidNeverSent(kind: TokenKind, creds: Option<Token>, now: int, entries: map<string, Entry>)
    ensures Authorize(kind, creds, now, entries) != Err(HttpError(HTTP_403_FORBIDDEN, TOKEN_INVALID))
  {
    if creds.Some? && DecodeAccessToken(creds.value, now).Err? {
      assert Authorize(kind, creds, now, entries).failure == DecodeAccessToken(creds.value, now).failure;
    }
  }

  /** A decoded token whose jti is blocked is rejected as revoked, before its
      type is looked at. */
  lemma RevokedRejected(kind: TokenKind, creds: Option<Token>, now: int, entries: map<string, Entry>)
    requires Decodes(creds, now) && Revoked(creds, now, entries)
    ensures Authorize(kind, creds, now, entries) == Err(HttpError(HTTP_403_FORBIDDEN, TOKEN_REVOKED))
  {
  }

  /** A payload without a jti, or with an empty one, is never looked up: the
      decision is the same for every blocklist. */
  lemma NoJtiSkipsBlocklist(kind: TokenKind, creds: Option<Token>, now: int, e1: map<string, Entry>, e2: map<string, Entry>)
    requires creds.Some? && !Truthy(creds.value.payload.jti)
    ensures Authorize(kind, creds, now, e1) == Authorize(kind, creds, now, e2)
  {
  }

  /** The type check is reached only by tokens that decoded and are not revoked. */
  lemma TypeCheckOnlyWhenUnrevoked(kind: TokenKind, creds: Option<Token>, now: int, entries: map<string, Entry>)
    requires Authorize(kind, creds, now, entries) == Err(HttpError(HTTP_403_FORBIDDEN, ACCESS_TOKEN_REQUIRED))
          || Authorize(kind, creds, now, entries) == Err(HttpError(HTTP_403_FORBIDDEN, REFRESH_TOKEN_REQUIRED))
    ensures Decodes(creds, now) && !Revoked(creds, now, entries)
    ensures creds.value.payload.refresh == Some(kind == AccessToken)
  {
  }

  /** For a decoded, unrevoked token that carries its `refresh` claim, the
      access guard accepts exactly the tokens with `refresh = false` and the
      refresh guard exactly those with `refresh = true`; the other kind is
      rejected with the guard's own message. */
  lemma GuardChecksType(kind: TokenKind, creds: Option<Token>, now: int, entries: map<string, Entry>)
    requires Decodes(creds, now) && !Revoked(creds, now, entries)
    requires creds.value.payload.refresh.Some?
    ensures var r := Authorize(kind, creds, now, entries);
            && (r.Ok? <==> creds.value.payload.refresh.value == (kind == RefreshToken))
            && (r.Err? ==> r.failure == HttpError(HTTP_403_FORBIDDEN, if kind == AccessToken then ACCESS_TOKEN_REQUIRED else REFRESH_TOKEN_REQUIRED))
  {
  }

  /** `get_current_user`: the stored user whose address is the token's
      `user.email`; 404 when that address is None or unknown. */
  function GetCurrentUser(p: Payload, users: seq<User>): (r: Result<User>)
    ensures p.user.None? ==> r.Err? && r.failure.Unhandled?
    ensures p.user.Some? && p.user.value.email.None? ==> r == Err(HttpError(HTTP_404_NOT_FOUND, USER_NOT_FOUND))
    ensures p.user.Some? && p.user.value.email.Some? && (forall i :: 0 <= i < |users| ==> users[i].email != p.user.value.email.value) ==>
              r == Err(HttpError(HTTP_404_NOT_FOUND, USER_NOT_FOUND))
    ensures r.Ok? ==> p.user.Some? && p.user.value.email == Some(r.value.email) && r.value in users
    ensures p.user.Some? && p.user.value.email.Some? && FindByEmail(users, p.user.value.email.value).ManyRows? ==>
              r.Err? && r.failure.Unhandled?
    ensures p.user.Some? && p.user.value.email.Some? && FindByEmail(users, p.user.value.email.value).OneRow? ==>
              r == Ok(users[FindByEmail(users, p.user.value.email.value).index])
    ensures UniqueEmails(users) && p.user.Some? && p.user.value.email.Some? && (exists i :: 0 <= i < |users| && users[i].email == p.user.value.email.value) ==>
              r.Ok?
  {
    if p.user.None? then Err(Unhandled("KeyError: 'user'"))
    else if p.user.value.email.None? then Err(HttpError(HTTP_404_NOT_FOUND, USER_NOT_FOUND))
    else
      match GetUserByEmail(users, p.user.value.email.value)
      case Err(f) => Err(f)
      case Ok(None) => Err(HttpError(HTTP_404_NOT_FOUND, USER_NOT_FOUND))
      case Ok(Some(u)) => Ok(u)
  }

  /** `RoleChecker(allowed_roles)`: the role gate of one endpoint. */
  datatype RoleChecker = RoleChecker(allowedRoles: seq<string>)
  {
    /** `RoleChecker.__call__`: true when the user's role is allowed, 403 otherwise. */
    function Call(currentUser: User): (r: Result<bool>)
      ensures r.Ok? <==> currentUser.role in allowedRoles
      ensures r.Ok? ==> r.value
      ensures r.Err? ==> r.failure == HttpError(HTTP_403_FORBIDDEN, PERMISSION_DENIED)
    {
      if currentUser.role !in allowedRoles then Err(HttpError(HTTP_403_FORBIDDEN, PERMISSION_DENIED))
      else Ok(true)
    }
  }
}
