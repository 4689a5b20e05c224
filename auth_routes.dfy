/** The request handlers of `src/auth/routes.py`.

    Each protected handler runs its guard first (`Depends(...)`); a handler
    that changes state is a method over the user table or the blocklist, one
    that only answers is a function. The hash function, the clock, the fresh
    jti values and uids, the outcome of sending mail and the e-mail address
    recovered from a confirmation token are inputs. */
module AuthRoutes {
  import opened Common
  import opened AuthUtils
  import opened Redis
  import opened AuthServices
  import opened AuthDependencies

  const USER_EXISTS: string := "User with this email already exists"
  const SIGNUP_MAIL_SENT: string := "User created successfully. Please check your email to verify your account."
  const SIGNUP_MAIL_FAILED: string := "User created successfully. Email verification is temporarily unavailable."
  const LOGIN_OK: string := "Login successful"
  const REFRESH_EXPIRED: string := "Refresh token has expired, please login again"
  const REFRESH_OK: string := "Access token refreshed successfully"
  const LOGOUT_OK: string := "Logout successful"
  const CONFIRMATION_INVALID: string := "Invalid or expired token"
  const EMAIL_VERIFIED: string := "Email verified successfully"
  const PASSWORD_RESET: string := "Password has been reset successfully"

  /** Lifetime of the refresh token issued at login (two days). */
  const REFRESH_TOKEN_EXPIRY_SECONDS: int := 2 * 24 * 60 * 60

  /** The roles `/me` admits. */
  const ME_ROLES: RoleChecker := RoleChecker(["admin", "user"])

  datatype SignupReply = SignupReply(status: int, message: string, user: UserModel)
  datatype UserLoginModel = UserLoginModel(email: string, password: string)
  datatype LoginReply = LoginReply(status: int, message: string, accessToken: Token, refreshToken: Token)
  datatype AccessReply = AccessReply(status: int, message: string, accessToken: Token)
  datatype MessageReply = MessageReply(status: int, message: string)

  /** `signup`: 403 when the address is taken; otherwise creates the user and
      answers 201, whether or not the confirmation mail went out
      (`emailSent`), with a message that says which. */
  method Signup(svc: UserService, userData: UserCreateModel, hasher: PasswordHasher, uid: string, now: int, emailSent: bool)
    returns (r: Result<SignupReply>)
    requires ValidSignup(userData)
    modifies svc
    ensures IsUserExist(old(svc.users), userData.email) == Ok(true) ==>
              r == Err(HttpError(HTTP_403_FORBIDDEN, USER_EXISTS)) && svc.users == old(svc.users)
    ensures IsUserExist(old(svc.users), userData.email).Err? ==> r.Err? && svc.users == old(svc.users)
    ensures r.Err? ==> svc.users == old(svc.users)
    ensures r.Ok? ==>
              && IsUserExist(old(svc.users), userData.email) == Ok(false)
              && svc.users == old(svc.users) + [NewUser(userData, hasher.hash(userData.password), uid, now)]
              && r.value.user == PublicView(NewUser(userData, hasher.hash(userData.password), uid, now))
              && r.value.status == HTTP_201_CREATED
              && r.value.message == (if emailSent then SIGNUP_MAIL_SENT else SIGNUP_MAIL_FAILED)
    ensures IsUserExist(old(svc.users), userData.email) == Ok(false) && (forall i :: 0 <= i < |old(svc.users)| ==> old(svc.users)[i].uid != uid) ==>
              r.Ok?
    ensures IsUserExist(old(svc.users), userData.email) == Ok(false) && (exists i :: 0 <= i < |old(svc.users)| && old(svc.users)[i].uid == uid) ==>
              r == Err(Unhandled("IntegrityError"))
    ensures UniqueEmails(old(svc.users)) ==> UniqueEmails(svc.users)
  {
    var exists_ := IsUserExist(svc.users, userData.email);
    if exists_.Err? {
      return Err(exists_.failure);
    }
    if exists_.value {
      return Err(HttpError(HTTP_403_FORBIDDEN, USER_EXISTS));
    }
    ghost var before := svc.users;
    var created := svc.CreateUser(userData, hasher, uid, now);
    if created.Err? {
      return Err(created.failure);
    }
    CreatedUserRetrievable(before, created.value);
    var message := if emailSent then SIGNUP_MAIL_SENT else SIGNUP_MAIL_FAILED;
    r := Ok(SignupReply(HTTP_201_CREATED, message, PublicView(created.value)));
  }

  /** The `user` claim login puts in both tokens. */
  function UserPayload(u: User): (r: UserClaims)
    ensures r.uid == u.uid && r.email == Some(u.email) && r.role == u.role
  {
    UserClaims(u.uid, Some(u.email), u.role)
  }

  /** `login`: with a known address and a password that verifies against the
      stored hash, an access token (default lifetime, `refresh = false`) and a
      refresh token (two days, `refresh = true`) for the same claims; otherwise
      InvalidCredentials and no token. */
  function Login(users: seq<User>, hasher: PasswordHasher, loginData: UserLoginModel, now: int, accessJti: string, refreshJti: string)
    : (r: Result<LoginReply>)
    ensures (forall i :: 0 <= i < |users| ==> users[i].email != loginData.email) ==> r == Err(InvalidCredentials)
    ensures GetUserByEmail(users, loginData.email).Ok? && GetUserByEmail(users, loginData.email).value.Some? ==>
              var u := GetUserByEmail(users, loginData.email).value.value;
              (r.Ok? <==> hasher.verify(loginData.password, u.hashedPassword))
    ensures r.Ok? ==>
              && GetUserByEmail(users, loginData.email).Ok? && GetUserByEmail(users, loginData.email).value.Some?
              && var u := GetUserByEmail(users, loginData.email).value.value;
              && hasher.verify(loginData.password, u.hashedPassword)
              && r.value.status == HTTP_200_OK && r.value.message == LOGIN_OK
              && r.value.accessToken == CreateAccessToken(UserPayload(u), now, None, false, accessJti)
              && r.value.refreshToken == CreateAccessToken(UserPayload(u), now, Some(REFRESH_TOKEN_EXPIRY_SECONDS), true, refreshJti)
    ensures r.Err? && !FindByEmail(users, loginData.email).ManyRows? ==> r == Err(InvalidCredentials)
    ensures FindByEmail(users, loginData.email).ManyRows? ==> r.Err? && r.failure.Unhandled?
  {
    match GetUserByEmail(users, loginData.email)
    case Err(f) => Err(f)
    case Ok(None) => Err(InvalidCredentials)
    case Ok(Some(user)) =>
      if hasher.verify(loginData.password, user.hashedPassword) then
        var userPayload := UserPayload(user);
        var accessToken := CreateAccessToken(userPayload, now, None, false, accessJti);
        var refreshToken := CreateAccessToken(userPayload, now, Some(REFRESH_TOKEN_EXPIRY_SECONDS), true, refreshJti);
        Ok(LoginReply(HTTP_200_OK, LOGIN_OK, accessToken, refreshToken))
      else
        Err(InvalidCredentials)
  }

  /** The body of `get_new_access_token`, given the payload the refresh guard
      accepted: 403 when the embedded `exp` lies before `now`, otherwise a new
      access token for the same `user` claim. */
  function GetNewAccessToken(tokenDetails: Payload, now: int, jti: string): (r: Result<AccessReply>)
    ensures tokenDetails.user.None? || tokenDetails.exp.None? ==> r.Err? && r.failure.Unhandled?
    ensures tokenDetails.user.Some? && tokenDetails.exp.Some? ==>
              (r == Err(HttpError(HTTP_403_FORBIDDEN, REFRESH_EXPIRED)) <==> tokenDetails.exp.value < now)
    ensures tokenDetails.user.Some? && tokenDetails.exp.Some? && now <= tokenDetails.exp.value ==> r.Ok?
    ensures r.Ok? ==>
              && tokenDetails.user.Some? && tokenDetails.exp.Some? && now <= tokenDetails.exp.value
              && r.value.accessToken == CreateAccessToken(tokenDetails.user.value, now, None, false, jti)
              && r.value.status == HTTP_200_OK && r.value.message == REFRESH_OK
  {
    if tokenDetails.user.None? then Err(Unhandled("KeyError: 'user'"))
    else if tokenDetails.exp.None? then Err(Unhandled("KeyError: 'exp'"))
    else if tokenDetails.exp.value < now then Err(HttpError(HTTP_403_FORBIDDEN, REFRESH_EXPIRED))
    else Ok(AccessReply(HTTP_200_OK, REFRESH_OK, CreateAccessToken(tokenDetails.user.value, now, None, false, jti)))
  }

  /** `GET /refresh-token`: the refresh guard, then the handler body. */
  function RefreshRoute(creds: Option<Token>, now: int, entries: map<string, Entry>, jti: string): (r: Result<AccessReply>)
    ensures Authorize(RefreshToken, creds, now, entries).Err? ==> r == Err(Authorize(RefreshToken, creds, now, entries).failure)
    ensures Authorize(RefreshToken, creds, now, entries).Ok? ==> r == GetNewAccessToken(creds.value.payload, now, jti)
    ensures Authorize(RefreshToken, creds, now, entries).Ok? && creds.value.payload.user.Some? && creds.value.payload.exp.Some? ==>
              r.Ok?
    ensures r.Ok? ==>
              && creds.Some? && creds.value.payload.user.Some?
              && r.value.accessToken.payload.user == creds.value.payload.user
              && r.value.accessToken.payload.refresh == Some(false)
              && r.value.accessToken.payload.jti == Some(jti)
  {
    match Authorize(RefreshToken, creds, now, entries)
    case Err(f) => Err(f)
    case Ok(tokenDetails) => GetNewAccessToken(tokenDetails, now, jti)
  }

  /** The handler's own expiry check never fires once the guard has accepted
      the token at the same instant: decoding already demands `now < exp`. */
  lemma RefreshExpiryCheckUnreachable(creds: Option<Token>, now: int, entries: map<string, Entry>, jti: string)
    ensures RefreshRoute(creds, now, entries, jti) != Err(HttpError(HTTP_403_FORBIDDEN, REFRESH_EXPIRED))
  {
    match Authorize(RefreshToken, creds, now, entries)
    case Err(f) =>
      if creds.Some? && DecodeAccessToken(creds.value, now).Err? {
        assert f == DecodeAccessToken(creds.value, now).failure;
      }
    case Ok(p) =>
      assert !Expired(p, now);
  }

  /** A refresh token issued at login and presented two days or more later is
      rejected with 403 and no access token is issued. */
  lemma StaleRefreshTokenRejected(users: seq<User>, hasher: PasswordHasher, loginData: UserLoginModel, issuedAt: int,
                                  accessJti: string, refreshJti: string, at: int, entries: map<string, Entry>, jti: string)
    requires Login(users, hasher, loginData, issuedAt, accessJti, refreshJti).Ok?
    requires issuedAt + REFRESH_TOKEN_EXPIRY_SECONDS <= at
    ensures var refreshToken := Login(users, hasher, loginData, issuedAt, accessJti, refreshJti).value.refreshToken;
            RefreshRoute(Some(refreshToken), at, entries, jti) == Err(HttpError(HTTP_403_FORBIDDEN, "Token has expired"))
  {
  }

  /** The two tokens of a login pass their own guard and fail the other one for
      as long as they are unexpired and unrevoked. */
  lemma LoginTokensMatchGuards(users: seq<User>, hasher: PasswordHasher, loginData: UserLoginModel, issuedAt: int,
                               accessJti: string, refreshJti: string, at: int, entries: map<string, Entry>)
    requires Login(users, hasher, loginData, issuedAt, accessJti, refreshJti).Ok?
    requires !Blocked(entries, accessJti, at) && !Blocked(entries, refreshJti, at)
    ensures var reply := Login(users, hasher, loginData, issuedAt, accessJti, refreshJti).value;
            && (at < issuedAt + DEFAULT_EXPIRY_SECONDS ==>
                  Authorize(AccessToken, Some(reply.accessToken), at, entries) == Ok(reply.accessToken.payload)
                  && Authorize(RefreshToken, Some(reply.accessToken), at, entries) == Err(HttpError(HTTP_403_FORBIDDEN, REFRESH_TOKEN_REQUIRED)))
            && (at < issuedAt + REFRESH_TOKEN_EXPIRY_SECONDS ==>
                  Authorize(RefreshToken, Some(reply.refreshToken), at, entries) == Ok(reply.refreshToken.payload)
                  && Authorize(AccessToken, Some(reply.refreshToken), at, entries) == Err(HttpError(HTTP_403_FORBIDDEN, ACCESS_TOKEN_REQUIRED)))
  {
  }

  /** A user who has just signed up can log in with the password they chose,
      when the hasher verifies every password against its own hash. */
  lemma SignupThenLogin(users: seq<User>, userData: UserCreateModel, hasher: PasswordHasher, uid: string, createdAt: int,
                        now: int, accessJti: string, refreshJti: string)
    requires RoundTrips(hasher)
    requires forall i :: 0 <= i < |users| ==> users[i].email != userData.email
    ensures var after := users + [NewUser(userData, hasher.hash(userData.password), uid, createdAt)];
            Login(after, hasher, UserLoginModel(userData.email, userData.password), now, accessJti, refreshJti).Ok?
  {
    var u := NewUser(userData, hasher.hash(userData.password), uid, createdAt);
    CreatedUserRetrievable(users, u);
    assert hasher.verify(userData.password, hasher.hash(userData.password));
  }

  /** The body of `revoke_token`, given the payload the access guard accepted:
      blocks its jti for an hour from `now`. */
  method RevokeToken(bl: Blocklist, tokenDetails: Payload, now: int) returns (r: Result<MessageReply>)
    modifies bl
    ensures tokenDetails.jti.None? ==> r.Err? && r.failure.Unhandled? && bl.entries == old(bl.entries)
    ensures tokenDetails.jti.Some? ==>
              r == Ok(MessageReply(HTTP_200_OK, LOGOUT_OK)) && bl.entries == Block(old(bl.entries), tokenDetails.jti.value, now)
  {
    if tokenDetails.jti.None? {
      return Err(Unhandled("KeyError: 'jti'"));
    }
    bl.AddTokenToBlocklist(tokenDetails.jti.value, now);
    r := Ok(MessageReply(HTTP_200_OK, LOGOUT_OK));
  }

  /** `POST /logout`: the access guard, then `revoke_token`. A rejected token
      leaves the blocklist as it was. */
  method Logout(bl: Blocklist, creds: Option<Token>, now: int) returns (r: Result<MessageReply>)
    modifies bl
    ensures Authorize(AccessToken, creds, now, old(bl.entries)).Err? ==>
              r == Err(Authorize(AccessToken, creds, now, old(bl.entries)).failure) && bl.entries == old(bl.entries)
    ensures Authorize(AccessToken, creds, now, old(bl.entries)).Ok? && creds.value.payload.jti.None? ==>
              r.Err? && r.failure.Unhandled? && bl.entries == old(bl.entries)
    ensures Authorize(AccessToken, creds, now, old(bl.entries)).Ok? && creds.value.payload.jti.Some? ==>
              r == Ok(MessageReply(HTTP_200_OK, LOGOUT_OK)) && bl.entries == Block(old(bl.entries), creds.value.payload.jti.value, now)
  {
    var tokenDetails := TokenBearer(AccessToken, creds, now, bl);
    if tokenDetails.Err? {
      return Err(tokenDetails.failure);
    }
    r := RevokeToken(bl, tokenDetails.value, now);
  }

  /** After logging out with a token at time `t`, every guard rejects that token
      for the next hour, provided its jti is not empty. */
  lemma {:induction false} LogoutRevokesToken(kind: TokenKind, creds: Option<Token>, t: int, entries: map<string, Entry>, at: int)
    requires Authorize(AccessToken, creds, t, entries).Ok?
    requires Truthy(creds.value.payload.jti)
    requires at < t + JTI_EXPIRATION_SECONDS
    ensures Authorize(kind, creds, at, Block(entries, creds.value.payload.jti.value, t)).Err?
  {
    var after := Block(entries, creds.value.payload.jti.value, t);
    if Decodes(creds, at) {
      BlockedWithinTtl(entries, creds.value.payload.jti.value, t, at);
      RevokedRejected(kind, creds, at, after);
    } else {
      UndecodableRejectedFirst(kind, creds, at, after, after);
    }
  }

  /** A token whose jti is the empty string is never looked up, so logging out
      with it blocks "" and leaves the token accepted. */
  lemma EmptyJtiNotRevocable(creds: Option<Token>, t: int, entries: map<string, Entry>)
    requires Authorize(AccessToken, creds, t, entries).Ok?
    requires creds.value.payload.jti == Some("")
    ensures Authorize(AccessToken, creds, t, Block(entries, "", t)).Ok?
  {
    NoJtiSkipsBlocklist(AccessToken, creds, t, entries, Block(entries, "", t));
  }

  /** `verify_email`: 400 when the confirmation token yields no address, the
      user-not-found error when no user has it, and otherwise sets only that
      user's `is_verified`. */
  method VerifyEmail(svc: UserService, decodedEmail: Option<string>) returns (r: Result<MessageReply>)
    modifies svc
    ensures !Truthy(decodedEmail) ==> r == Err(HttpError(HTTP_400_BAD_REQUEST, CONFIRMATION_INVALID)) && svc.users == old(svc.users)
    ensures Truthy(decodedEmail) && FindByEmail(old(svc.users), decodedEmail.value).NoRow? ==>
              r == Err(UserNotFound) && svc.users == old(svc.users)
    ensures Truthy(decodedEmail) && FindByEmail(old(svc.users), decodedEmail.value).ManyRows? ==>
              r.Err? && r.failure.Unhandled? && svc.users == old(svc.users)
    ensures Truthy(decodedEmail) && FindByEmail(old(svc.users), decodedEmail.value).OneRow? ==>
              var i := FindByEmail(old(svc.users), decodedEmail.value).index;
              r == Ok(MessageReply(HTTP_200_OK, EMAIL_VERIFIED)) && svc.users == old(svc.users)[i := old(svc.users)[i].(isVerified := true)]
  {
    if !Truthy(decodedEmail) {
      return Err(HttpError(HTTP_400_BAD_REQUEST, CONFIRMATION_INVALID));
    }
    var found := FindByEmail(svc.users, decodedEmail.value);
    match found
    case NoRow =>
      return Err(UserNotFound);
    case ManyRows =>
      return Err(Unhandled("MultipleResultsFound"));
    case OneRow(i) =>
      var _ := svc.UpdateUsers(i, SetVerified(true));
      return Ok(MessageReply(HTTP_200_OK, EMAIL_VERIFIED));
  }

  /** `reset_password`: the same two errors as `verify_email`; otherwise sets
      only that user's stored hash, to the hash of the new password. */
  method ResetPassword(svc: UserService, decodedEmail: Option<string>, password: string, hasher: PasswordHasher)
    returns (r: Result<MessageReply>)
    modifies svc
    ensures !Truthy(decodedEmail) ==> r == Err(HttpError(HTTP_400_BAD_REQUEST, CONFIRMATION_INVALID)) && svc.users == old(svc.users)
    ensures Truthy(decodedEmail) && FindByEmail(old(svc.users), decodedEmail.value).NoRow? ==>
              r == Err(UserNotFound) && svc.users == old(svc.users)
    ensures Truthy(decodedEmail) && FindByEmail(old(svc.users), decodedEmail.value).ManyRows? ==>
              r.Err? && r.failure.Unhandled? && svc.users == old(svc.users)
    ensures Truthy(decodedEmail) && FindByEmail(old(svc.users), decodedEmail.value).OneRow? ==>
              var i := FindByEmail(old(svc.users), decodedEmail.value).index;
              r == Ok(MessageReply(HTTP_200_OK, PASSWORD_RESET))
              && svc.users == old(svc.users)[i := old(svc.users)[i].(hashedPassword := hasher.hash(password))]
  {
    if !Truthy(decodedEmail) {
      return Err(HttpError(HTTP_400_BAD_REQUEST, CONFIRMATION_INVALID));
    }
    var found := FindByEmail(svc.users, decodedEmail.value);
    match found
    case NoRow =>
      return Err(UserNotFound);
    case ManyRows =>
      return Err(Unhandled("MultipleResultsFound"));
    case OneRow(i) =>
      var hashedPassword := hasher.hash(password);
      var _ := svc.UpdateUsers(i, SetHashedPassword(hashedPassword));
      return Ok(MessageReply(HTTP_200_OK, PASSWORD_RESET));
  }

  /** `GET /me`: the access guard, then `get_current_user`, then the role gate
      for "admin" and "user"; the user comes back, as `UserModelWithBooks`
      shows it, only when all three pass. */
  function Me(creds: Option<Token>, now: int, entries: map<string, Entry>, users: seq<User>): (r: Result<UserModel>)
    ensures r.Ok? ==> Authorize(AccessToken, creds, now, entries).Ok?
    ensures r.Ok? ==> exists i :: 0 <= i < |users| && users[i].role in ["admin", "user"] && r.value == PublicView(users[i])
    ensures r.Ok? ==> creds.value.payload.user.Some? && creds.value.payload.user.value.email == Some(r.value.email)
    ensures Authorize(AccessToken, creds, now, entries).Err? ==> r == Err(Authorize(AccessToken, creds, now, entries).failure)
    ensures Authorize(AccessToken, creds, now, entries).Ok? ==>
              var current := GetCurrentUser(creds.value.payload, users);
              && (current.Err? ==> r == Err(current.failure))
              && (current.Ok? && current.value.role !in ["admin", "user"] ==> r == Err(HttpError(HTTP_403_FORBIDDEN, PERMISSION_DENIED)))
              && (current.Ok? && current.value.role in ["admin", "user"] ==> r == Ok(PublicView(current.value)))
  {
    match Authorize(AccessToken, creds, now, entries)
    case Err(f) => Err(f)
    case Ok(tokenData) =>
      match GetCurrentUser(tokenData, users)
      case Err(f) => Err(f)
      case Ok(currentUser) =>
        match ME_ROLES.Call(currentUser)
        case Err(f) => Err(f)
        case Ok(_) => Ok(PublicView(currentUser))
  }

  /** With unique addresses, an unrevoked access token naming a stored admin or
      user gets that user back from `/me`. */
  lemma {:induction false} MeReturnsNamedUser(creds: Option<Token>, now: int, entries: map<string, Entry>, users: seq<User>, i: nat)
    requires Authorize(AccessToken, creds, now, entries).Ok?
    requires UniqueEmails(users) && i < |users|
    requires creds.value.payload.user.Some? && creds.value.payload.user.value.email == Some(users[i].email)
    requires users[i].role in ["admin", "user"]
    ensures Me(creds, now, entries, users) == Ok(PublicView(users[i]))
  {
    var current := GetCurrentUser(creds.value.payload, users);
    assert current.Ok?;
  }
}
