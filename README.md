# Bookly authentication, authorisation and stores, modelled in Dafny

Bookly is a book-catalogue web service. Users sign up, log in and get a pair of
signed session tokens: a 30-minute access token and a two-day refresh token.
Both are JSON Web Tokens (RFC 7519) signed HS256 (section 3.2 of RFC 7518)
under one fixed key. Users then manage books through handlers that each accept
only an unexpired, unrevoked access token, sent as a bearer token (section 2.1
of RFC 6750). Logout puts the token's `jti` (section 4.1.7 of RFC 7519) on a
blocklist, where it stays for one hour.

This project models that pipeline:

- issuing and decoding tokens;
- the blocklist;
- the bearer guard, which checks, in order: decode, revocation, token type;
- resolving the current user, and the role gate;
- the auth handlers: signup, login, refresh, logout, e-mail verification, password reset, `/me`;
- the book and review stores with their handlers.

Everything runs against an integer clock (`now`, in seconds). The project proves
what each step decides.

Modules follow the source files:

| module | source |
|---|---|
| `Common` | shared `Option`, `Result`, `Failure` and status codes |
| `AuthUtils` | `src/auth/utils.py` |
| `Redis` | `src/db/redis.py` |
| `AuthServices` | `src/auth/services.py`, with the `User` row of `src/db/models.py` |
| `AuthDependencies` | `src/auth/dependencies.py` |
| `AuthRoutes` | `src/auth/routes.py` |
| `Books` | `src/books/service.py` |
| `BookRoutes` | `src/books/routes.py` |
| `Reviews` | `src/reviews/services.py` |

Modelling choices:

- **Tokens.** A token is a record with four parts: the payload, the key it was signed with, the algorithm, and whether it parses at all. `WellSigned` means it parses, the key is `"VERY_SECRET_KEY"` and the algorithm is `"HS256"`. No HMAC is computed. The payload's claims `user`, `exp`, `jti` and `refresh` are optional, so the code's missing-key paths exist in the model: a `KeyError` is an `Unhandled` failure, which the framework answers with 500.
- **Expiry.** Decoding treats a token as expired once `exp <= now`. This is the comparison of the JWT library, which is not part of this model.
- **Blocklist.** The blocklist is a class over a map from key to (value, expiry instant). Redis `GET` returns a value only before that instant.
- **Stores.** Users, books and reviews are classes holding a sequence of rows. The methods that change rows have `modifies` clauses. The schema does not make `email` unique, and `get_user_by_email` uses "one or none". So a lookup can find no row, one row, or several; several rows is an unhandled error. Signup keeps e-mail addresses unique (`UniqueEmails`).
- **Inputs.** The clock, every fresh `uuid4` (jti, uid), bcrypt (`PasswordHasher`: two functions), the mail outcome and the address decoded from a confirmation token are all parameters. An insert whose uid is already taken fails, as the primary key makes it fail.

Behaviour worth noting:

- **Revoked tokens.** They answer 403 "Token has been revoked". This is not the same answer as an invalid token.
- **Wrong token type.** It answers 403 with "Please provide an access token" or "Please provide a refresh token".
- **"Token is invalid or expired."** The guard's own answer for a missing or unverifiable token is never sent (`TokenInvalidNeverSent`). A missing header is refused by the framework, and a token that does not decode gets the decoder's own 403.
- **Refresh expiry.** The refresh handler checks `exp < now` itself. At a single clock reading that check cannot fire: the refresh guard has already rejected every token with `exp <= now` (`RefreshExpiryCheckUnreachable`). A stale refresh token therefore gets the decoder's 403 "Token has expired".
- **Login failure.** An unknown user or a wrong password raises the application's `InvalidCredentialsException`. The application registers no handler for its own exception classes; src/errors.py defines a handler factory that nothing calls. So this exception, like `UserNotFoundException`, reaches the framework unhandled and is answered with 500. The model keeps the two as the distinct failures `InvalidCredentials` and `UserNotFound` only to name the exception raised.

Quirks the model keeps:

- `delete_book` returns None on both branches. So deleting an unknown id reports success, and the route's 404 can never happen.
- `add_review` catches its own 404 in its `except Exception` and re-raises 500. Every failure of `add_review` is the same 500.
- A payload with an empty `jti` is never looked up in the blocklist. Logging out with such a token blocks `""` and leaves the token usable (`EmptyJtiNotRevocable`).
- An empty payload passes both type checks.

## Model

| member | source | states |
|---|---|---|
| `AuthUtils.CreateAccessToken` | src/auth/utils.py:21-32 | the issued token is well signed; its payload holds exactly `user` = the argument, `exp` = now + expiry (now + 30 min when the expiry is absent or zero), the fresh `jti` and `refresh` |
| `AuthUtils.DecodeAccessToken` | src/auth/utils.py:35-48 | succeeds exactly for a well-signed, unexpired token and then returns its payload; otherwise 403, "Token has expired" exactly when the signature is good, "Invalid token" exactly when it is not |
| `AuthUtils.DecodeIssuedToken` | src/auth/utils.py:21-38 | decoding an issued token before its `exp` returns the issued payload; from `exp` on, it fails with 403 "Token has expired" |
| `AuthUtils.IssuedTokensDifferByJti` | src/auth/utils.py:24-31 | two issuances with the same arguments give the same token exactly when their jti values are equal |
| `AuthUtils.ForeignTokensInvalid` | src/auth/utils.py:31-47 | a token with another key or algorithm, or one that does not parse, is rejected as "Invalid token" |
| `Redis.Get` | src/db/redis.py:14-16 | a key yields its stored value exactly while its expiry instant lies ahead |
| `Redis.SetEx` | src/db/redis.py:10-11 | after SET with EX, the key reads as the value until now + ttl and as nothing afterwards; every other key reads as before at every time |
| `Redis.Blocked` | src/db/redis.py:14-16 | a jti is blocked exactly when it is stored and its expiry instant lies ahead |
| `Redis.Block` | src/db/redis.py:10-11 | the jti maps to "" expiring an hour from now; every other key keeps its presence and its entry |
| `Redis.Blocklist.AddTokenToBlocklist` | src/db/redis.py:5-11 | the store becomes the old store with `jti` set to "" for 3600 s from now |
| `Redis.Blocklist.IsTokenBlocked` | src/db/redis.py:14-16 | true exactly when a value (any value, "" included) is stored for the jti and has not expired; the store is not modified |
| `Redis.BlockedWithinTtl` | src/db/redis.py:5-16 | after an add at t, GET finds "" and the jti counts as blocked at every time before t + 3600 |
| `Redis.UnblockedAfterTtl` | src/db/redis.py:5-11 | from t + 3600 on, with no re-add, the jti is not blocked |
| `Redis.BlockLeavesOthers` | src/db/redis.py:10-11 | adding one jti leaves the blocked status of every other jti unchanged |
| `Redis.ReAddResetsTtl` | src/db/redis.py:10-11 | a re-add restarts the hour from the later add; adding twice at one time equals adding once |
| `AuthServices.FindByEmail` | src/auth/services.py:10-14 | no row exactly when no user has the address; one row gives the only user with it; several rows exactly when two users share it |
| `AuthServices.UniqueEmailsLookup` | src/auth/services.py:10-14 | with unique addresses the lookup never finds several rows |
| `AuthServices.GetUserByEmail` | src/auth/services.py:10-14 | None exactly when no user has the address; a returned user is stored and has that address; a failure exactly when several rows match |
| `AuthServices.IsUserExist` | src/auth/services.py:16-18 | true exactly when `GetUserByEmail` finds a user, i.e. some stored user has the address; fails exactly when the lookup fails |
| `AuthServices.NewUser` | src/auth/services.py:21-22 | the new row carries the signup fields and the given hash, is not verified, has role "user" and both times `now` |
| `AuthServices.PublicViewHidesSecrets` | src/auth/models.py:13 | what a reply shows of a user is independent of the stored hash and the role |
| `AuthServices.ApplyChange` | src/auth/routes.py:68 | an update sets only the named field (`is_verified` or `hashed_password`); uid, email and role stay |
| `AuthServices.UserService.CreateUser` | src/auth/services.py:20-28 | appends exactly the new user, whose stored hash is `hash(password)`, with `is_verified` false and role "user"; a clashing uid changes nothing |
| `AuthServices.UserService.UpdateUsers` | src/auth/routes.py:68 | replaces the one row with the changed user and leaves every other row alone |
| `AuthServices.CreatedUserRetrievable` | src/auth/services.py:10-28 | a user inserted under an address no one else has is then the one user found by it, and unique addresses stay unique |
| `AuthDependencies.VerifyToken` | src/auth/dependencies.py:53-56 | never answers false: true when the token decodes, otherwise the decoder's own failure |
| `AuthDependencies.VerifyTokenData` | src/auth/dependencies.py:58-77 | an empty payload passes; a missing `refresh` is an unhandled error; otherwise it passes exactly when `refresh` matches the kind, and fails with the kind's own 403 message |
| `AuthDependencies.Authorize` | src/auth/dependencies.py:22-51 | accepts exactly the tokens that are present, decode, are not revoked and pass the type check, and then returns the decoded payload |
| `AuthDependencies.TokenBearer` | src/auth/dependencies.py:22-51 | the step-by-step guard reads the blocklist only for a decoded token with a non-empty jti, and decides exactly as `Authorize` |
| `AuthDependencies.UndecodableRejectedFirst` | src/auth/dependencies.py:25-36 | a missing or undecodable token is rejected the same way for every blocklist: a missing one by the framework, an undecodable one with the decoder's 403 |
| `AuthDependencies.TokenInvalidNeverSent` | src/auth/dependencies.py:28-34 | no token, at any time and with any blocklist, gets the guard's "Token is invalid or expired." answer |
| `AuthDependencies.RevokedRejected` | src/auth/dependencies.py:39-46 | a decoded token whose jti is blocked gets 403 "Token has been revoked" |
| `AuthDependencies.NoJtiSkipsBlocklist` | src/auth/dependencies.py:39-40 | without a jti, or with an empty one, the decision is the same for every blocklist |
| `AuthDependencies.TypeCheckOnlyWhenUnrevoked` | src/auth/dependencies.py:28-49 | a wrong-type rejection happens only to a token that decoded and is not revoked, and whose flag is the other kind |
| `AuthDependencies.GuardChecksType` | src/auth/dependencies.py:62-77 | for a decoded, unrevoked token the access guard accepts exactly `refresh = false` and the refresh guard exactly `refresh = true`; the rest get the guard's message |
| `AuthDependencies.GetCurrentUser` | src/auth/dependencies.py:81-98 | returns a stored user whose address is the token's `user.email`; 404 when that address is None or unknown; exactly that user when one row has the address; an unhandled error when several rows do |
| `AuthDependencies.RoleChecker.Call` | src/auth/dependencies.py:101-111 | true exactly when the role is in `allowed_roles`; otherwise 403 "You do not have permission to perform this action" |
| `AuthRoutes.Signup` | src/auth/routes.py:73-127 | a taken address gives 403 and no change; a free address with a uid already in the table gives the insert's unhandled error and no change; otherwise, with a free uid, exactly one new user is appended and 201 is answered whether or not mail went out, only the message differing, with the new user's public fields (no hash); unique addresses stay unique |
| `AuthRoutes.UserPayload` | src/auth/routes.py:140-144 | the `user` claim carries the user's uid, address and role |
| `AuthRoutes.Login` | src/auth/routes.py:130-162 | unknown address or wrong password gives InvalidCredentials and no token; several rows with the address give the lookup's unhandled error; otherwise "Login successful" with an access token (default expiry, not refresh) and a two-day refresh token, both for uid, email and role |
| `AuthRoutes.GetNewAccessToken` | src/auth/routes.py:165-184 | a missing `user` or `exp` is an unhandled error; 403 exactly when the embedded `exp` is before now; otherwise it succeeds with "Access token refreshed successfully" and a new non-refresh access token for the same `user` claim |
| `AuthRoutes.RefreshRoute` | src/auth/routes.py:165-184 | guard failures pass through; an accepted token carrying `user` and `exp` always gets a new token, which carries the presented token's `user` claim, `refresh = false` and the fresh jti |
| `AuthRoutes.RefreshExpiryCheckUnreachable` | src/auth/routes.py:165-174 | the handler's "Refresh token has expired" answer never occurs, since the guard has already rejected expired tokens |
| `AuthRoutes.StaleRefreshTokenRejected` | src/auth/routes.py:146-148 | a refresh token from login presented two days or more later gets 403 and no access token |
| `AuthRoutes.LoginTokensMatchGuards` | src/auth/routes.py:140-148 | while unexpired and unrevoked, login's access token passes only the access guard and its refresh token only the refresh guard |
| `AuthRoutes.SignupThenLogin` | src/auth/routes.py:84-148 | with a hasher that verifies each password against its own hash, a fresh signup can then log in with its password |
| `AuthRoutes.RevokeToken` | src/auth/routes.py:195-206 | blocks the payload's jti for an hour and answers 200; a missing jti is an unhandled error with no change |
| `AuthRoutes.Logout` | src/auth/routes.py:195-206 | a token the access guard rejects gets the guard's failure and leaves the blocklist unchanged; an accepted one with a jti gets 200 and its jti blocked for an hour; an accepted one without a jti is an unhandled error with no change |
| `AuthRoutes.LogoutRevokesToken` | src/auth/routes.py:195-201 | after logout at t with a non-empty jti, every guard rejects that token at every time before t + 3600 |
| `AuthRoutes.EmptyJtiNotRevocable` | src/auth/routes.py:199-201 | a token with jti "" is still accepted after logging out with it |
| `AuthRoutes.VerifyEmail` | src/auth/routes.py:53-70 | no decoded address gives 400, an unknown one the user-not-found error, both without change; otherwise only that user's `is_verified` becomes true |
| `AuthRoutes.ResetPassword` | src/auth/routes.py:250-271 | the same two errors without change; otherwise only that user's `hashed_password` changes, to `hash(new password)` |
| `AuthRoutes.Me` | src/auth/routes.py:187-192 | guard failures pass through, then `get_current_user`'s failures; a current user outside {admin, user} gets 403 "You do not have permission to perform this action"; otherwise that user's public fields, which belong to a stored admin or user named by the token |
| `AuthRoutes.MeReturnsNamedUser` | src/auth/routes.py:187-192 | with unique addresses, an accepted access token naming a stored admin or user gets exactly that user's public fields |
| `Books.SetAttr` | src/books/service.py:36-37 | `setattr` changes the named field to the value and no other field, uid or time |
| `Books.ApplyUpdates` | src/books/service.py:36-37 | after the items are set in order, each field holds either its old value or the value of an item naming it |
| `Books.UpdateKeepsIdentity` | src/books/service.py:36-37 | an update keeps uid and `created_at` and does not refresh `updated_at` |
| `Books.UpdateLeavesOtherFields` | src/books/service.py:36-37 | a field no item names keeps its value |
| `Books.UpdateLastWriteWins` | src/books/service.py:36-37 | a named field ends with the value of the last item naming it |
| `Books.OrderByCreatedDesc` | src/books/service.py:10-13 | the same books (a permutation), ordered by `created_at` descending |
| `Books.BookIndex` | src/books/service.py:15-20 | the first row with the uid, or none exactly when no row has it |
| `Books.FindBook` | src/books/service.py:15-20 | a stored book with the uid, or None exactly when no book has it |
| `Books.NewBook` | src/books/service.py:23 | the new row carries the body's six fields, the given uid and both times `now` |
| `Books.RemoveAt` | src/books/service.py:50 | the table loses exactly the one row at that position (one fewer row, the same rows otherwise as a multiset) |
| `Books.RemoveAtUnique` | src/books/service.py:46-51 | removing the matching row leaves no row with that uid, and uids stay distinct |
| `Books.BookService.GetAllBooks` | src/books/service.py:9-13 | every stored book, newest first |
| `Books.BookService.GetBook` | src/books/service.py:15-20 | the book whose uid matches, else None |
| `Books.BookService.CreateBook` | src/books/service.py:22-28 | appends and returns exactly the new book; a clashing uid changes nothing |
| `Books.BookService.UpdateBook` | src/books/service.py:30-44 | unknown uid gives None and no change; otherwise the row becomes the book with the update's items set in order, and is returned |
| `Books.BookService.DeleteBook` | src/books/service.py:46-54 | returns None on both branches; removes the matching row, after which no book has that uid |
| `BookRoutes.AccessGuardStopsRefreshAndRevoked` | src/books/routes.py:25-81 | refresh tokens and revoked tokens are rejected by every book endpoint's guard |
| `BookRoutes.GetAllBooks` | src/books/routes.py:18-28 | guard failures pass through; otherwise every book, newest first |
| `BookRoutes.GetBook` | src/books/routes.py:31-45 | guard failures pass through; the matching book, or 404 |
| `BookRoutes.CreateBook` | src/books/routes.py:48-60 | guard failures change nothing; a clashing uid gives the insert's unhandled error and no change; otherwise 201, the success message and the created book, appended to the table |
| `BookRoutes.UpdateBook` | src/books/routes.py:63-74 | guard failures change nothing; the updated book, or 404 "Book not found !" with no change |
| `BookRoutes.DeleteBook` | src/books/routes.py:77-87 | guard failures change nothing; every accepted request gets 204, which carries no body, an unknown id included, and the 404 is never answered; the matching row, and only it, is removed |
| `Reviews.CatchAll` | src/reviews/services.py:14-34 | success passes through; every failure becomes the same 500 |
| `Reviews.ReviewService.AddReview` | src/reviews/services.py:13-34 | a missing book inserts nothing and gives 500, never 404; with the book present, a review uid already taken inserts nothing and gives the same 500; otherwise success appends exactly one review with the given book, user, rating and comment |

## Left out

- bcrypt (`hash_password`, `verify_password`) is the `PasswordHasher` parameter. Its salting is not modelled. Only `SignupThenLogin` assumes that a password verifies against its own hash (`RoundTrips`).
- JWT serialisation and HMAC-SHA256 are not computed; a token records its key, algorithm and parse status. Claims other than the four issued ones (`nbf`, `iat`, `aud`, ...) are not modelled.
- DecodeAccessToken: the third handler, "Token decode error: …" (src/auth/utils.py:49-53), is not modelled. Every library error that decoding with a key can raise is caught by one of the two handlers before it.
- The framework's own bearer-header extraction (`HTTPBearer`) is reduced to "credentials present or absent". An absent header is the `NotAuthenticated` failure; the framework's status and message for it are not modelled.
- The guard's structured 403 details, `{message, resolution}` (src/auth/dependencies.py:29-32, 41-45), are modelled by their `message` string alone.
- RefreshExpiryCheckUnreachable: holds at one clock reading. The program reads the clock twice, once in decoding and once in the handler, and the sub-second gap between those readings is not modelled.
- Signup and Me: a reply shows a user as the fields of `UserModel` (`PublicView`). The JSON encoding of uid and times is not modelled, nor is the `books` list that `/me`'s `UserModelWithBooks` adds.
- The Redis client, the SQL session, `async`/`await` and concurrency are replaced by sequential methods over in-memory stores. Redis's own clock is taken to be the application's clock.
- Sending mail, `/send-mail` and `password_reset_request` (src/auth/routes.py:42-50, 209-247) are not modelled: they are I/O. The signup mail outcome is the `emailSent` parameter.
- `create_email_confirmation_token` and `verify_email_confirmation_token` are not defined in src/auth/utils.py. The decoded address is an input.
- `update_users` is not defined in src/auth/services.py. It is modelled as setting the named field on the one row.
- The `User` class of src/auth/models.py has no `role`. The model uses the `User` row of src/db/models.py, where `role` defaults to "user".
- Timezones, microseconds and floating-point time are not modelled; times are integer seconds.
- CreateAccessToken: `exp = now + expiry` assumes the server's local time is UTC. The code puts a naive local `datetime.now()` into `exp` (src/auth/utils.py:27), and the JWT library encodes it as if it were UTC, so on another timezone the token's real lifetime is shifted by the UTC offset. `DecodeIssuedToken` rests on the same assumption.
- TokenBearer: one `now` serves the whole guard. The program decodes the token twice, in `verify_token` and again just after (src/auth/dependencies.py:28, 36), and each decode reads the clock. A token that expires between the two reads is rejected with 403 "Token has expired" there, but accepted in the model.
- The logging middleware, the exception-handler factory of src/errors.py (unused), the 500 that the framework answers for `InvalidCredentials` and `UserNotFound`, src/reviews/routes.py (its router is never mounted), app setup, configuration and migrations are outside the model.
- Request validation is modelled only as preconditions: `ValidSignup` and well-typed update items. Validation of the create and update replies against `response_model=Book` is not modelled. Neither are the review rating bounds (1..5) or foreign keys.
- `src/books/schemas.py` is not part of this model. An update body is a sequence of items over the six data fields of a book.
- The uniqueness of `uuid4` values is not modelled. Jti and uid values are inputs, and a clashing uid is answered as the database would answer it.
