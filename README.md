# Restaurant-MERN: session protocol, bill, validation and models in Dafny

This project models the core of the Restaurant-MERN application and proves
properties of the model.

- **Session protocol, server side.** `routes/auth.ts` handles register, login,
  refresh with token rotation, logout and me over the users collection. The
  older handlers of `controllers/authController.ts` are modelled as well,
  although neither `routes/auth.ts` nor `routes/dishes.ts` mounts them.
  The routes guard `/logout` and `/me` with the token-checking middleware
  of `middleware/auth.ts`. Its `authorize` role guard, which the dish
  routes put in front of the admin operations, is modelled too. Tokens are
  signed and verified by jsonwebtoken.
- **Session protocol, client side.** `contexts/AuthContext.tsx` keeps the
  access token in storage, makes refreshes single-flight, retries a request
  once, and carries sign-in and sign-out to other tabs.
  `utils/apiClient.ts` is the stand-alone fetch helper.
- **The bill page.** `pages/PayBill.tsx` computes the subtotal, 18% tax,
  coupon discount and total, and edits the order and the applied coupon.
- **Middleware.** `middleware/validation.ts` groups Zod issues by dotted
  path. `middleware/errorHandler.ts` provides the final error handler and
  `notFound`.
- **Dishes.** `controllers/dishController.ts` covers pagination, the filter
  and sort, the featured selection and the lookup by id.
- **Shared schemas.** The reservation and coupon Zod schemas.
- **Mongoose models.** Coupon, Reservation and Review: their setters,
  defaults and validators. Each unique index is modelled as an insertion
  that refuses a key already stored.

## How the model is built

- **Imperative code becomes classes.** Server state, the client session, the
  bill page and the collections are classes whose methods change fields:
  `AuthServer`, `LegacyAuthServer`, `AuthSession`, `Browser`, `Bill`,
  `CouponCollection`, `ReservationCollection` and `ReviewCollection`.
- **How a method is specified.** Each method's `ensures` ties the state it
  leaves, and its answer, to a function of the state before. The
  properties are proved as lemmas about that function.
- **Where the stored state lives.** A collection is a sequence of document
  values in insertion order. The users collection is indexed by id.
- **Pure code becomes functions.** Request handling that only computes a
  result is written as functions with named results.
- **Zod** (version 3) is modelled on the parts the schemas use:
  - paths and default messages;
  - the e-mail check;
  - which failures abort an object (a missing value, an unknown enum value)
    and which only mark it dirty, so that an object refinement still runs.
- **Mongoose** semantics as the models rely on them:
  - the trim and case setters of a path commute, so their order does not
    matter (`Text.TrimUpperCommute`, `Text.TrimLowerCommute`);
  - a validator other than `required` is skipped for an unset value;
  - `match` passes the empty string;
  - a required string must be non-empty;
  - a sparse compound index covers a document that has at least one of its
    keys, and a missing key counts as null.
- **Parameters.** Clocks and the results of the database and the network
  are parameters of the functions and methods. Time is in seconds. The
  database results are the list `find` returns, the count, and the answers
  of the refresh and login endpoints.
- **JSON values.** A JSON value that is absent, or present but not of the
  expected type, is `None`.
- **JWT.** A token is the string it is on the wire. Signing renders the
  claims, the issued-at second, the expiry and a signature. The signature
  is modelled by the secret itself, so verification accepts exactly the
  strings signed with the given secret. Because `iat` has one-second
  resolution, two signatures of the same claims in the same second
  coincide. The lemmas make the consequence for rotation explicit.
- **bcrypt** is an oracle over the key bcryptjs hashes. That key is the
  password's UTF-8 bytes and a terminating zero, repeated to fill the 72
  bytes of the Blowfish key. A hash remembers its text, and `compare` holds
  for exactly the texts with the same key. Below 72 bytes and without a NUL
  character, that means exactly the same text. Past 72 bytes, the rest of
  the password is ignored.

Paths in the table are relative to the repository root. The sources are:

- `apps/backend/src/…` for the server;
- `apps/frontend/src/…` for the client;
- `packages/shared/src/schemas/…` for the shared schemas.

## Model

| member | source | states |
|---|---|---|
| Jwt.Verify | apps/backend/src/routes/auth.ts:171-176 | A token verifies exactly when it parses, carries the given secret as its signature, and has not expired. It then yields its claims. |
| Jwt.ParseSerialize | apps/backend/src/models/User.ts:113-124 | Parsing a signed token gives back the claims, signature, iat and exp it was signed with. |
| Jwt.SerializeInjective | apps/backend/src/models/User.ts:113-124 | Distinct token contents give distinct strings. |
| Jwt.SignThenVerify | apps/backend/src/middleware/auth.ts:26 | A token verifies with its own secret, and yields its claims, until it expires. |
| Jwt.SignedTokenExpires | apps/backend/src/middleware/auth.ts:26 | From its expiry second on, a token is refused as expired. |
| Jwt.OtherSecretRefused | apps/backend/src/routes/auth.ts:172 | A token signed under one secret is refused under a different one. |
| Jwt.SignCollides | apps/backend/src/models/User.ts:120-124 | Two signed tokens are equal exactly when their claims, secrets and issuing seconds are equal. |
| TokenList.PushCapped | apps/backend/src/routes/auth.ts:70-72 | `$push` with `$slice: -5`: at most five tokens, the new one last, and the older ones are the most recent of the old list. |
| TokenList.PushCappedEmpty | apps/backend/src/routes/auth.ts:70-72 | The first push onto an empty list gives the one-token list. |
| TokenList.Pull | apps/backend/src/routes/auth.ts:194-196 | `$pull`: the pulled token is gone, every survivor was in the list, and the list never grows. |
| TokenList.PullMultiset | apps/backend/src/routes/auth.ts:194-196 | Pulling removes every copy of the token and keeps every other token as often as it occurred. |
| TokenList.PullConcat | apps/backend/src/routes/auth.ts:224 | Pulling distributes over concatenation, so the survivors keep their order. |
| TokenList.PullAbsent | apps/backend/src/routes/auth.ts:224 | Pulling a token that is not there changes nothing. |
| TokenList.PullIdempotent | apps/backend/src/routes/auth.ts:223-225 | Pulling twice is pulling once, so a repeated logout is harmless. |
| TokenList.RotationRevokes | apps/backend/src/routes/auth.ts:194-201 | Pulling the presented token and then pushing a different one leaves the presented token out of the list. |
| TokenList.RotationToSameTokenKeepsIt | apps/backend/src/routes/auth.ts:194-201 | If the issued token equals the presented one, rotation keeps it in the list. |
| TokenList.RotationKeepsOthers | apps/backend/src/routes/auth.ts:194-201 | Rotation keeps the list within the cap, and a different token survives unless it falls out of the window of five. |
| TokenList.PushAllIsLast | apps/backend/src/routes/auth.ts:123-125 | After any run of capped pushes, the list holds exactly the last five tokens of the old list followed by the pushed ones. |
| TokenList.SliceThenPushIsPushCapped | apps/backend/src/controllers/authController.ts:133-134 | The older `slice(-4)` followed by `push` is the same edit as `$push` with `$slice: -5`. |
| UserModel.NormalizeEmail | apps/backend/src/models/User.ts:23-28 | The stored address is never longer than the input, has no upper-case ASCII letter, and has no white space at either end. |
| UserModel.NormalizeEmailIdempotent | apps/backend/src/models/User.ts:27-28 | Normalising a normalised address changes nothing. |
| UserModel.NewUser | apps/backend/src/models/User.ts:21-69 | A new document has the given id, role customer, is active, and has no sessions. It holds the plain password, the normalised e-mail and the trimmed name, and its timestamps are now. |
| UserModel.NewUserSettled | apps/backend/src/models/User.ts:23-45 | A new document's address and name are fixed points of their setters. |
| UserModel.PreSave | apps/backend/src/models/User.ts:84-94 | The pre-save hook hashes a password that was set and keeps a stored hash. Nothing else changes. The result's password is accepted exactly for the texts with the bcrypt key of the text hashed. |
| UserModel.PreSaveIdempotent | apps/backend/src/models/User.ts:85 | Saving again without setting the password keeps the same hash. |
| UserModel.NewUserPasswordChecks | apps/backend/src/models/User.ts:97-101 | After the first save, `comparePassword` holds exactly for the texts whose bcrypt key equals that of the registered password. For passwords under 72 bytes without NUL, that means exactly the registered text. |
| Utf8.EncodeInjective | apps/backend/src/models/User.ts:89 | Different passwords have different UTF-8 bytes, so the key is lost only by the 72-byte cut. |
| Utf8.NoNulNoZeroByte | apps/backend/src/models/User.ts:89 | Only the NUL character encodes to a zero byte, so the key's terminator marks where a NUL-free password ends. |
| Utf8.AsciiLength | apps/backend/src/models/User.ts:89 | An ASCII password takes one byte per character. |
| UserModel.LongPasswordKey | apps/backend/src/models/User.ts:89 | A password of 72 UTF-8 bytes or more is keyed by its first 72 bytes alone. |
| UserModel.ShortPasswordKey | apps/backend/src/models/User.ts:89 | A shorter password's key starts with all of its bytes followed by a zero. |
| UserModel.ShortPasswordsCompareExactly | apps/backend/src/models/User.ts:97-101 | Below 72 bytes and without NUL, two passwords have the same key exactly when they are the same text. |
| UserModel.LongPasswordPrefixSuffices | apps/backend/src/models/User.ts:97-101 | A candidate that shares a 72-character ASCII head with the stored password is accepted, whatever follows in either. |
| UserModel.ToObject | apps/backend/src/models/User.ts:75-76 | `toObject()` holds password, refreshTokens, `__v`, and `_id` as the user's id. It holds `phone` exactly when that is set. |
| UserModel.ToJson | apps/backend/src/models/User.ts:75-81 | `toJSON` yields exactly the paths of `toObject()` other than password, refreshTokens and `__v`, each unchanged. No password or token-list value remains. |
| UserModel.GenerateAuthTokens | apps/backend/src/models/User.ts:105-128 | Fails, with the secrets-missing error, exactly when either secret is missing. Otherwise the access token decodes to claims {userId, email, role} under JWT_SECRET, expiring after 12h in development and 15m otherwise. The refresh token decodes to {userId} under JWT_REFRESH_SECRET, expiring after seven days. |
| UserModel.AccessAndRefreshDiffer | apps/backend/src/models/User.ts:113-124 | The two tokens of a pair always differ. |
| UserModel.RefreshTokenDependsOnIdAndSecond | apps/backend/src/models/User.ts:120-124 | Two refresh tokens are equal exactly when they were issued to the same user id in the same second. |
| UserModel.FindByEmailFrom | apps/backend/src/routes/auth.ts:56 | `findOne({email})` returns a user at or after the start position with that address. It returns `None` exactly when no such user exists. |
| UserModel.FindByEmail | apps/backend/src/routes/auth.ts:110 | The query is normalised first. The user found has the normalised address, and `None` means no stored address equals it. |
| UserModel.FindById | apps/backend/src/routes/auth.ts:178 | `findById` finds the user at that id, if the id exists. |
| UserModel.SetTokens | apps/backend/src/routes/auth.ts:194-201 | An update of one user's list replaces exactly that list and stamps `updatedAt`. Every other user is unchanged. |
| UserModel.SetTokensValid | apps/backend/src/routes/auth.ts:70-72 | Editing one list within the cap keeps the collection valid: ids are positions, e-mails are unique, and each user has at most five sessions. |
| UserModel.AppendValid | apps/backend/src/routes/auth.ts:64-65 | Saving a new user with a fresh address at the next id keeps the collection valid. |
| AuthMiddleware.BearerTokenOfPrefixed | apps/backend/src/middleware/auth.ts:11 | A header "Bearer t" yields the token t. |
| AuthMiddleware.Authenticate | apps/backend/src/middleware/auth.ts:9-46 | Every refusal is a 401 with one of three messages. "Access token is required" is given exactly when the header yields no token. "Invalid token" is given exactly when JWT_SECRET is missing or the token does not verify. Admission happens exactly when the token verifies and names an existing, active user, who is loaded without password and tokens. The remaining refusal is "Invalid token or user not found". |
| AuthMiddleware.IssuedAccessTokenAdmitted | apps/backend/src/middleware/auth.ts:26-38 | An access token issued to an active user is admitted, as that user, until it expires. |
| AuthMiddleware.ExpiredAccessTokenRefused | apps/backend/src/middleware/auth.ts:39-45 | Once its lifetime has passed, the same token is refused with "Invalid token". |
| AuthMiddleware.DeactivatedUserRefused | apps/backend/src/middleware/auth.ts:29-35 | A valid token of a deactivated user is refused with "Invalid token or user not found". |
| AuthMiddleware.HeaderWithoutPrefixIsToken | apps/backend/src/middleware/auth.ts:11 | A header with no "Bearer " in it is taken as the token itself, and answered as that token with the prefix. |
| AuthMiddleware.RefreshTokenRefusedAsAccess | apps/backend/src/middleware/auth.ts:21-26 | With distinct secrets, a refresh token is not accepted as an access token. |
| AuthMiddleware.RefreshTokenAdmittedWhenSecretsEqual | apps/backend/src/middleware/auth.ts:26-27 | With equal secrets, a refresh token is admitted for its whole seven days, because only `userId` is read. |
| AuthMiddleware.RunAuthenticate | apps/backend/src/middleware/auth.ts:9-46 | On an exchange, either `req.user` is set and `next()` is called once with nothing sent, or the 401 of `Authenticate` is sent and `next()` is not called. |
| AuthMiddleware.Exchange.constructor | apps/backend/src/middleware/auth.ts:9 | A fresh request has no user, no `next()` calls and no response. |
| AuthMiddleware.Authorize | apps/backend/src/middleware/auth.ts:48-68 | 401 without a user, 403 when the role is not listed, otherwise allowed. |
| AuthMiddleware.AdminOnly | apps/backend/src/middleware/auth.ts:58 | `authorize('admin')` lets through exactly the administrators. |
| AuthRoutes.RegisterIssues | apps/backend/src/routes/auth.ts:37-42 | No issues exactly when the e-mail passes Zod's check, the password has at least 6 characters and the name at least 2. There are at most three issues. |
| AuthRoutes.LoginIssues | apps/backend/src/routes/auth.ts:44-47 | No issues exactly when the e-mail passes Zod's check and the password has at least 6 characters. There are at most two issues. |
| AuthRoutes.RefreshVerifySecret | apps/backend/src/routes/auth.ts:166-167 | JWT_REFRESH_SECRET when it is truthy, else JWT_SECRET, else nothing. The result is never empty. |
| AuthRoutes.MeSpec | apps/backend/src/routes/auth.ts:239-258 | 200 exactly when `authenticate` admits. The profile is then the admitted user's id, email, name, phone, role and createdAt. |
| AuthRoutes.RegisterKeepsStore | apps/backend/src/routes/auth.ts:52-101 | Register keeps the collection valid. |
| AuthRoutes.RegisterSavedKeepsStore | apps/backend/src/routes/auth.ts:64-72 | The stage after the save keeps the collection valid. |
| AuthRoutes.RegisterNewKeepsStore | apps/backend/src/routes/auth.ts:64-65 | The stage after the document is built keeps the collection valid. |
| AuthRoutes.LoginKeepsStore | apps/backend/src/routes/auth.ts:106-154 | Login keeps the collection valid. |
| AuthRoutes.LoginGrantedKeepsStore | apps/backend/src/routes/auth.ts:123-125 | The capped push of a granted login keeps the collection valid. |
| AuthRoutes.RefreshKeepsStore | apps/backend/src/routes/auth.ts:159-214 | Refresh keeps the collection valid. |
| AuthRoutes.RefreshVerifiedKeepsStore | apps/backend/src/routes/auth.ts:178-201 | Refresh after verification keeps the collection valid. |
| AuthRoutes.RefreshGrantedKeepsStore | apps/backend/src/routes/auth.ts:194-201 | The two writes of the rotation keep the collection valid. |
| AuthRoutes.LogoutKeepsStore | apps/backend/src/routes/auth.ts:219-234 | Logout keeps the collection valid. |
| AuthRoutes.RegisterAfterSchema | apps/backend/src/routes/auth.ts:54-64 | Once the body passed the schema and the address is free, register proceeds with the document built from the body. |
| AuthRoutes.RegisterNewSavable | apps/backend/src/routes/auth.ts:65 | A document that passes the validators goes on to be saved, with the password hashed. |
| AuthRoutes.AuthServer.constructor | apps/backend/src/routes/auth.ts:9 | A new server has an empty, valid collection and the given environment. |
| AuthRoutes.AuthServer.Register | apps/backend/src/routes/auth.ts:52-101 | The reply and the new collection are those of the register function, and the collection stays valid. |
| AuthRoutes.AuthServer.Login | apps/backend/src/routes/auth.ts:106-154 | The reply and the new collection are those of the login function, and the collection stays valid. |
| AuthRoutes.AuthServer.Refresh | apps/backend/src/routes/auth.ts:159-214 | The reply and the new collection are those of the refresh function, with the pull and the push as two writes. The collection stays valid. |
| AuthRoutes.AuthServer.Logout | apps/backend/src/routes/auth.ts:219-234 | The reply and the new collection are those of the logout function, and the collection stays valid. |
| AuthRoutes.AuthServer.Me | apps/backend/src/routes/auth.ts:239-258 | Writes nothing, and answers as `MeSpec`. |
| AuthProperties.RegisterExistingEmailRefused | apps/backend/src/routes/auth.ts:56-62 | A taken address is refused with 400 "User already exists with this email", and nothing is written. |
| AuthProperties.RegisterAccepted | apps/backend/src/routes/auth.ts:54-65 | A 201 implies the body passed the schema and the address was not taken. |
| AuthProperties.RegisterNewAccepted | apps/backend/src/routes/auth.ts:64-65 | A 201 implies the document passed the model's validators. |
| AuthProperties.RegisterSavedSuccess | apps/backend/src/routes/auth.ts:67-88 | After the save, a 201 has both secrets set. It consists of the session reply and the stored user holding exactly the cookie's refresh token. |
| AuthProperties.RegisterSuccess | apps/backend/src/routes/auth.ts:52-88 | A successful registration appends exactly one user: the hashed document built from the body, holding only the refresh token set in the cookie. The body carries id, email, name, role and the access token. |
| AuthProperties.RegisteredUser | apps/backend/src/routes/auth.ts:64-67 | The registered user is an active customer with the normalised address. The password checks against exactly the texts with the bcrypt key of the one given, which below 72 bytes and without NUL means exactly that text. The two tokens differ. |
| AuthProperties.RegisterSavedWithoutSecrets | apps/backend/src/routes/auth.ts:65-67 | Without both secrets, the stage after the save answers 500 with the user stored. |
| AuthProperties.RegisterWithoutSecretsKeepsUser | apps/backend/src/routes/auth.ts:64-99 | Without both secrets, a document that passed the validators is stored without a session, and the reply is 500. |
| AuthProperties.ZodAcceptedModelRefused | apps/backend/src/routes/auth.ts:54-65 | An address that Zod accepts but the model's pattern refuses passes validation, ends in a 500, and stores nothing. |
| AuthProperties.PlusAddressNormal | apps/backend/src/models/User.ts:23-28 | "a+b@example.com" is its own normal form under the lower-case and trim setters. |
| AuthProperties.PlusAddressBodyValid | apps/backend/src/routes/auth.ts:37-42 | A register body with "a+b@example.com", a 6-character password and a 2-character name has no schema issue. |
| AuthProperties.PlusAddressRegistrationFails | apps/backend/src/models/User.ts:29-32 | "a+b@example.com" is such an address. |
| AuthProperties.LoginRefusalsIdentical | apps/backend/src/routes/auth.ts:110-118 | For a body that passes the schema, the reply is 401 "Invalid credentials" with nothing written exactly when the address is unknown, the user is inactive, or the password is wrong. |
| AuthProperties.LoginAccepted | apps/backend/src/routes/auth.ts:106-120 | A 200 implies the schema passed, the user is known and active, the password is right, and both secrets are set. |
| AuthProperties.LoginGrantedStoresToken | apps/backend/src/routes/auth.ts:120-141 | A granted login gives the found user the capped push of the cookie token, and no other user changes. |
| AuthProperties.LoginStoresToken | apps/backend/src/routes/auth.ts:106-141 | A successful login stores the token it sets in the cookie, and that token is not the access token. |
| AuthProperties.RefreshVerifiedFailure | apps/backend/src/routes/auth.ts:178-187 | After verification, a refresh that does not succeed is a 401 and writes nothing. |
| AuthProperties.RefreshFailureWritesNothing | apps/backend/src/routes/auth.ts:159-187 | A refresh that does not succeed is a 401 and writes nothing. Without a cookie the message is "Refresh token required". |
| AuthProperties.RefreshAccepted | apps/backend/src/routes/auth.ts:161-176 | A 200 implies the cookie verified under JWT_REFRESH_SECRET, or else JWT_SECRET. |
| AuthProperties.RefreshVerifiedAccepted | apps/backend/src/routes/auth.ts:178-190 | A 200 implies an active user whose list holds the token, and a new pair was issued. |
| AuthProperties.RefreshNeedsStoredToken | apps/backend/src/routes/auth.ts:178-187 | A refresh succeeds only for a well-formed token that is in the list of the active user it names. |
| AuthProperties.RefreshGrantedRotates | apps/backend/src/routes/auth.ts:194-208 | Every copy of the presented token is pulled, then the new one is pushed under the cap. The new one is the cookie token, and no other user changes. |
| AuthProperties.RefreshRotates | apps/backend/src/routes/auth.ts:159-208 | A successful refresh is exactly that rotation, in the list of the user the token names. |
| AuthProperties.ReplayAfterRotationRefused | apps/backend/src/routes/auth.ts:183-187 | After a rotation to a different token, presenting the old one again is refused with 401. |
| AuthProperties.IssuedRefreshTokenNames | apps/backend/src/models/User.ts:120-124 | A refresh token issued to a user verifies as naming that user. |
| AuthProperties.SameSecondRotationKeepsToken | apps/backend/src/routes/auth.ts:190-201 | When a refresh re-issues the presented token byte for byte, the rotation leaves that token in the user's list. |
| AuthProperties.RotationCollidesIffSameSecond | apps/backend/src/routes/auth.ts:190-201 | Rotation re-issues the presented token exactly when it was issued in the same second. |
| AuthProperties.LogoutRemovesToken | apps/backend/src/routes/auth.ts:219-229 | Logout removes every copy of the cookie token from the caller's list only, and clears the cookie. |
| AuthProperties.LogoutWithoutCookie | apps/backend/src/routes/auth.ts:221-229 | Without a cookie, logout writes nothing and still clears the cookie and reports success. |
| AuthProperties.LoggedOutTokenRefused | apps/backend/src/routes/auth.ts:183-187 | A refresh token the caller logged out is no longer honoured. |
| LegacyAuth.GenerateTokens | apps/backend/src/controllers/authController.ts:26-40 | Fails, with the secrets-missing error, exactly when either secret is missing. |
| LegacyAuth.GenerateTokensParse | apps/backend/src/controllers/authController.ts:36-37 | What the two tokens decode to: the claims, the signing secret, iat and exp. |
| LegacyAuth.FindActiveByEmailFrom | apps/backend/src/controllers/authController.ts:110 | `findOne({email, isActive: true})` returns the first active user with the address, if any. |
| LegacyAuth.FindActiveIsFindThenActive | apps/backend/src/controllers/authController.ts:110 | With unique addresses, the active-user query finds the owner of the address when that owner is active. |
| LegacyAuth.LegacyRegisterKeepsStore | apps/backend/src/controllers/authController.ts:43-103 | Register keeps the collection valid. |
| LegacyAuth.LegacyRegisterCreatedKeepsStore | apps/backend/src/controllers/authController.ts:65-69 | The push and the second save keep the collection valid. |
| LegacyAuth.LegacyRegisterNewKeepsStore | apps/backend/src/controllers/authController.ts:58-62 | `User.create` keeps the collection valid. |
| LegacyAuth.LegacyRegisterAfterSchema | apps/backend/src/controllers/authController.ts:45-58 | A body that parsed, with a free address, goes on to `User.create` with name, email and password. |
| LegacyAuth.LegacyLoginKeepsStore | apps/backend/src/controllers/authController.ts:105-171 | Login keeps the collection valid. |
| LegacyAuth.LegacyLoginFoundKeepsStore | apps/backend/src/controllers/authController.ts:120-135 | Login after the lookup keeps the collection valid. |
| LegacyAuth.LegacyLoginGrantedKeepsStore | apps/backend/src/controllers/authController.ts:133-135 | The `slice(-4)`, push and save of a granted login keep the collection valid. |
| LegacyAuth.LegacyAuthServer.constructor | apps/backend/src/controllers/authController.ts:1-5 | A new server has an empty, valid collection. |
| LegacyAuth.LegacyAuthServer.Register | apps/backend/src/controllers/authController.ts:43-103 | The reply and the new collection are those of the register function, and the collection stays valid. |
| LegacyAuth.LegacyAuthServer.Login | apps/backend/src/controllers/authController.ts:105-171 | The reply and the new collection are those of the login function, and the collection stays valid. |
| LegacyAuth.LegacyAuthServer.Logout | apps/backend/src/controllers/authController.ts:173-200 | Writes nothing, and answers as the logout function. |
| LegacyAuth.LegacyAuthServer.Refresh | apps/backend/src/controllers/authController.ts:202-250 | Writes nothing, and answers as the refresh function. |
| LegacyAuthProperties.LegacyMismatchedPasswordsRefused | apps/backend/src/controllers/authController.ts:18-21 | Passwords that do not match fail the refinement. The catch answers 500, not 400, and nothing is written. |
| LegacyAuthProperties.LegacyRegisterExistingEmailRefused | apps/backend/src/controllers/authController.ts:48-55 | A taken address is refused with 400, and nothing is created. |
| LegacyAuthProperties.LegacyRegisterCreatedSession | apps/backend/src/controllers/authController.ts:65-93 | A created user with both secrets set gets exactly one new session, and the reply is 201. |
| LegacyAuthProperties.LegacyRegisterWithoutSecretsKeepsUser | apps/backend/src/controllers/authController.ts:58-65 | The user is created before the tokens. Without the secrets it stays stored with no session, and the reply is 500. |
| LegacyAuthProperties.LegacyLoginFoundRefusal | apps/backend/src/controllers/authController.ts:120-127 | Once the user is found, the 401 comes from a wrong password and from nothing else. |
| LegacyAuthProperties.LegacyLoginRefusalsIdentical | apps/backend/src/controllers/authController.ts:110-127 | An unknown address, an inactive user and a wrong password get the same 401 reply, and nothing else does. |
| LegacyAuthProperties.LegacyLoginWritesAsRoute | apps/backend/src/controllers/authController.ts:133-135 | When the save goes through, the older login writes the same collection the route's login writes. |
| LegacyAuthProperties.LegacyLoginList | apps/backend/src/controllers/authController.ts:133-134 | After a granted login, the list has at most five tokens: the new one last, and the last four of the old list before it. |
| LegacyAuthProperties.SignedTokenTruthy | apps/backend/src/controllers/authController.ts:36-37 | A signed token is never empty. |
| LegacyAuthProperties.LegacyAccessTokenAdmitted | apps/backend/src/controllers/authController.ts:36 | The older access token is admitted by `authenticate`, as its user, for one hour. |
| LegacyAuthProperties.LegacyRefreshAccepted | apps/backend/src/controllers/authController.ts:202-241 | Refresh answers 200 exactly for a verified token in the list of an active user, with both secrets set. |
| LegacyAuthProperties.LegacyRefreshRefusals | apps/backend/src/controllers/authController.ts:206-229 | Every refusal is a 401: "Refresh token not found" without a cookie, "Invalid refresh token" otherwise. |
| LegacyAuthProperties.LegacyRefreshTokenReusable | apps/backend/src/controllers/authController.ts:231-241 | A stored refresh token of an active user is honoured at any second of its seven days, with that second's access token and the cookie left as it is. Refresh writes nothing, so the token works again. |
| LegacyAuthProperties.LegacyLogoutWithCookieFails | apps/backend/src/controllers/authController.ts:177-199 | With a cookie, logout answers 500 and leaves the cookie set. The user loaded by `authenticate` has no token list. |
| LegacyAuthProperties.LegacyLogoutSucceeds | apps/backend/src/controllers/authController.ts:184-190 | Logout answers 200 and clears the cookie exactly for an admitted request without a cookie. |
| AuthClient.AuthSession.constructor | apps/frontend/src/contexts/AuthContext.tsx:35-43 | A mounted provider has the stored token, no user, is loading, not initialised, and has no refresh pending. |
| AuthClient.AuthSession.BeginRefresh | apps/frontend/src/contexts/AuthContext.tsx:103-113 | The new state is the begin-refresh function of the old one: the pending promise is joined, or one POST is made. |
| AuthClient.AuthSession.SettleRefresh | apps/frontend/src/contexts/AuthContext.tsx:114-128 | The new state and result are those of the settle function. |
| AuthClient.AuthSession.RefreshAccessToken | apps/frontend/src/contexts/AuthContext.tsx:103-131 | New state and result as `await refreshAccessToken()`. |
| AuthClient.AuthSession.FetchWithAuth | apps/frontend/src/contexts/AuthContext.tsx:134-172 | New state and answer as the fetch function, where an answer is a status or a rejection: a first request that rejects makes the call reject, and a retry that rejects is caught like a failed refresh. |
| AuthClient.AuthSession.OnSignedIn | apps/frontend/src/contexts/AuthContext.tsx:216-237 | New state as the `onSuccess` function. |
| AuthClient.AuthSession.Login | apps/frontend/src/contexts/AuthContext.tsx:196-241 | New state and result as the login function. |
| AuthClient.AuthSession.Register | apps/frontend/src/contexts/AuthContext.tsx:244-288 | New state and result as the register function. |
| AuthClient.AuthSession.Logout | apps/frontend/src/contexts/AuthContext.tsx:333-359 | New state as the logout function. |
| AuthClient.AuthSession.OnMessage | apps/frontend/src/contexts/AuthContext.tsx:60-74 | New state as the broadcast handler. |
| AuthClient.AuthSession.OnStorage | apps/frontend/src/contexts/AuthContext.tsx:84-94 | New state as the storage-event handler. |
| AuthClient.AuthSession.InitAuth | apps/frontend/src/contexts/AuthContext.tsx:291-321 | New state as the `initAuth` function. |
| AuthClientProperties.JoinStartsNothing | apps/frontend/src/contexts/AuthContext.tsx:105-108 | Asking for a refresh while one is pending joins it: no request is made and nothing changes. |
| AuthClientProperties.BeginsWhilePending | apps/frontend/src/contexts/AuthContext.tsx:105-108 | However many callers ask while a refresh is pending, none of them starts another request or changes the state. |
| AuthClientProperties.BeginRefreshCalls | apps/frontend/src/contexts/AuthContext.tsx:103-113 | Beginning a refresh adds one POST exactly when none was pending, and leaves one pending. |
| AuthClientProperties.BeginsCallOnce | apps/frontend/src/contexts/AuthContext.tsx:6-7 | However many callers ask before it settles, one refresh request goes out, or none if one was already pending. |
| AuthClientProperties.SettleClearsHandle | apps/frontend/src/contexts/AuthContext.tsx:114-128 | Settling clears the handle on either outcome. Only an ok answer writes the token. |
| AuthClientProperties.FetchWithoutRefresh | apps/frontend/src/contexts/AuthContext.tsx:152-156 | Without a 401, a held token and initialisation, there is one request and its answer, or its rejection, is returned unchanged. |
| AuthClientProperties.FetchRefreshFailed | apps/frontend/src/contexts/AuthContext.tsx:162-168 | A failed refresh clears token and user, leaves no refresh pending, and returns the first 401. |
| AuthClientProperties.FetchRefreshSucceeded | apps/frontend/src/contexts/AuthContext.tsx:158-161 | A successful refresh stores the new token, and the retry carries it and gives the answer. |
| AuthClientProperties.FetchRetryRejectedClears | apps/frontend/src/contexts/AuthContext.tsx:157-168 | When the retry after a successful refresh rejects, the `catch` removes the token just stored, clears the user and returns the first 401. The retry was sent with the new token. |
| AuthClientProperties.FetchRejectsIffFirstRejects | apps/frontend/src/contexts/AuthContext.tsx:152-171 | The call rejects exactly when the first request rejects. A rejected retry never escapes. |
| AuthClientProperties.FetchRequestsBounded | apps/frontend/src/contexts/AuthContext.tsx:155-171 | At most two API requests and one refresh request. The second API request happens exactly when the refresh succeeded. The refresh request happens exactly when it was needed and none was pending. |
| AuthClientProperties.LoginSignsIn | apps/frontend/src/contexts/AuthContext.tsx:216-231 | A successful login stores the token, sets the user, initialises, broadcasts AUTH_LOGIN with the same token and user, and goes to /dashboard. |
| AuthClientProperties.RegisterSignsIn | apps/frontend/src/contexts/AuthContext.tsx:264-278 | The same for a successful registration. |
| AuthClientProperties.LoginRefusedKeepsSession | apps/frontend/src/contexts/AuthContext.tsx:206-210 | A refused login changes nothing but the record of the request. It throws the server's message, or "Login failed". |
| AuthClientProperties.LogoutClears | apps/frontend/src/contexts/AuthContext.tsx:336-357 | Logout clears token, user and initialisation. It broadcasts AUTH_LOGOUT, sends one logout POST and goes to /. Without a stored token the POST carries "Bearer undefined". |
| AuthClientProperties.LoginReachesOtherTab | apps/frontend/src/contexts/AuthContext.tsx:63-66 | A tab that receives another tab's AUTH_LOGIN ends with that tab's token and user. |
| AuthClientProperties.LogoutReachesOtherTab | apps/frontend/src/contexts/AuthContext.tsx:67-72 | A tab that receives AUTH_LOGOUT is signed out the same way. |
| AuthClientProperties.StorageEventClearsUser | apps/frontend/src/contexts/AuthContext.tsx:84-94 | Another tab removing the token drops the user here. A change to any other key changes nothing. |
| AuthClientProperties.InitAuthOutcome | apps/frontend/src/contexts/AuthContext.tsx:291-321 | `initAuth` always ends loading. It leaves the session initialised exactly when it already was, a token was stored, or a refresh answered ok with a non-empty token. With a stored token it sends nothing. |
| ApiClient.BearerOrEmpty | apps/frontend/src/utils/apiClient.ts:17 | "Bearer t" for a truthy token, and the empty header otherwise. |
| ApiClient.Browser.constructor | apps/frontend/src/utils/apiClient.ts:10 | A browser over the given stored token, with no requests made. |
| ApiClient.Browser.FetchWithAuth | apps/frontend/src/utils/apiClient.ts:6-44 | New storage, requests and answer as the fetch function, where an answer is a status or a rejection that propagates. |
| ApiClient.NotUnauthorizedPassesThrough | apps/frontend/src/utils/apiClient.ts:24-26 | Any answer but 401, a rejection included, is returned unchanged after one request, with no refresh and no change to storage. |
| ApiClient.UnauthorizedRefreshesOnce | apps/frontend/src/utils/apiClient.ts:26-31 | On a 401 there is exactly one refresh call, sent right after the first request, whether or not a token was stored. |
| ApiClient.RefreshSuccessRetries | apps/frontend/src/utils/apiClient.ts:33-37 | A successful refresh stores the new token. The third request is the retry, sent with that token, and its answer is returned. A rejected retry rejects the call with the new token left stored. |
| ApiClient.RefreshFailureClears | apps/frontend/src/utils/apiClient.ts:38-40 | A failed refresh removes the stored token and returns the first 401, after two requests. |
| ApiClient.FirstRequestHeader | apps/frontend/src/utils/apiClient.ts:12-24 | The first request carries "Bearer t" for a stored token t, and the empty header otherwise. |
| ApiClient.FetchRejectsIff | apps/frontend/src/utils/apiClient.ts:24-37 | The call rejects exactly when the first request rejects, or when the retry after a successful refresh rejects. |
| ApiClient.ClientsDifferWithoutToken | apps/frontend/src/utils/apiClient.ts:26 | On a 401 without a token, this client refreshes and the context's `fetchWithAuth` does not. |
| ApiClient.ClientsDifferOnRejectedRetry | apps/frontend/src/utils/apiClient.ts:33-37 | On a rejected retry after a successful refresh, the context answers the first 401 with the token removed, while this client rejects with the new token stored. |
| PayBill.RoundHundredths | apps/frontend/src/pages/PayBill.tsx:58 | `Math.round(n/100)`: the integer nearest to n/100, with halves going up. |
| PayBill.Tax | apps/frontend/src/pages/PayBill.tsx:46 | The tax is 18% of the subtotal, rounded to the nearest integer with halves going up. |
| PayBill.SetQuantity | apps/frontend/src/pages/PayBill.tsx:91-95 | The same items in the same order. Those carrying the id get the new quantity, and the others are unchanged. |
| PayBill.Bill.constructor | apps/frontend/src/pages/PayBill.tsx:26-33 | The four initial items, no coupon, and the invariant that an applied coupon was quoted on the current subtotal. |
| PayBill.Bill.UpdateQuantity | apps/frontend/src/pages/PayBill.tsx:87-102 | The order is edited as `updateQuantity` does: a 0 removes the items with the id, any other quantity is set on them. Any applied coupon is dropped. |
| PayBill.Bill.RemoveCoupon | apps/frontend/src/pages/PayBill.tsx:82-85 | The coupon is dropped and the order is unchanged. |
| PayBill.Bill.TotalOnQuotedSubtotal | apps/frontend/src/pages/PayBill.tsx:45-48 | While the invariant holds, the total takes the applied coupon's discount on the very subtotal posted for it, and is subtotal plus tax without a coupon. |
| PayBill.Bill.ApplyCoupon | apps/frontend/src/pages/PayBill.tsx:64-80 | A code shorter than 3 posts nothing and changes nothing. Otherwise it posts the code and the current subtotal, and an accepted answer becomes the applied coupon. The order never changes, and an applied coupon was quoted on the current subtotal. |
| PayBillProperties.SubtotalNonNegative | apps/frontend/src/pages/PayBill.tsx:45 | An order of non-negative prices and quantities has a non-negative subtotal. |
| PayBillProperties.InitialBill | apps/frontend/src/pages/PayBill.tsx:26-48 | The opening order: 1380 subtotal, 248 tax, 1628 total. |
| PayBillProperties.RemoveItemsMembers | apps/frontend/src/pages/PayBill.tsx:89 | Removal keeps exactly the items with another id. |
| PayBillProperties.SubtotalAfterRemove | apps/frontend/src/pages/PayBill.tsx:88-89 | Removal takes off exactly the line totals of the removed items. |
| PayBillProperties.SubtotalAfterSetQuantity | apps/frontend/src/pages/PayBill.tsx:91-95 | The new subtotal is the subtotal of the other items plus the new quantity times the prices of the items with the id. |
| PayBillProperties.SetQuantityIdempotent | apps/frontend/src/pages/PayBill.tsx:91-95 | Setting the same quantity twice is setting it once. |
| PayBillProperties.UpdatedItemsNoZero | apps/frontend/src/pages/PayBill.tsx:87-96 | After an update, every item with the id carries the new quantity, and that quantity is not 0, because a 0 removes them. |
| PayBillProperties.NoCouponTotal | apps/frontend/src/pages/PayBill.tsx:47-48 | Without a coupon, the total is subtotal plus tax. |
| PayBillProperties.FixedDiscount | apps/frontend/src/pages/PayBill.tsx:59-61 | A fixed coupon takes off the smaller of its value and the amount. |
| PayBillProperties.PercentageDiscountRounded | apps/frontend/src/pages/PayBill.tsx:53-58 | Below the cap, a percentage coupon takes off value% of the amount, rounded to the nearest rupee. |
| PayBillProperties.PercentageDiscountCapped | apps/frontend/src/pages/PayBill.tsx:55-57 | A percentage coupon with a truthy cap never takes off more than the cap. |
| PayBillProperties.PercentageDiscountWithinAmount | apps/frontend/src/pages/PayBill.tsx:53-58 | A coupon of at most 100% never takes off more than the amount. |
| PayBillProperties.TotalNotBelowTax | apps/frontend/src/pages/PayBill.tsx:45-62 | With a coupon the Coupon model can store, that is a percentage of at most 100, the total is never below the tax. |
| Validation.GroupIssues | apps/backend/src/middleware/validation.ts:11-19 | The `forEach` builds the grouped record, and the keys in the order they were created. |
| Validation.Validate | apps/backend/src/middleware/validation.ts:4-62 | `next()` after a parse, `next(error)` for other errors, and for a ZodError a 400 holding the grouped record and the body's or the query's message. |
| ValidationProperties.GroupedKeys | apps/backend/src/middleware/validation.ts:14-17 | The keys of the record are exactly the joined paths of the issues. |
| ValidationProperties.GroupedMessages | apps/backend/src/middleware/validation.ts:13-19 | Each key holds the messages of exactly its issues, in the order of the issues. |
| ValidationProperties.KeyOrderIsKeys | apps/backend/src/middleware/validation.ts:15-17 | The creation order lists each key once, and no other. |
| ValidationProperties.GroupedCount | apps/backend/src/middleware/validation.ts:13-19 | Every issue contributes exactly one message to the record. |
| ValidationProperties.JoinExample | apps/backend/src/middleware/validation.ts:14 | Paths join with dots, with array indices as decimals. |
| ValidationProperties.DottedKeyMerges | apps/backend/src/middleware/validation.ts:14 | A key containing a dot joins like the nested path it spells, so their messages share one entry. |
| ErrorHandler.HandleError | apps/backend/src/middleware/errorHandler.ts:8-50 | Status and message follow the classification, where the last check wins. The body is `success: false`, the error's `errors`, and the status. |
| ErrorHandler.NotFound | apps/backend/src/middleware/errorHandler.ts:52-58 | 404 with `success: false` and no errors. The message is "Route ", then the URL, then " not found". |
| ErrorHandlerProperties.DefaultClassification | apps/backend/src/middleware/errorHandler.ts:11-12 | An unrecognised error keeps its own status, or 500 when that is absent or 0, and its own message, or the default when absent or empty. |
| ErrorHandlerProperties.RecognisedStatus | apps/backend/src/middleware/errorHandler.ts:16-42 | A recognised error is answered 400 or 401, whatever its own status says. It is 401 exactly for the two JWT errors. |
| ErrorHandlerProperties.DuplicateOverridesValidation | apps/backend/src/middleware/errorHandler.ts:16-25 | A ValidationError with code 11000 is answered as a duplicate. |
| ErrorHandlerProperties.RefusedInsertIsDuplicate | apps/backend/src/middleware/errorHandler.ts:22-25 | A refused unique-index insert reaches the client as 400 "Duplicate field value". |
| ErrorHandlerProperties.JwtErrors | apps/backend/src/middleware/errorHandler.ts:34-42 | JsonWebTokenError is 401 "Invalid token", TokenExpiredError is 401 "Token expired", and CastError is 400 "Invalid ID format". |
| ErrorHandlerProperties.NotFoundNamesUrl | apps/backend/src/middleware/errorHandler.ts:55 | `notFound` names the URL, and different URLs get different messages. |
| DishController.ParseInt | apps/backend/src/controllers/dishController.ts:42-43 | `parseInt` yields an exact integer, the negative zero or NaN. A negative result or the negative zero comes only from a leading minus sign. |
| DishControllerProperties.ParseIntOfDigits | apps/backend/src/controllers/dishController.ts:42-43 | A run of decimal digits without a leading zero is read as its exact value. |
| DishControllerProperties.ParseIntDecimal | apps/backend/src/controllers/dishController.ts:42-43 | `parseInt` reads back the decimal rendering of any non-negative integer, exactly. |
| DishControllerProperties.DefaultPaging | apps/backend/src/controllers/dishController.ts:30-31 | Without page and limit, skip is 0 and limit is 10. |
| DishControllerProperties.SkipRule | apps/backend/src/controllers/dishController.ts:44 | The value of skip is (page-1)*limit for numeric parameters, a zero for limit -0, and NaN when either is NaN. |
| DishControllerProperties.SkipValue | apps/backend/src/controllers/dishController.ts:44 | The same product rule for any two numbers, a finite page being required for the negative-zero case. |
| DishControllerProperties.TotalPagesCeiling | apps/backend/src/controllers/dishController.ts:72 | For a positive limit, totalPages is the least number of pages of that size that hold every dish. |
| DishControllerProperties.HasNextPageIff | apps/backend/src/controllers/dishController.ts:83 | With a positive limit there is a next page exactly when dishes remain after page p. |
| DishControllerProperties.HasPrevPageIff | apps/backend/src/controllers/dishController.ts:84 | There is a previous page exactly when the parsed page is a number above 1. |
| DishControllerProperties.ZeroLimitNeverEnds | apps/backend/src/controllers/dishController.ts:72-83 | With limit=0 and dishes present, totalPages is Infinity and every page claims a next one. |
| DishControllerProperties.ParseIntNegativeZero | apps/backend/src/controllers/dishController.ts:42-43 | A minus sign before any run of zeros is read as the negative zero. |
| DishControllerProperties.NegativeZeroLimitEnds | apps/backend/src/controllers/dishController.ts:43-83 | limit=-0 parses to the negative zero. totalPages is -Infinity with dishes present and NaN without, and no page claims a next one. |
| DishControllerProperties.NaNPageIsolated | apps/backend/src/controllers/dishController.ts:83-84 | A page that is NaN has neither a next nor a previous page. |
| DishControllerProperties.FilterRules | apps/backend/src/controllers/dishController.ts:47-53 | Every dish the filter selects is available. The diet flags are required exactly for the value 'true', and the category exactly when it is truthy. |
| DishControllerProperties.SortRules | apps/backend/src/controllers/dishController.ts:38-39 | Descending unless an order other than 'desc' is given, and by createdAt unless sort is given. |
| DishControllerProperties.ListingReply | apps/backend/src/controllers/dishController.ts:64-87 | The reply carries the database's page and count, the parsed page and the limit asked for. |
| DishController.FilterFeaturable | apps/backend/src/controllers/dishController.ts:214-217 | Only available specials, and none more often than in the input. |
| DishController.InsertByRating | apps/backend/src/controllers/dishController.ts:218 | Inserting into a list sorted by rating keeps it sorted and adds exactly that dish. |
| DishController.SortByRating | apps/backend/src/controllers/dishController.ts:218 | Sorted by averageRating, descending, and a permutation of the input. |
| DishControllerProperties.TiesReversed | apps/backend/src/controllers/dishController.ts:218 | Two dishes of equal rating come out in reverse stored order, one of the orders MongoDB allows for ties. |
| DishControllerProperties.FeaturableCounts | apps/backend/src/controllers/dishController.ts:214-217 | The candidates hold each available special as often as the store does, and nothing else. |
| DishControllerProperties.LeftOutRatedLower | apps/backend/src/controllers/dishController.ts:218-219 | In a sorted permutation, whatever follows the first n is rated no higher than any of them. |
| DishControllerProperties.SortedPrefixTopRated | apps/backend/src/controllers/dishController.ts:218-219 | The first n of a sorted permutation of the candidates are n best-rated candidates. |
| DishControllerProperties.FeaturedSelection | apps/backend/src/controllers/dishController.ts:212-226 | The featured dishes are available specials, sorted best first: six of them, or all if fewer. None left out is rated above one chosen. |
| DishController.FindDish | apps/backend/src/controllers/dishController.ts:102 | `None` exactly when no stored dish has that id. Otherwise a stored dish with that id. |
| DishController.GetAllDishes | apps/backend/src/controllers/dishController.ts:27-95 | A 500 comes exactly from a failed query, with "Failed to retrieve dishes" and the error's message. A 200 carries no error. |
| DishController.GetFeaturedDishes | apps/backend/src/controllers/dishController.ts:213-233 | A 500 comes exactly from a failed query, with the error's message. Otherwise at most six dishes, and no error. |
| DishController.GetDishById | apps/backend/src/controllers/dishController.ts:98-125 | 404 "Dish not found" exactly when the id casts and no stored dish has it. A 200 carries a stored dish with that id. A 500 comes exactly from an id that does not cast, and carries the error's message. |
| CouponSchema.CheckCode | packages/shared/src/schemas/coupon.ts:4 | No issue exactly when the code is present, has 3-20 characters and matches `^[A-Z0-9]+$`. Only a missing code aborts the object. |
| CouponSchema.CheckPositive | packages/shared/src/schemas/coupon.ts:7 | No issue exactly when present and positive. Missing aborts the object. |
| CouponSchema.CheckPositiveOr | packages/shared/src/schemas/coupon.ts:18-19 | No issue exactly when absent or positive. Never aborts. |
| CouponSchema.CheckDate | packages/shared/src/schemas/coupon.ts:10-17 | No issue exactly when present and parsed to a time value. Only a missing date aborts the object. |
| CouponSchema.CheckType | packages/shared/src/schemas/coupon.ts:6 | No issue exactly when 'percentage' or 'fixed'. Anything else aborts the object. |
| CouponSchema.CategoryIssues | packages/shared/src/schemas/coupon.ts:21 | No issue exactly when every element from the given position on is a category of the enum. |
| CouponSchema.CheckCategories | packages/shared/src/schemas/coupon.ts:21 | No issue exactly when absent or every element is a category of the enum. A bad element aborts the object. |
| CouponSchema.CheckDescription | packages/shared/src/schemas/coupon.ts:5 | No issue exactly when present with at least 10 characters. Only a missing description aborts the object. |
| CouponSchema.CheckMinOrder | packages/shared/src/schemas/coupon.ts:8 | No issue exactly when absent or not negative. Never aborts. |
| CouponSchema.KeyChecks | packages/shared/src/schemas/coupon.ts:3-22 | Eleven checks, one per key of the schema. |
| CouponSchema.AllIssues | packages/shared/src/schemas/coupon.ts:3-30 | No issue exactly when every check is clean. |
| CouponSchema.ParseApply | packages/shared/src/schemas/coupon.ts:32-35 | Accepted exactly for a string code and a positive order amount, which the request then carries. |
| CouponSchemaProperties.KeyChecksClean | packages/shared/src/schemas/coupon.ts:3-22 | All key checks are clean exactly when every key obeys its rule. |
| CouponSchemaProperties.CleanNotAborted | packages/shared/src/schemas/coupon.ts:3-22 | Clean keys never abort the object. |
| CouponSchemaProperties.CouponAccepted | packages/shared/src/schemas/coupon.ts:3-30 | The schema accepts a body exactly when every key obeys its rule and the dates are in order. |
| CouponSchemaProperties.ParseOkIff | packages/shared/src/schemas/coupon.ts:23-30 | The parse succeeds exactly when neither the keys nor the refinement report an issue. |
| CouponSchemaProperties.CouponDefaults | packages/shared/src/schemas/coupon.ts:8-22 | An accepted coupon carries the body's values, with 0, 1, 1, true and empty lists for absent keys. |
| CouponSchemaProperties.PercentageUnbounded | packages/shared/src/schemas/coupon.ts:6-7 | The schema puts no upper bound on a percentage: 150% passes. |
| CouponSchemaProperties.DateOrderReported | packages/shared/src/schemas/coupon.ts:23-30 | With the keys valid but the dates out of order, the one issue is the refinement's, on validUntil. |
| CouponSchemaProperties.UnparseableFromReportedTwice | packages/shared/src/schemas/coupon.ts:10-30 | An unparseable validFrom is reported twice: by its own check and by the refinement. |
| CouponSchemaProperties.OnlyValidFromFails | packages/shared/src/schemas/coupon.ts:10-13 | Making validFrom unparseable in a valid input fails only that check, and nothing aborts. |
| CouponSchemaProperties.MissingKeyHidesDateOrder | packages/shared/src/schemas/coupon.ts:23-30 | A missing key aborts the object, so dates out of order go unreported. |
| CouponSchemaProperties.ShortLowerCodeTwoIssues | packages/shared/src/schemas/coupon.ts:4 | A two-letter lower-case code gets both the length issue and the pattern issue. |
| CouponSchemaProperties.ApplyNeedsPositiveAmount | packages/shared/src/schemas/coupon.ts:32-35 | The apply request needs a code and a positive order amount, and nothing else. |
| CouponModel.NormalizeCode | apps/backend/src/models/Coupon.ts:25-26 | The stored code is the trimmed, upper-cased input, and never longer. |
| CouponModel.NewCoupon | apps/backend/src/models/Coupon.ts:20-95 | The code is normalised when given, usedCount defaults to 0 and isActive to true. |
| CouponModel.FailedPaths | apps/backend/src/models/Coupon.ts:20-92 | Empty exactly when every validator passes. |
| CouponModel.CouponCollection.constructor | apps/backend/src/models/Coupon.ts:102 | An empty, valid collection. |
| CouponModel.CouponCollection.Create | apps/backend/src/models/Coupon.ts:24 | New collection and result as the create function: validation, then insertion under the unique code. The collection stays valid. |
| CouponModel.StoredStaySavable | apps/backend/src/models/Coupon.ts:20-92 | Appending a valid coupon keeps every stored coupon valid. |
| CouponModelProperties.DiscountValueRule | apps/backend/src/models/Coupon.ts:40-53 | discountValue fails exactly when it is unset, negative, or a percentage above 100. |
| CouponModelProperties.ValidUntilRule | apps/backend/src/models/Coupon.ts:75-88 | validUntil fails exactly when either date is unset or it is not after validFrom. |
| CouponModelProperties.StoredCodeNormal | apps/backend/src/models/Coupon.ts:25-26 | A stored code has no lower-case ASCII letter and no white space at either end. |
| CouponModelProperties.NormalizeCodeIdempotent | apps/backend/src/models/Coupon.ts:25-26 | Normalising a stored code again changes nothing. |
| CouponModelProperties.SchemaCodeStoredAsSent | apps/backend/src/models/Coupon.ts:25-26 | A code the shared schema accepts is stored as sent. |
| CouponModelProperties.CodeVariantRefused | apps/backend/src/models/Coupon.ts:24-26 | A code already taken, in any letter case or padding, is refused with E11000, and nothing changes. |
| CouponModelProperties.PaddedLowerCaseCollides | apps/backend/src/models/Coupon.ts:24-26 | " save10 " collides with a stored "SAVE10". |
| CouponModelProperties.CreateStores | apps/backend/src/models/Coupon.ts:24 | A created coupon passes the validators, carries the normalised code, and is stored last. The collection keeps one coupon per code. |
| CouponModelProperties.SchemaLooserOnPercentage | apps/backend/src/models/Coupon.ts:44-52 | A percentage above 100 passes the shared schema and is refused here. |
| CouponModelProperties.SpecialCategoryRefused | apps/backend/src/models/Coupon.ts:89-92 | The category 'special', which only the shared schema lists, is refused here. |
| ReservationSchema.Absent | packages/shared/src/schemas/reservation.ts:17 | A missing key is an issue in the full schema and none in the partial one. |
| ReservationSchema.CheckDate | packages/shared/src/schemas/reservation.ts:4-9 | No issue exactly when the date is absent from an update, or is a valid date not before midnight today. |
| ReservationSchema.CheckTime | packages/shared/src/schemas/reservation.ts:10 | No issue exactly when the time is absent from an update, or matches the time pattern. |
| ReservationSchema.CheckGuests | packages/shared/src/schemas/reservation.ts:11 | No issue exactly when in 1-20, or absent from an update. |
| ReservationSchema.CheckOccasion | packages/shared/src/schemas/reservation.ts:12 | No issue exactly when absent or one of the six occasions. |
| ReservationSchema.CheckSpecialRequests | packages/shared/src/schemas/reservation.ts:13 | No issue exactly when absent or at most 500 characters. |
| ReservationSchema.CheckPhone | packages/shared/src/schemas/reservation.ts:14 | No issue exactly when the phone matches `^[6-9]\d{9}$`, or is absent from an update. |
| ReservationSchemaProperties.IssuesEmpty | packages/shared/src/schemas/reservation.ts:3-17 | No issue at all exactly when every key's check is clean. |
| ReservationSchemaProperties.ReservationAccepted | packages/shared/src/schemas/reservation.ts:3-15 | The full schema accepts exactly the valid reservations, and keeps what was sent. |
| ReservationSchemaProperties.UpdateAccepted | packages/shared/src/schemas/reservation.ts:17 | The update schema accepts exactly the bodies whose present keys are valid, and keeps them. |
| ReservationSchemaProperties.FullIsUpdate | packages/shared/src/schemas/reservation.ts:17 | Whatever the full schema accepts, the update schema accepts too. |
| ReservationSchemaProperties.EmptyBodies | packages/shared/src/schemas/reservation.ts:3-17 | An empty update is accepted. An empty reservation gets the four Required issues. |
| ReservationSchemaProperties.DateBoundary | packages/shared/src/schemas/reservation.ts:4-9 | Midnight today is accepted. Any earlier instant, or an invalid date, is refused. |
| ReservationSchemaProperties.TimeRule | packages/shared/src/schemas/reservation.ts:10 | An accepted time is 0-23 in one or two digits, ':', and 00-59. |
| ReservationSchemaProperties.GuestsMessages | packages/shared/src/schemas/reservation.ts:11 | Too few and too many guests get different messages. |
| ReservationSchemaProperties.CountryCodeRefused | packages/shared/src/schemas/reservation.ts:14 | A phone number with a country code is refused. |
| ReservationSchemaProperties.AllKeysReported | packages/shared/src/schemas/reservation.ts:3-15 | Every rule is checked even when another fails, so a body can carry five issues. |
| ReservationModel.NewReservation | apps/backend/src/models/Reservation.ts:54-74 | customerName is trimmed, customerEmail lower-cased, and status is 'pending' unless given. |
| ReservationModel.FailedPaths | apps/backend/src/models/Reservation.ts:19-74 | Empty exactly when every validator passes. |
| ReservationModel.ReservationCollection.constructor | apps/backend/src/models/Reservation.ts:87 | An empty collection, with distinct slot keys. |
| ReservationModel.ReservationCollection.Create | apps/backend/src/models/Reservation.ts:85 | New collection and result as the create function: validation, then insertion under the unique (date, time, tableNumber) index. No two stored reservations share a slot key. |
| ReservationModelProperties.DateRule | apps/backend/src/models/Reservation.ts:24-33 | date fails exactly when it is unset or before the start of today. |
| ReservationModelProperties.GuestsRule | apps/backend/src/models/Reservation.ts:39-44 | guests fails exactly when it is unset or outside 1-20. |
| ReservationModelProperties.TableRule | apps/backend/src/models/Reservation.ts:45-49 | tableNumber fails exactly when it is set outside 1-50. |
| ReservationModelProperties.StatusRule | apps/backend/src/models/Reservation.ts:54-58 | status is 'pending' unless given, and must be one of the four states. |
| ReservationModelProperties.EmailStoredLowerCase | apps/backend/src/models/Reservation.ts:69-74 | The stored e-mail has no upper-case ASCII letter. |
| ReservationModelProperties.FreeSlotBooked | apps/backend/src/models/Reservation.ts:85 | A valid reservation for a free table and slot is stored at the end. |
| ReservationModelProperties.DoubleBookingRefused | apps/backend/src/models/Reservation.ts:84-85 | A second booking of the same table, date and time is refused with E11000, and nothing changes. |
| ReservationModelProperties.UntabledSlotTaken | apps/backend/src/models/Reservation.ts:85 | Two reservations without a table at the same date and time collide. |
| ReservationModelProperties.OtherTableFree | apps/backend/src/models/Reservation.ts:85 | The same slot at another table has a different key. |
| ReservationModelProperties.SchemaPhoneAccepted | apps/backend/src/models/Reservation.ts:64-68 | A phone the shared schema accepts matches the model's pattern. |
| ReservationModelProperties.SchemaTimeAccepted | apps/backend/src/models/Reservation.ts:34-38 | A time the shared schema accepts passes the model's time rule. |
| ReservationModelProperties.SpecialRequestsStricter | apps/backend/src/models/Reservation.ts:50-53 | Special requests of 201 to 500 characters pass the shared schema and fail the model. |
| ReviewModel.NewReview | apps/backend/src/models/Review.ts:45-62 | isApproved is true only when given true. response.respondedAt is now unless given. Both timestamps are now. |
| ReviewModel.FailedPaths | apps/backend/src/models/Review.ts:19-62 | Empty exactly when every validator passes. |
| ReviewModel.ReviewCollection.constructor | apps/backend/src/models/Review.ts:76 | An empty, valid collection. |
| ReviewModel.ReviewCollection.Create | apps/backend/src/models/Review.ts:74 | New collection and result as the create function: validation, then insertion under the unique (userId, dishId) index. The collection stays valid. |
| ReviewModel.StoredStaySavable | apps/backend/src/models/Review.ts:19-62 | Appending a valid review keeps every stored review valid. |
| ReviewModelProperties.RatingRule | apps/backend/src/models/Review.ts:33-38 | rating fails exactly when it is unset or outside 1-5. |
| ReviewModelProperties.CommentRule | apps/backend/src/models/Review.ts:39-44 | comment fails exactly when it is unset or not 10 to 500 characters long. |
| ReviewModelProperties.ResponseRule | apps/backend/src/models/Review.ts:49-53 | A response of more than 300 characters is refused. No response at all is fine. |
| ReviewModelProperties.NewReviewDefaults | apps/backend/src/models/Review.ts:25-48 | A review with a user, rating 5 and a 14-character comment, but no dish, no order and no approval flag, is not approved. Without a response it passes every validator. |
| ReviewModelProperties.OneReviewPerDish | apps/backend/src/models/Review.ts:73-74 | Under the index, no two stored reviews are by the same user about the same dish. |
| ReviewModelProperties.FirstReviewStored | apps/backend/src/models/Review.ts:74 | A valid review is stored when its author has not reviewed that dish. |
| ReviewModelProperties.SecondReviewRefused | apps/backend/src/models/Review.ts:74 | A second review of the same dish by the same user is refused with E11000, and nothing changes. |
| ReviewModelProperties.SecondUndishedReviewRefused | apps/backend/src/models/Review.ts:74 | A user's reviews without a dish share the null dishId, so after the first every other is refused. |
| ReviewModelProperties.RefusedChangesNothing | apps/backend/src/models/Review.ts:74 | A refused review leaves the collection as it was, and an accepted one is appended. |
| UniqueIndex.Insert | apps/backend/src/models/Review.ts:74 | Refused exactly when the key is taken. Otherwise the document is appended and the keys stay distinct. |
| UniqueIndex.AtMostOne | apps/backend/src/models/Reservation.ts:85 | Under a unique index, two stored documents with the same key are the same document. |
| Patterns.PlusAddressRejected | apps/backend/src/models/User.ts:29-32 | The model's e-mail pattern refuses "a+b@example.com". |
| Patterns.PlusBeforeAtRejected | apps/backend/src/models/User.ts:30 | Any '+' before the '@' is refused by the model's e-mail pattern. |
| Patterns.ParseTime | packages/shared/src/schemas/reservation.ts:10 | A time the pattern accepts reads as an hour below 24 and a minute below 60. |
| Patterns.FormatTimeAccepted | packages/shared/src/schemas/reservation.ts:10 | Every hour 0-23 and minute 0-59 in two-digit form is accepted, and parses back. |
| Patterns.FormatShortTimeAccepted | packages/shared/src/schemas/reservation.ts:10 | Every hour 0-9 in one-digit form is accepted, and parses back. |
| Patterns.TimePatternIsFormatted | packages/shared/src/schemas/reservation.ts:10 | An accepted time is exactly one of those two renderings of what it parses to. |
| Zod.MinString | apps/backend/src/routes/auth.ts:39-40 | No issue exactly when the string is present and long enough. There is at most one issue. |
| Zod.EmailString | apps/backend/src/routes/auth.ts:38 | No issue exactly when present and accepted by Zod's e-mail check. There is at most one issue. |
| Zod.ZodEmailPlusExample | apps/backend/src/routes/auth.ts:38 | Zod accepts "a+b@example.com". |

## Left out

- Floating point. Prices, quantities, coupon values, guests and averageRating are integers. `Math.round` of an exact rational stands in for the rounding of doubles.
- DishController.ParseInt: a digit run is read as an exact, unbounded integer. JavaScript's `parseInt` returns a double. It rounds values above 2^53, so `page=9007199254740993` reads as 9007199254740992, and it overflows to Infinity from about 309 digits on. In the source, that limit gives a NaN skip and 0 pages. The model never yields Infinity from a parse.
- DishControllerProperties.ParseIntOfDigits: exact for every digit run, where JavaScript is exact only up to 2^53.
- DishControllerProperties.ParseIntDecimal: exact for every non-negative integer, where JavaScript is exact only up to 2^53.
- DishController.ParamNumber: a query key given twice, which Express turns into an array, is outside the model's `Option<string>` query values.
- UserModel.BcryptKey: distinct keys are taken to give distinct hashes, as a perfect hash would. A lone UTF-16 surrogate, which bcryptjs encodes on its own, is outside the model's characters.
- PayBill.Tax: computed exactly as 18/100 of the subtotal and rounded. The double `subtotal * 0.18` can differ by one at a half.
- Strings are sequences of characters without UTF-16 details. Case mapping and white space cover ASCII and the JavaScript white-space set.
- A JSON value of an unexpected type is treated as absent. For a required key the model reports "Required", where Zod says, for example, "Expected string, received number". For an optional or defaulted key the model ACCEPTS a body that Zod refuses with a 400 `invalid_type` issue: the mistyped value is dropped, or replaced by the default. The members concerned follow.
- AuthRoutes.RegisterIssues: a non-string `phone` (say `phone: 5`) is taken as no phone, so the model registers with 201 where Zod refuses.
- CouponSchema.CheckPositiveOr: a non-number `maxDiscountAmount`, `usageLimit` or `perUserLimit` (say `usageLimit: "5"`) is taken as absent, and CouponSchema.ParseCoupon gives the default.
- CouponSchema.CheckMinOrder: a non-number `minOrderAmount` is taken as absent, with the default 0.
- CouponSchema.CheckCategories: a non-array `applicableCategories` is taken as absent, with the empty default.
- CouponSchema.ParseCoupon: a non-boolean `isActive` (say `"yes"`) is taken as absent, with the default true. A non-array `excludedDishes` gives the empty default.
- ReservationSchema.CheckOccasion: a non-string `occasion` is taken as absent.
- ReservationSchema.CheckSpecialRequests: a non-string `specialRequests` is taken as absent. On an update, every key of the reservation schema behaves this way.
- A rejected `POST /auth/refresh`, as opposed to a non-ok answer, is not a separate outcome. In `contexts/AuthContext.tsx` it would reach the same `catch` as a non-ok status, with the same effect. In `utils/apiClient.ts` it would propagate without touching the stored token, and the model does not represent that. Failures of `response.json()` are not modelled either.
- Signatures and their secrets are modelled by the secret itself, as a perfect MAC. The header, base64url encoding and algorithms of a real JWT are not modelled.
- Concurrency. Every handler's awaits run in order. Interleavings of concurrent requests and of the two writes of a refresh are not modelled. On the client, a refresh is begun and later settled as two steps.
- Cookie options (httpOnly, secure, sameSite, path) and every `console` call.
- The `__v` version field and the exact timestamps Mongoose tracks. `updatedAt` is the second of the last write.
- `getProfile` of the older controller, and the `error`, `preferences` and `avatar` fields of its replies. `User.ts` declares no such fields.
- The React Query `me` query, the effect that copies its result into `user`, navigation targets beyond the recorded path, and the `isApplyingCoupon` flag.
- Stale React closures. The session's state is read fresh in each handler.
- LegacyAuthProperties.LegacyRegisterWithoutSecretsKeepsUser: stated from the stage after `User.create`, not from the request body.
- LegacyAuth.LegacyAuthServer.Register: the second `save` after the push is taken to pass its validators, because only the password changed, to a 60-character hash.
- The text search (`$text`) of the dish listing. It is passed to the database and not evaluated.
- `createDish`, `updateDish` and `deleteDish` of the dish controller. They are not part of the modelled core.
- What the database makes of a NaN, negative or negative-zero `skip` or `limit`. The query carries those values and the reply reports them as numbers. Their JSON rendering, where -0 prints as 0 and NaN and the infinities as null, is not modelled.
- ObjectId casting is the `castError` parameter of `getDishById`: the message of the CastError when the id does not cast.
- DishController.SortByRating: dishes with equal ratings come out in reverse stored order (DishControllerProperties.TiesReversed). MongoDB leaves that order unspecified, and the featured lemmas hold for any order of ties.
- The coupon the bill reads (`type`, `value` and `maxDiscountAmount`) versus the coupon document (`discountType`, `discountValue` and `maxDiscount`). The bill is modelled on the fields it reads.
- The clock is a parameter: `now` and the start of `today`.
- The reservation collection's invariant omits the validators, because the date validator depends on the day.
- The review shared schema (`packages/shared/src/schemas/review.ts`) and the Dish, Order and Bill models are not part of this model.
- The `userId` of a reservation and the ids of a review are strings. They are not cast to ObjectIds.
- `utils/jwt.ts` and its issuer and audience options are not part of this model. The modelled handlers sign and verify through jsonwebtoken directly.
- The import names. `routes/auth.ts` imports `authenticateToken`, and `middleware/auth.ts` exports `authenticate`. The controller and the middleware import `User`, and `models/User.ts` exports `UserModel`. The model takes each name to mean the function or model it evidently refers to.
