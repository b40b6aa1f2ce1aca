# AlloMedia Auth API: the authentication core in Dafny

This project models the device-aware authentication logic of the AlloMedia
Auth API, an Express/Mongoose service, together with the small stores it
works on:

- the user and role collections;
- the per-user OTP ledger;
- the refresh-token registry;
- the registration counters;
- the per-email throttle table;
- the mail transport's outbox.

Time is an integer millisecond clock. Hashing and signing are abstract:
- a bcrypt digest is a value that records the value and the salt it was made from. Its text, which a later hash may hash again, is `$2a$10$`, the salt, `$` and the hashed text; `compare` matches exactly the text the hash was made from;
- a JSON Web Token (RFC 7519) is the record `(secret, payload, expiry second)`, written as text;
- `verify` gives the payload or the error message jsonwebtoken throws.

What each handler reads, checks and writes follows the code, including its
defects across files, up to the abstractions listed under "Left out". The section "Defects as written"
lists those defects. They are modelled and proved, not repaired.

## Layout

There is one module per source file, plus small helper modules:

- `Wrappers`: `Option`, `Result`.
- `Text`: ASCII classes, decimal numerals, split/join, JavaScript `trim`, lower-casing.
- `Joi`: detail lists and Joi's default messages.
- `Jwt`, `Environment` and `JwtHelper`: tokens, the secrets, and `src/api/V1/helpers/jwtHelper.js`.
- `Bcrypt`: digests.
- `Redis`: string and counter values with expiry, and a client.
- `Mail`: the four senders of `src/api/V1/services/emailService.js` and their outbox.

The stores whose fields the source changes in place are classes:
- `UserModel.Users` and `RoleModel.Roles`;
- `OtpHelper.OtpLedger`, `ThrottleMiddleware.Throttles`;
- `Redis.Client`, `Mail.Mailer`.

Each class has an `up` flag, which says whether its connection works. Every
method that changes a class is proved to leave exactly the state that a pure
function of the old state gives.

The controllers read and write several stores. `AppState.World` is a
snapshot of all of them, and `AppState.App` holds the objects.

Each controller is built in two layers:
- a pure decision function from the request and the world to the reply and
  the new world (`LoginController.Login`, `RegisterController.Register`, ...);
- an imperative handler over the objects, whose `ensures` ties its reply and
  new snapshot to that function.

The properties are lemmas about the decision functions. `Flows` chains
several handlers: what a token issued by one does in another.

## Defects as written

Each defect below is proved about the model as the code stands.

- `verifyOtp` (`src/api/V1/helpers/otpHelper.js:15-35`) returns `true` or throws; it never returns `false`.
  - Consequence: the falsy-result branches of `login` and `verifyOtpHandler` are dead.
  - `LoginController.InvalidOtpNeverAnswered`: 'Invalid or expired OTP' is never sent.
  - `LoginController.OtpErrorIsServerError`: an OTP error at login ends in 500.
- `register` hashes the password, and the pre-save hook hashes it again (`User.js:72-79` counts a new document's password as modified).
  - `RegisterController.RegisteredAccountContents`: the stored digest is two rounds deep. It matches only the text of the handler's hash, never the registered password.
  - `Flows.RegisteredAccountNeverLogsIn` and `Flows.RegisteredAccountVerifiesButNeverLogsIn`: a login with the registered password, or any password but that hash text, gets 'Invalid credentials', even after the email is verified.
  - `Flows.FirstHashTextPassesPasswordCheck`: the hash text itself does pass the password check.
- The refresh registry is written under `refreshToken:<id>` and read under `refresh_token:<id>`. The read goes through the identifier `redis`, which the file never binds.
  - `TokenService.VerifyRefreshTokenIsNull`: every call returns null.
  - `TokenService.KeysNeverMeet`: the two keys never coincide.
  - `TokenService.RegistryRoundTrip`: the intended compare, reading the key that was written, accepts.
- The forgot-password token carries `{userId: {userId: id}}` under the access secret. The reset handler verifies under the `jwtHelper` secret and reads `id`.
  - `Flows.ForgotTokenRejectedByReset`: the mailed link is always answered 400.
  - `Flows.OtpTokenResetsPassword`: the token from the OTP check does reset.
- `User.js` declares no `devices` path. The model keeps devices as the controllers read and write them.
- `logoutController.js` imports nothing, so `verifyToken` throws a ReferenceError.
  - `LogoutController.TokenedRequestFails`: every request with a token is answered 500. The device filter is modelled and proved on its own.
- `refreshToken` in `loginController.js` uses `jwt` without importing it.
  - `LoginController.RefreshToken`: 401 without a cookie, 403 with one.
- The role schema lists `deliverer`; the Role model's enum and the schema's own message list `Livreur`.
  - `RoleValidation.LivreurRefused`: `Livreur` is refused.
  - `RoleController.DelivererIsServerError`: `deliverer` passes the schema and fails the save with 500.
- The OTP throttle checks the limit before the window, so five attempts block an email forever (`ThrottleMiddleware.BlockedForever`). The wait it reports is always 10 seconds.
- `updateLastLogin` re-validates the loaded document. Its email validator counts the document itself, so the save always fails (`UserModel.UpdateLastLoginRejectsStored`).
- `findOne({ email })` with no email drops the filter and finds the first user (`VerifyOtpController.MissingEmailChecksFirstUser`).
- `verifyEmail` answers a token that fails verification with 500, not with its 400 branch (`VerifyEmailController.BadTokenIsServerError`).
- A reset whose confirmation mail fails is answered 500 after the password was changed (`ResetPasswordController.MailFailureAfterWrite`).
- The duplicate-key branch of `createRole` is unreachable for one request at a time (`RoleController.DuplicateKeyNotReached`).

## Model

| member | source | states |
|---|---|---|
| OtpHelper.GenerateOtp | src/api/V1/helpers/otpHelper.js:6-8 | the code is six decimal digits without a leading zero and reads as 100000 plus the random draw |
| OtpHelper.KeyInjective | src/api/V1/helpers/otpHelper.js:12 | two user ids share a ledger key exactly when they are equal |
| OtpHelper.StoreOtp | src/api/V1/helpers/otpHelper.js:10-13 | the user's entry becomes the code with expiry now + 300000 ms, replacing any earlier one; every other key is untouched |
| OtpHelper.VerifyOtp | src/api/V1/helpers/otpHelper.js:15-35 | a success is always `true` (never false), and entries of other users are neither changed nor removed |
| OtpHelper.VerifyWithoutEntry | src/api/V1/helpers/otpHelper.js:16-18 | no entry: fails with 'Invalid OTP' and the store is unchanged |
| OtpHelper.VerifyAfterExpiry | src/api/V1/helpers/otpHelper.js:23-26 | past the expiry instant the entry is deleted and the call fails with 'OTP expired', whatever code is presented |
| OtpHelper.ExpiryBoundary | src/api/V1/helpers/otpHelper.js:11-26 | a stored code is accepted at exactly its expiry instant and refused one millisecond later |
| OtpHelper.WrongCodeThenRightCode | src/api/V1/helpers/otpHelper.js:29-31 | a wrong code fails with 'OTP invalid' and keeps the entry, so the right code still succeeds before expiry |
| OtpHelper.CorrectCodeIsSingleUse | src/api/V1/helpers/otpHelper.js:33-34 | a correct live code returns true and deletes the entry; replaying it fails with 'Invalid OTP' |
| OtpHelper.StoreReplacesEarlier | src/api/V1/helpers/otpHelper.js:10-13 | after two stores for one user only the newer code is accepted; the older gets 'OTP invalid' |
| OtpHelper.VerifyOutcomes | src/api/V1/helpers/otpHelper.js:15-35 | every failure is one of the three thrown messages; success holds exactly for a live entry with the very code, and deletes it |
| OtpHelper.OtpLedger.Put | src/api/V1/helpers/otpHelper.js:10-13 | the ledger becomes `StoreOtp` of the old ledger |
| OtpHelper.OtpLedger.Verify | src/api/V1/helpers/otpHelper.js:15-35 | result and new ledger are those of `VerifyOtp` on the old ledger |
| OtpService.OtpMailFor | src/api/V1/services/otpService.js:15 | the OTP mail goes to the email, carries the code as its subject and the first name as its text, since the arguments are shifted by one |
| OtpService.SendOtpEffect | src/api/V1/services/otpService.js:8-16 | a closed collection or an unknown email throws and leaves ledger and outbox unchanged |
| OtpService.SendOtp | src/api/V1/services/otpService.js:8-16 | the failure, new ledger and new outbox are those of `SendOtpEffect` |
| OtpService.KnownEmailIssuesCode | src/api/V1/services/otpService.js:12-15 | a known email gets a fresh six-digit code with a five-minute expiry, stored before the mail is sent, so it stays even when the send fails; other entries are untouched; the mail is added exactly when the transport works |
| OtpService.IssuedCodeIsLive | src/api/V1/services/otpService.js:12-13 | the issued code is accepted for that user throughout its five minutes |
| OtpService.IssuingReplacesOldCode | src/api/V1/services/otpService.js:12-13 | issuing a code makes a previously issued, different code fail with 'OTP invalid' |
| TokenService.GenerateAccessToken | src/api/V1/services/tokenService.js:16-18 | the token is `{userId}` under the access secret, expiring one hour after the signing second |
| TokenService.AccessTokenVerifies | src/api/V1/services/tokenService.js:16-18 | within its hour the token verifies under the access secret with its own payload, and under every other secret fails with 'invalid signature' |
| TokenService.RefreshToken | src/api/V1/services/tokenService.js:21 | the refresh token is `{userId: id}` under the refresh secret with a seven-day expiry |
| TokenService.KeysNeverMeet | src/api/V1/services/tokenService.js:24-37 | the written key `refreshToken:…` and the read key `refresh_token:…` differ for all ids |
| TokenService.WriteKeyInjective | src/api/V1/services/tokenService.js:24 | one registry key per user: written keys are equal exactly when the ids are |
| TokenService.VerifyRefreshTokenIn | src/api/V1/services/tokenService.js:34-42 | the payload is returned exactly when the token verifies under the refresh secret and the client holds that very token under the key for its `userId`; every other case gives null |
| TokenService.VerifyRefreshTokenIsNull | src/api/V1/services/tokenService.js:34-42 | as written, with `redis` unbound, every call returns null |
| TokenService.RegistryRoundTrip | src/api/V1/services/tokenService.js:24-38 | read under the key it was written under, a live refresh token comes back with its payload |
| TokenService.LookupMissesWrite | src/api/V1/services/tokenService.js:37 | a write by `generateRefreshToken` is invisible to a lookup under `refresh_token:` |
| TokenService.GenerateRefreshToken | src/api/V1/services/tokenService.js:20-32 | with a working client it returns the token and stores it with a 604800 s TTL, replacing the earlier one; otherwise it throws 'Failed to generate refresh token' and nothing is written |
| TokenService.LatestRefreshTokenWins | src/api/V1/services/tokenService.js:24-26 | after two writes for one user, the second token is what the key holds |
| JwtHelper.VerifyToken | src/api/V1/helpers/jwtHelper.js:9-15 | a missing token gives null; otherwise the payload exactly when `jwt.verify` under the `JWT_SECRET` succeeds |
| JwtHelper.GenerateTokenVerifies | src/api/V1/helpers/jwtHelper.js:4-6 | a `generateToken` token verifies for its hour with payload `{id: userId}` |
| Jwt.Verify | src/api/V1/services/tokenService.js:36 | a payload is returned only for a well-formed token signed with this secret whose expiry second is still ahead |
| Jwt.VerifySigned | src/api/V1/services/tokenService.js:17 | a signed token verifies under its secret until its expiry second with its own payload, and fails with 'invalid signature' under any other secret |
| Jwt.SignedLifetime | src/api/V1/services/tokenService.js:17 | a token verifies until the start of its expiry second (the signing second plus `expiresIn`), and is 'jwt expired' from `expiresIn` + 1 seconds after signing |
| Jwt.Render | src/api/V1/services/tokenService.js:24 | an id in a template literal prints as its decimal text |
| Jwt.EncodeHasNoSpace | src/api/V1/middlewares/authenticateTokenMiddleware.js:8 | a token's text is non-empty and has no space, so it survives `Bearer <token>` and a URL path |
| Bcrypt.Hash | src/api/V1/models/User.js:76-77 | a hash is a digest of exactly the value it was given |
| Bcrypt.CompareHashed | src/api/V1/models/User.js:82-84 | a password hashed once matches exactly itself |
| Bcrypt.CompareTwiceHashed | src/api/V1/controllers/auth/registerController.js:54-55 | a value hashed twice matches exactly the text of its first hash, and never its own text |
| Bcrypt.RehashLosesMatch | src/api/V1/models/User.js:72-79 | a text that matches a digest no longer matches once the digest is hashed again |
| ThrottleMiddleware.WaitSeconds | src/api/V1/middlewares/throttleMiddleware.js:16 | the wait is between 10 and 30 seconds and is 10 exactly at five attempts |
| ThrottleMiddleware.Throttle | src/api/V1/middlewares/throttleMiddleware.js:3-28 | only the request's own email entry can change, and it exists afterwards |
| ThrottleMiddleware.ThrottleKeepsBound | src/api/V1/middlewares/throttleMiddleware.js:15-25 | no entry ever counts more than five attempts |
| ThrottleMiddleware.FirstRequestPasses | src/api/V1/middlewares/throttleMiddleware.js:6-8 | the first request for an email records one attempt at now and passes |
| ThrottleMiddleware.WithinWindowCounts | src/api/V1/middlewares/throttleMiddleware.js:21-25 | within the minute a passing request adds one attempt and keeps the window start |
| ThrottleMiddleware.AfterWindowResets | src/api/V1/middlewares/throttleMiddleware.js:21-22 | after more than a minute the entry restarts at one attempt from now |
| ThrottleMiddleware.BlockedForever | src/api/V1/middlewares/throttleMiddleware.js:15-18 | at five attempts every later request, at any time, is refused and the table never changes |
| ThrottleMiddleware.WaitIsAlwaysTenSeconds | src/api/V1/middlewares/throttleMiddleware.js:15-17 | on tables the middleware can reach, the refusal always asks for 10 seconds |
| ThrottleMiddleware.SixthRequestRefused | src/api/V1/middlewares/throttleMiddleware.js:15-25 | five requests in a minute pass, with the count at five, and the sixth is refused with 429 |
| ThrottleMiddleware.Throttles.OtpThrottling | src/api/V1/middlewares/throttleMiddleware.js:3-28 | verdict and new table are those of `Throttle` for the email's property name |
| UserModel.EmailCount | src/api/V1/models/User.js:22-28 | the count is zero exactly when no stored document has that email |
| UserModel.ValidatesMeans | src/api/V1/models/User.js:5-69 | a document validates exactly when names and address are non-empty, the email matches `.+@.+\..+` and no stored document has it, the password rule holds, and the phone is 10-15 digits |
| UserModel.NewUser | src/api/V1/models/User.js:5-69 | names are trimmed and the email lowercased on assignment; `isLocked` defaults to false, `createdAt` to now, and `lastLogin` is unset |
| UserModel.SaveNew | src/api/V1/models/User.js:72-79 | a save succeeds exactly when the document validates; it then appends the document with its password hashed once more |
| UserModel.LastLoginSave | src/api/V1/models/User.js:87-90 | a successful `updateLastLogin` stores the document with `lastLogin` set to now |
| UserModel.UpdateLastLoginRejectsStored | src/api/V1/models/User.js:87-90 | for a stored user the save always fails: the email validator counts the document itself |
| UserModel.UpdateLastLoginChangesOnlyLastLogin | src/api/V1/models/User.js:87-90 | a successful `updateLastLogin` changes `lastLogin` and nothing else |
| UserModel.SaveNewHashesOnceMore | src/api/V1/models/User.js:72-79 | saving a new document adds exactly one bcrypt round to its password, whatever the password already holds |
| UserModel.SaveNewKeepsEmailsUnique | src/api/V1/models/User.js:16-28 | saving keeps every email unique in the collection |
| UserModel.FindByEmail | src/api/V1/controllers/auth/loginController.js:26 | `findOne({ email })` finds the first document with the lowercased email; with no email it finds the first document |
| UserModel.LookupById | src/api/V1/controllers/auth/resetPasswordController.js:20 | `findById` of `undefined` finds nothing, of an id finds that document, and of an object throws a cast error |
| UserModel.AfterUpdate | src/api/V1/controllers/auth/verifyEmailController.js:23 | an update keeps the number of documents and every id and email |
| UserModel.UpdateOneFound | src/api/V1/controllers/auth/loginController.js:57-60 | after `updateOne`, the updated id finds the updated document and every other id finds what it found before |
| UserModel.UpdateOneEmailLookup | src/api/V1/controllers/auth/loginController.js:74-77 | an update never changes which document an email lookup finds |
| UserModel.Users.FindOne | src/api/V1/controllers/auth/loginController.js:26 | returns `FindByEmail` when connected, otherwise the connection error |
| UserModel.Users.FindById | src/api/V1/controllers/auth/verifyEmailController.js:14 | returns `LookupById` when connected, otherwise the connection error |
| UserModel.Users.UpdateOne | src/api/V1/controllers/auth/verifyEmailController.js:23 | the collection becomes `AfterUpdate` when connected and is unchanged otherwise |
| UserModel.Users.Save | src/api/V1/controllers/auth/registerController.js:69 | the collection becomes `SaveNew`'s on success; a validation failure or a closed connection leaves it unchanged |
| UserModel.Users.UpdateLastLogin | src/api/V1/models/User.js:87-90 | the collection becomes `LastLoginSave`'s on success and is unchanged otherwise |
| RoleModel.NameValidMeans | src/api/V1/models/Role.js:6-10 | a name is valid exactly when its trimmed form is 'Admin', 'Client' or 'Livreur' |
| RoleModel.FindByName | src/api/V1/controllers/roleController.js:14 | `findOne({ name })` finds the first role with the trimmed name; with no name it finds the first role |
| RoleModel.NamedIn | src/api/V1/controllers/auth/registerController.js:46 | every stored role whose name is queried is in the result, and nothing else is |
| RoleModel.NamedInOneName | src/api/V1/controllers/auth/registerController.js:46-49 | with unique names, a query that repeats one name finds at most one role |
| RoleModel.CastId | src/api/V1/controllers/roleController.js:48 | an id parameter casts exactly when it is a numeral; otherwise it is a cast error |
| RoleModel.Insert | src/api/V1/models/Role.js:6-10 | a save succeeds exactly for a valid name not yet stored; it appends a role with the trimmed name and a fresh id; a failure is a validation or a duplicate-key error |
| RoleModel.InsertKeepsNamesUnique | src/api/V1/models/Role.js:8 | inserting keeps role names unique |
| RoleModel.UpdateName | src/api/V1/controllers/roleController.js:65-69 | a rename either finds no role and changes nothing, or renames the role with the cast id to the trimmed valid name, keeping the table's length |
| RoleModel.UpdateNameKeepsNamesUnique | src/api/V1/models/Role.js:8 | renaming keeps role names unique |
| RoleModel.UpdateNameChangesOnlyTarget | src/api/V1/controllers/roleController.js:65-69 | a rename keeps every role's id and creation time, leaves other roles as they were, and sets the target's name |
| RoleModel.Delete | src/api/V1/controllers/roleController.js:82 | deleting an id that is not stored changes nothing |
| RoleModel.DeleteRemovesOnlyTarget | src/api/V1/controllers/roleController.js:82 | a delete removes the target and keeps whether every other id is stored |
| RoleModel.Roles.FindAll | src/api/V1/controllers/roleController.js:36 | returns the table when connected, otherwise the connection error |
| RoleModel.Roles.FindOne | src/api/V1/controllers/roleController.js:14 | returns `FindByName` when connected |
| RoleModel.Roles.FindIn | src/api/V1/controllers/auth/registerController.js:46 | returns the roles named by the trimmed query names, when connected |
| RoleModel.Roles.FindById | src/api/V1/controllers/roleController.js:48 | returns the cast error, or the role with the cast id, when connected |
| RoleModel.Roles.Save | src/api/V1/controllers/roleController.js:19-20 | the table becomes `Insert`'s on success and is unchanged on any error |
| RoleModel.Roles.FindByIdAndUpdate | src/api/V1/controllers/roleController.js:65-69 | the table becomes `UpdateName`'s on success and is unchanged on any error |
| RoleModel.Roles.FindByIdAndDelete | src/api/V1/controllers/roleController.js:82 | the table becomes `Delete`'s on success and is unchanged on any error |
| RegisterValidation.EmptyItems | src/api/V1/validations/registerValidation.js:36 | no item failure exactly when no role item is the empty string |
| RegisterValidation.RolesKey | src/api/V1/validations/registerValidation.js:36 | `roles` passes exactly when absent, or a non-empty list of non-empty strings |
| RegisterValidation.DetailsEmptyIff | src/api/V1/validations/registerValidation.js:4-37 | the schema reports nothing exactly for bodies meeting every key's rule and carrying no other key |
| RegisterValidation.NameKeyEmpty | src/api/V1/validations/registerValidation.js:5-16 | a name key passes exactly for 2 to 30 characters |
| RegisterValidation.EmptyFirstNameReported | src/api/V1/validations/registerValidation.js:5-7 | an empty first name is the first failure reported, 'First name is required', whatever else is wrong |
| RegisterValidation.NameBounds | src/api/V1/validations/registerValidation.js:5-9 | 1 and 31 characters are refused with the min and max messages; 2 to 30 pass |
| RegisterValidation.ShortPasswordReportedByLength | src/api/V1/validations/registerValidation.js:21-27 | a short password reports the length message, then the pattern message |
| RegisterValidation.PasswordPatternImpliesSchemaPassword | src/api/V1/validations/registerValidation.js:23 | every password this schema accepts satisfies the User model's password rule |
| RegisterValidation.SchemaPasswordAdmitsMore | src/api/V1/validations/registerValidation.js:23 | the User rule accepts 'Aa1@ xyz', which this schema refuses |
| RegisterValidation.PhonePatternImpliesSchemaPhone | src/api/V1/validations/registerValidation.js:29 | the schema's phone rule and the User model's coincide |
| RegisterValidation.EmailImpliesSchemaPattern | src/api/V1/validations/registerValidation.js:17 | an accepted email, lowercased, matches the User model's email pattern |
| LoginValidation.DetailsEmptyIff | src/api/V1/validations/loginValidation.js:4-13 | the schema reports nothing exactly for an email address and a password of at least 8 characters |
| LoginValidation.FirstFailure | src/api/V1/validations/loginValidation.js:5-12 | a missing or empty email, then a missing or empty password, is reported first with its own message |
| LoginValidation.PasswordLengthBound | src/api/V1/validations/loginValidation.js:9 | with a valid email, 7 characters are refused with the length message and 8 pass |
| OtpValidation.Details | src/api/V1/validations/otpValidation.js:4-12 | the code reports at most one failure |
| OtpValidation.DetailsMeaning | src/api/V1/validations/otpValidation.js:5-11 | accepted exactly for six characters 0-9; missing, empty and malformed codes get their own messages |
| OtpValidation.GeneratedCodesPass | src/api/V1/validations/otpValidation.js:6 | every code `generateOtp` issues passes |
| OtpValidation.LeadingZeroPassesButIsNeverIssued | src/api/V1/validations/otpValidation.js:6 | a code with a leading zero passes but is never issued |
| RoleValidation.Details | src/api/V1/validations/roleValidation.js:4-13 | one failure for a name not listed, plus one for each other key |
| RoleValidation.DetailsEmptyIff | src/api/V1/validations/roleValidation.js:6 | accepted exactly when the name is 'Admin', 'Client' or 'deliverer', case-sensitively, with no other key |
| RoleValidation.FirstFailure | src/api/V1/validations/roleValidation.js:7-11 | a missing name, an unlisted or empty name, or else the first unknown key is reported first |
| RoleValidation.LivreurRefused | src/api/V1/validations/roleValidation.js:6-9 | 'Livreur' is refused although the message offers it; 'deliverer' is accepted |
| RoleValidation.SchemaAndModelAgree | src/api/V1/validations/roleValidation.js:6 | only 'Admin' and 'Client' pass both this schema and the Role model's enum |
| ValidationMiddleware.ValidateRequest | src/api/V1/middlewares/validationMiddleware.js:28-42 | `next` is called exactly when there is no failure; otherwise 400 with every failure, in order |
| ValidationMiddleware.ForgotAccepts | src/api/V1/middlewares/validationMiddleware.js:4-9 | the body passes exactly when it holds only an email address; a missing email is reported as 'Email is required' |
| ValidationMiddleware.ResetAccepts | src/api/V1/middlewares/validationMiddleware.js:12-25 | the body passes exactly for a non-empty token and a new password that meets the reset rule, with no other key; a missing token is reported first |
| ValidationMiddleware.AllFailuresCollected | src/api/V1/middlewares/validationMiddleware.js:30-37 | every failure is reported: 'abc' and an unknown key give three errors, in order |
| ValidationMiddleware.RegisterPasswordPassesReset | src/api/V1/middlewares/validationMiddleware.js:18 | every password registration accepts is accepted for a reset |
| ValidationMiddleware.SchemaPasswordPassesReset | src/api/V1/middlewares/validationMiddleware.js:18 | every password the User rule accepts is accepted for a reset |
| ValidationMiddleware.ResetAdmitsMore | src/api/V1/middlewares/validationMiddleware.js:18 | 'Abcdef1#' passes the reset rule but neither the registration nor the User rule |
| AuthenticateTokenMiddleware.BearerToken | src/api/V1/middlewares/authenticateTokenMiddleware.js:7-8 | an extracted token is non-empty and has no space |
| AuthenticateTokenMiddleware.VerifyToken | src/api/V1/middlewares/authenticateTokenMiddleware.js:6-20 | 401 exactly when no token is extracted; otherwise `next` with `decoded.userId` on a verified token, and 403 on a failed one |
| AuthenticateTokenMiddleware.SecondWordIsToken | src/api/V1/middlewares/authenticateTokenMiddleware.js:8 | the token is the second word, whatever the first word is |
| AuthenticateTokenMiddleware.SchemeAlone | src/api/V1/middlewares/authenticateTokenMiddleware.js:8-12 | 'Bearer' alone yields no token |
| AuthenticateTokenMiddleware.DoubleSpace | src/api/V1/middlewares/authenticateTokenMiddleware.js:8-12 | a double space after the first word yields no token |
| AuthenticateTokenMiddleware.AccessTokenAccepted | src/api/V1/middlewares/authenticateTokenMiddleware.js:14-20 | an access token passes with its `userId` within its hour and gets 403 once expired |
| AuthenticateTokenMiddleware.ForeignSecretRefused | src/api/V1/middlewares/authenticateTokenMiddleware.js:14-20 | a token signed with any other secret gets 403 |
| LoginController.Finish | src/api/V1/controllers/auth/loginController.js:74-100 | with a working collection the reply is a login carrying the access token, the user's id and email, and the unawaited refresh cookie |
| LoginController.LoginHandler | src/api/V1/controllers/auth/loginController.js:15-106 | the reply and the new stores are those of `Login` on the old stores |
| LoginController.NewDeviceHandler | src/api/V1/controllers/auth/loginController.js:49-71 | the reply and the new stores are those of `NewDevice` |
| LoginController.FinishLogin | src/api/V1/controllers/auth/loginController.js:74-100 | the reply and the new stores are those of `Finish` |
| LoginController.InvalidBodyRefusedFirst | src/api/V1/controllers/auth/loginController.js:21-24 | a refused body gets 400 with the first detail, before any lookup; nothing changes |
| LoginController.CredentialsFailureIsUniform | src/api/V1/controllers/auth/loginController.js:26-38 | an unknown email and a wrong password get the same 400 'Invalid credentials'; nothing changes |
| LoginController.UnverifiedEmailAfterPassword | src/api/V1/controllers/auth/loginController.js:40-43 | 'Email not verified' is given exactly when the body passes, the user exists, the password matches and the email is unverified; nothing changes |
| LoginController.InvalidOtpNeverAnswered | src/api/V1/controllers/auth/loginController.js:51-55 | 'Invalid or expired OTP' is never the answer |
| LoginController.UnknownDeviceChallenged | src/api/V1/controllers/auth/loginController.js:61-70 | unknown device, no OTP: 200 with `requireOtp`; a fresh code is filed and mailed; no `lastLogin` update and no refresh token |
| LoginController.OtpErrorIsServerError | src/api/V1/controllers/auth/loginController.js:51-55 | a thrown OTP error ends in 500 with no device added; only the ledger may change |
| LoginController.CorrectOtpRegistersDevice | src/api/V1/controllers/auth/loginController.js:45-60 | a correct OTP appends exactly one verified device for the pair and logs in; the pair is then a known device |
| LoginController.RefreshToken | src/api/V1/controllers/auth/loginController.js:108-123 | never succeeds: 401 when the cookie is missing or empty, 403 otherwise |
| RegisterController.RoleIds | src/api/V1/controllers/auth/registerController.js:47 | one id per role document, in order |
| RegisterController.CountAttempt | src/api/V1/controllers/auth/registerController.js:31-34 | a closed client throws and writes nothing; a count is at least 1 |
| RegisterController.Register | src/api/V1/controllers/auth/registerController.js:19-88 | a registration writes only the users, the counters and the outbox |
| RegisterController.Applicant | src/api/V1/controllers/auth/registerController.js:57-67 | the new document has the password hashed once, the lowercased email, the resolved role ids, an unverified email, one unverified device for the request, and a fresh id |
| RegisterController.CreateAccount | src/api/V1/controllers/auth/registerController.js:40-82 | writes only the users, the counters and the outbox |
| RegisterController.ResolveRoles | src/api/V1/controllers/auth/registerController.js:46-52 | writes only the users, the counters and the outbox |
| RegisterController.SaveAccount | src/api/V1/controllers/auth/registerController.js:69-82 | writes only the users, the counters and the outbox |
| RegisterController.Welcome | src/api/V1/controllers/auth/registerController.js:71-82 | writes only the users, the counters and the outbox |
| RegisterController.RegisterHandler | src/api/V1/controllers/auth/registerController.js:19-88 | the reply and the new stores are those of `Register` |
| RegisterController.CountAttemptHandler | src/api/V1/controllers/auth/registerController.js:31-34 | the count and the new counters are those of `CountAttempt` |
| RegisterController.CreateAccountHandler | src/api/V1/controllers/auth/registerController.js:40-82 | the reply and the new stores are those of `CreateAccount` |
| RegisterController.ResolveRolesHandler | src/api/V1/controllers/auth/registerController.js:46-52 | the reply and the new stores are those of `ResolveRoles` |
| RegisterController.SaveAccountHandler | src/api/V1/controllers/auth/registerController.js:69-82 | the reply and the new stores are those of `SaveAccount` |
| RegisterController.WelcomeHandler | src/api/V1/controllers/auth/registerController.js:71-82 | the reply and the new stores are those of `Welcome` |
| RegisterController.AttemptCounting | src/api/V1/controllers/auth/registerController.js:31-34 | a first attempt counts 1 and gets a 3600 s expiry; a later one counts on and keeps its expiry; no other key changes |
| RegisterController.CountAttemptKeepsExpiry | src/api/V1/controllers/auth/registerController.js:31-34 | counting keeps every counter positive and expiring |
| RegisterController.LockoutEnds | src/api/V1/controllers/auth/registerController.js:31-38 | once its window has passed, a locked-out address counts from 1 again and is admitted |
| RegisterController.InvalidBodyChangesNothing | src/api/V1/controllers/auth/registerController.js:21-25 | a refused body gets 400 with the first detail before the counter is touched; nothing changes |
| RegisterController.SixthAttemptRefused | src/api/V1/controllers/auth/registerController.js:35-38 | with five counted attempts, the next gets 429; only the counter goes up |
| RegisterController.AdmittedAttemptProceeds | src/api/V1/controllers/auth/registerController.js:31-40 | an admitted attempt is counted and proceeds to account creation |
| RegisterController.DuplicateEmailRefused | src/api/V1/controllers/auth/registerController.js:40-44 | an email already stored, in any ASCII letter case, gets 400 'Email is already registered'; only the counter changes |
| RegisterController.RepeatedRoleRefused | src/api/V1/controllers/auth/registerController.js:46-52 | a role list naming one role twice gets 400 and no account |
| RegisterController.RepeatedNameFindsOne | src/api/V1/controllers/auth/registerController.js:46-49 | with unique names, `[x, x]` resolves to at most one role |
| RegisterController.RegisteredPassedValidation | src/api/V1/controllers/auth/registerController.js:21-38 | a success had an accepted body and a counted, admitted attempt |
| RegisterController.RegisteredPassedChecks | src/api/V1/controllers/auth/registerController.js:40-69 | a success had a new email and every role name resolved, and ended in saving the built document |
| RegisterController.SavedAccount | src/api/V1/controllers/auth/registerController.js:69-76 | a saved document is appended with one more bcrypt round; the verification token is filed for an hour and mailed |
| RegisterController.RegisteredStages | src/api/V1/controllers/auth/registerController.js:19-82 | a success went through every check, in order, and ended in the save of the document built from the body |
| RegisterController.RegisteredAccountAppended | src/api/V1/controllers/auth/registerController.js:57-69 | a success appends exactly one document, with a fresh id, after the old ones |
| RegisterController.RegisteredAccountContents | src/api/V1/controllers/auth/registerController.js:54-67 | the new document holds the lowercased email, one role id per name, an unverified email and one unverified device; its digest is the registered password hashed twice, which matches exactly the first hash's text and not the registered password |
| RegisterController.RegisteredVerificationSent | src/api/V1/controllers/auth/registerController.js:71-76 | the access token for the new id is stored under `email_verification:<id>` and still reads back at its 3600 s expiry; it is mailed in the link when the transport works |
| VerifyOtpController.VerifyOtpRequest | src/api/V1/controllers/auth/verifyOtpController.js:5-33 | only the OTP ledger can change; devices and users never do |
| VerifyOtpController.VerifyOtpHandler | src/api/V1/controllers/auth/verifyOtpController.js:5-33 | the reply and the new ledger are those of `VerifyOtpRequest` |
| VerifyOtpController.UnknownEmailRefused | src/api/V1/controllers/auth/verifyOtpController.js:10-13 | an unknown email gets 400 'User not found' before the ledger is consulted |
| VerifyOtpController.OtpFailuresAnswered | src/api/V1/controllers/auth/verifyOtpController.js:16-23 | each ledger failure gets 400 with the thrown message; success gets 200 with `generateToken(user._id)`; the fallback message is never used |
| VerifyOtpController.CorrectCodeIssuesToken | src/api/V1/controllers/auth/verifyOtpController.js:26-27 | the correct live code returns a token carrying `{id}` valid for its hour; a replay gets 'Invalid OTP' |
| VerifyOtpController.MissingEmailChecksFirstUser | src/api/V1/controllers/auth/verifyOtpController.js:10 | without an email the code is checked against the first stored user's entry |
| VerifyEmailController.VerifyEmail | src/api/V1/controllers/auth/verifyEmailController.js:5-30 | only the users can change, and `verified` is true exactly on status 200 |
| VerifyEmailController.VerifyEmailHandler | src/api/V1/controllers/auth/verifyEmailController.js:5-30 | the reply and the new users are those of `VerifyEmail` |
| VerifyEmailController.BadTokenIsServerError | src/api/V1/controllers/auth/verifyEmailController.js:9-29 | a token that fails verification gets 500 with the error's message; nothing changes |
| VerifyEmailController.InvalidTokenNeverAnswered | src/api/V1/controllers/auth/verifyEmailController.js:10-12 | the 400 branch is never reached |
| VerifyEmailController.UnknownUserNotFound | src/api/V1/controllers/auth/verifyEmailController.js:14-17 | a valid token for an id with no user gets 404; nothing changes |
| VerifyEmailController.VerificationSetsOnlyTheFlag | src/api/V1/controllers/auth/verifyEmailController.js:23-25 | an unverified user's flag is set and nothing else changes, for that user or any other |
| VerifyEmailController.VerifyEmailIdempotent | src/api/V1/controllers/auth/verifyEmailController.js:19-25 | after a success the same link gets 200 'Email already verified' and changes nothing |
| ForgetPasswordController.ResetToken | src/api/V1/controllers/auth/forgetPasswordController.js:16 | the reset token is `{userId: {userId: id}}` under the access secret for one hour; the '1h' argument plays no part |
| ForgetPasswordController.ForgotPassword | src/api/V1/controllers/auth/forgetPasswordController.js:5-26 | a mail is sent exactly when the answer is 200, and only for a known email with a working connection and transport |
| ForgetPasswordController.UnknownEmailNotFound | src/api/V1/controllers/auth/forgetPasswordController.js:10-14 | an unknown email gets 404 and no mail |
| ForgetPasswordController.ResetMailSent | src/api/V1/controllers/auth/forgetPasswordController.js:16-21 | a known email gets 200, and the mail goes to the stored address with the link `FRONTEND_URL/auth/reset-password/<token>` |
| ForgetPasswordController.SendFailureIsServerError | src/api/V1/controllers/auth/forgetPasswordController.js:22-25 | a transport failure gets 500 |
| ForgetPasswordController.ResetTokenLifetime | src/api/V1/controllers/auth/forgetPasswordController.js:16 | the link's token verifies for the access-token hour |
| ResetPasswordController.ResetPassword | src/api/V1/controllers/auth/resetPasswordController.js:9-43 | only the users and the outbox can change, and a 200 always sends the confirmation |
| ResetPasswordController.ResetPasswordHandler | src/api/V1/controllers/auth/resetPasswordController.js:9-43 | the reply and the new stores are those of `ResetPassword` |
| ResetPasswordController.RejectedTokenChangesNothing | src/api/V1/controllers/auth/resetPasswordController.js:14-17 | a missing or rejected token gets 400 with no lookup and no write |
| ResetPasswordController.UnknownUserNoWrite | src/api/V1/controllers/auth/resetPasswordController.js:20-23 | a valid token for an id with no user gets 400 'User not found' and no write |
| ResetPasswordController.ResetSetsOnlyPassword | src/api/V1/controllers/auth/resetPasswordController.js:26-38 | only that user's password changes, to one hash that compares equal to the new password; the confirmation goes to the stored address; 200 |
| ResetPasswordController.MailFailureAfterWrite | src/api/V1/controllers/auth/resetPasswordController.js:30-41 | a failing confirmation mail gets 500 after the password was already changed |
| LogoutController.LogoutToken | src/api/V1/controllers/auth/logoutController.js:2 | the token is the header with its first 'Bearer ' removed; no header, no token |
| LogoutController.Logout | src/api/V1/controllers/auth/logoutController.js:1-26 | 401 exactly for a missing or empty token; otherwise 500 with the ReferenceError |
| LogoutController.RemoveDevice | src/api/V1/controllers/auth/logoutController.js:10-12 | the kept devices are stored devices, none of them of the request's pair |
| LogoutController.NoTokenRefused | src/api/V1/controllers/auth/logoutController.js:2-3 | no header, or exactly 'Bearer ', gets 401 'No token provided' |
| LogoutController.TokenIsHeaderWithoutScheme | src/api/V1/controllers/auth/logoutController.js:2 | 'Bearer t' yields t; a header without 'Bearer ' is the token as it is |
| LogoutController.TokenedRequestFails | src/api/V1/controllers/auth/logoutController.js:5-26 | every request with a non-empty token gets 500 |
| LogoutController.RemoveDeviceAppend | src/api/V1/controllers/auth/logoutController.js:10-12 | the filter distributes over concatenation, so order is kept |
| LogoutController.RemoveDeviceKeepsOthers | src/api/V1/controllers/auth/logoutController.js:10-12 | devices of other pairs are all kept, in order |
| LogoutController.RemoveDeviceExact | src/api/V1/controllers/auth/logoutController.js:10-12 | the pair's devices all go, and every other device keeps its number of occurrences |
| LogoutController.RemoveDeviceIdempotent | src/api/V1/controllers/auth/logoutController.js:10-12 | filtering twice is filtering once, and the pair is then not a known device for login |
| RoleController.CreateRole | src/api/V1/controllers/roleController.js:5-31 | a 201 appends exactly the returned role; every other answer leaves the table unchanged |
| RoleController.GetRoles | src/api/V1/controllers/roleController.js:34-41 | the whole table when connected, otherwise 500 |
| RoleController.GetRoleById | src/api/V1/controllers/roleController.js:44-54 | the role is found exactly when connected, the id casts and is stored; it is that role |
| RoleController.UpdateRole | src/api/V1/controllers/roleController.js:57-75 | an answer without a role leaves the table unchanged; a 200 with the updated role keeps the table's length |
| RoleController.DeleteRole | src/api/V1/controllers/roleController.js:78-88 | every answer but 200 leaves the table unchanged; 200 shortens it |
| RoleController.CreateRoleHandler | src/api/V1/controllers/roleController.js:5-31 | the reply and the new table are those of `CreateRole` |
| RoleController.GetRolesHandler | src/api/V1/controllers/roleController.js:34-41 | the reply is `GetRoles` |
| RoleController.GetRoleByIdHandler | src/api/V1/controllers/roleController.js:44-54 | the reply is `GetRoleById` |
| RoleController.UpdateRoleHandler | src/api/V1/controllers/roleController.js:57-75 | the reply and the new table are those of `UpdateRole` |
| RoleController.DeleteRoleHandler | src/api/V1/controllers/roleController.js:78-88 | the reply and the new table are those of `DeleteRole` |
| RoleController.InvalidBodyRefused | src/api/V1/controllers/roleController.js:6-7 | a refused body gets 400 with the first detail on create and on update; nothing is written |
| RoleController.ExistingNameRefused | src/api/V1/controllers/roleController.js:14-17 | an existing name gets 400 naming it; the table is unchanged |
| RoleController.CreateAddsOneRole | src/api/V1/controllers/roleController.js:19-23 | 'Admin' or 'Client', not yet stored, adds exactly one role with that name and a fresh id, returned with 201; names stay unique |
| RoleController.DelivererIsServerError | src/api/V1/controllers/roleController.js:19-29 | 'deliverer' fails the save's validation and gets 500; nothing is written |
| RoleController.DuplicateKeyNotReached | src/api/V1/controllers/roleController.js:24-28 | one request at a time never gets 'Role name must be unique.' |
| RoleController.MissingIdNotFound | src/api/V1/controllers/roleController.js:48-83 | get, update or delete of an id that is not stored gets 404; the table is unchanged |
| RoleController.UpdateChangesOnlyTarget | src/api/V1/controllers/roleController.js:65-71 | a rename changes only the target's name; ids and creation times stay; names stay unique |
| RoleController.DeleteRemovesTarget | src/api/V1/controllers/roleController.js:82-84 | a delete removes the target and keeps every other role |
| Mail.VerificationMail | src/api/V1/services/emailService.js:127-132 | the mail goes to the user with the verification subject and the link |
| Mail.OtpMail | src/api/V1/services/emailService.js:151-156 | the mail goes to the address with the given subject and message |
| Mail.ResetMail | src/api/V1/services/emailService.js:180-185 | the mail goes to the address with the reset subject and the reset URL |
| Mail.ResetConfirmationMail | src/api/V1/services/emailService.js:204-209 | the mail goes to the address with the confirmation subject |
| Mail.Delivered | src/api/V1/services/emailService.js:135 | a working transport appends the mail to the outbox; a failing one leaves it unchanged |
| Mail.Mailer.SendVerificationEmail | src/api/V1/services/emailService.js:116-140 | delivers the verification mail and swallows any failure |
| Mail.Mailer.SendOtpEmail | src/api/V1/services/emailService.js:143-165 | delivers the OTP mail; a failure becomes 'Failed to send OTP email' |
| Mail.Mailer.SendPasswordResetEmail | src/api/V1/services/emailService.js:168-194 | delivers the reset mail; a failure is rethrown |
| Mail.Mailer.SendPasswordResetConfirmationEmail | src/api/V1/services/emailService.js:197-218 | delivers the confirmation mail; a failure is rethrown |
| Redis.Get | src/api/V1/services/tokenService.js:37 | a value is read exactly for a present, unexpired key, and it is the stored value |
| Redis.GetAfterSetEx | src/api/V1/controllers/auth/registerController.js:74 | a value set with a TTL reads back until its expiry instant and is gone after |
| Redis.SetExOtherKey | src/api/V1/services/tokenService.js:24 | writing one key leaves every other key as it read |
| Redis.IncrCounts | src/api/V1/controllers/auth/registerController.js:31 | INCR yields 1 on an absent key and the successor on a live counter, and touches no other key |
| Redis.IncrThenExpire | src/api/V1/controllers/auth/registerController.js:31-34 | a counter INCR creates has no expiry until EXPIRE gives it one |
| Redis.Client.Set | src/api/V1/services/tokenService.js:24-26 | the data becomes `SetEx`'s when connected; unchanged otherwise |
| Redis.Client.Increment | src/api/V1/controllers/auth/registerController.js:31 | the count and data are `Incr`'s when connected; errors leave the data unchanged |
| Redis.Client.SetExpiry | src/api/V1/controllers/auth/registerController.js:33 | the data becomes `Expire`'s when connected |
| Redis.Client.Read | src/api/V1/services/tokenService.js:37 | returns `Get` when connected, otherwise the client error |
| Flows.RegisteredWorld | src/api/V1/controllers/auth/registerController.js:57-82 | after a registration the new account is the only one with its email and id, it is unverified, and its digest matches exactly the first hash's text, which is not the registered password |
| Flows.FirstHashText | src/api/V1/controllers/auth/registerController.js:54-55 | the text of the handler's hash differs from the registered password |
| Flows.FirstHashTextPassesPasswordCheck | src/api/V1/controllers/auth/loginController.js:26-43 | a login with the first hash's text as password gets past the password check and is stopped only by the unverified email, changing nothing |
| Flows.RegisteredAccountNeverLogsIn | src/api/V1/controllers/auth/registerController.js:54-69 | every accepted login with the registered email and any password but the first hash's text, the registered password included, gets 'Invalid credentials' and changes nothing |
| Flows.AppendedAccountVerifiesButNeverLogsIn | src/api/V1/controllers/auth/verifyEmailController.js:14-25 | an appended unverified account is verified by its token, and a login whose password its digest does not match still fails |
| Flows.RegisteredAccountVerifiesButNeverLogsIn | src/api/V1/controllers/auth/registerController.js:71-76 | the mailed verification token verifies the new account within the hour, and a login with any password but the first hash's text, the registered password included, still fails afterwards |
| Flows.ForgotTokenRejectedByReset | src/api/V1/controllers/auth/resetPasswordController.js:14-23 | the forgot-password token always gets 400 from the reset handler, and nothing changes |
| Flows.OtpTokenResetsPassword | src/api/V1/controllers/auth/verifyOtpController.js:26-27 | the verify-OTP token resets that user's password within its hour, and the new password then matches |

## Left out

- Transports and libraries: MongoDB, Redis, nodemailer connections and their setup are reduced to an `up` flag per store. Which operation of a store fails is not distinguished.
- `Math.random` in `generateOtp` is floating point. It is the parameter `draw`, an integer in [0, 900000). The bcrypt salts are parameters too, and so is the clock.
- Concurrency: requests run one at a time. The duplicate-key answer of `createRole` is therefore unreachable, and so is the case where two registrations race for one email.
- Logging calls are left out. That includes `console.log(await Role.find())` in `createRole`, whose only effect besides logging is to turn a closed connection into 500 before the lookup; the model gives that 500 from the lookup itself.
- HTML bodies of the mails are left out. A mail is its recipient, subject, greeting and the text or link it carries.
- Rate limiting by `express-rate-limit` (rateLimiterMiddleware.js), the routes, app wiring and configuration are not part of this model.
- Strings are sequences of Unicode scalar values, so Joi's lengths are counted per character rather than per UTF-16 code unit. Non-string JSON values in a body (numbers, objects) are not modelled: a key is a string or absent.
- Joi's `email()` grammar is kept abstract (`Joi.IsEmail`): it requires the local part, '@', and a domain with a dot and no spaces.
- `Jwt.Verify`: tokens are records written as dot-separated decimal fields. Signatures are modelled as secret identity, not HMAC, and base64url is not modelled.
- `UserModel.PasswordPathValid`: the password rule on a hash text is taken to hold. A real bcrypt hash meets it with overwhelming probability: its prefix brings `$`, digits and lower case, and its 53 random characters almost surely bring an upper-case letter.
- `Bcrypt.CompareHashed`: bcrypt hashes only the first 72 UTF-8 bytes of a text, and no schema caps the password's length. The model compares whole texts, so a wrong password that shares its first 72 bytes with a longer one is accepted by the source but refused here.
- `Bcrypt.TextOf`: a hash's text is rendered injectively with its input inside it, not as bcrypt's 60-character string. That a hash's text differs from the text it hashes holds in bcrypt only with overwhelming probability.
- `UserModel.NewUser`, `UserModel.FindByEmail`, `RegisterController.DuplicateEmailRefused`: `Text.ToLower` lowers ASCII letters only, while Mongoose's `lowercase` uses JavaScript's Unicode `toLowerCase`. An email stored as 'é@x.com' is found by 'É@x.com' in the source but not in the model.
- `RoleModel.CastId`: an ObjectId is modelled as a decimal numeral, not a 24-hex-digit string.
- `ThrottleMiddleware.Throttle`: the two `Date.now()` readings of one request are taken to be the same instant. Emails that name inherited object properties (such as `constructor`) are not modelled.
- `LoginController.Finish`: the refresh-token write is not awaited in the source. The model performs it before the reply, and a failing write changes nothing. The unhandled rejection it causes is not modelled; the cookie holds the serialised Promise.
- `LoginController.RefreshToken`: the app installs no cookie parser, so `req.cookies` would itself be undefined. The model takes the cookie as read.
- `LogoutController.Logout`: the lookup, `user.save()`, the blacklist and the activity log come after the ReferenceError and are never reached. Only the device filter is modelled, as a function.
