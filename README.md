# AuthModule user-record state machine, in Dafny

This project models the authentication core of AuthModule, an Express and Mongoose
service. The core is the `users` collection and the handlers that read and update it:
registration, login with an access/refresh token pair, logout, refresh-token exchange,
and password recovery with a one-time code (OTP). The model also covers the `verifyJWT`
middleware that guards `/logout`.

Layout, one module per file:

- `base.dfy` (`Base`): optional values, JavaScript truthiness of request fields (`!field`,
  `a || b`), and `Outcome`. A request ends with a status, with an error that escapes the
  handler (`Unhandled`), or with no response at all (`NoResponse`).
- `crypto.dfy` (`Crypto`): bcrypt as a free term constructor `Hashed`. It is
  collision-free and never a fixpoint, so a hash of a hash is visibly different from a
  hash. A password field is a `Secret`: a plaintext, or the text of a digest, which a
  client can send like any other string.
- `jwt.dfy` (`Jwt`): `sign` and `verify` are function-valued fields of a configuration
  record, which also holds the two secrets and expiries. `Sound` and `SecretBound` state
  what a correct signer guarantees.
- `text.dfy` (`Text`): the decimal `toString` of the OTP, with its inverse, and
  `String.prototype.replace` of the first occurrence, used to strip `"Bearer "`.
- `user_model.dfy` (`UserModel`): the `User` record and its instance methods. It also
  holds `UserDocument`, a loaded document with `isModified("password")`, the pre-save
  hook and `updatePassword`. Finally, `UserStore` is the collection as a class: a
  `seq<User>` in natural order, an id counter, the schema invariant `Valid()`, and
  `create`, `findById` (as `Load`) and `save`.
- `user_controller.dfy` (`UserController`): the handlers, as methods over the store.
- `auth_middleware.dfy` (`AuthMiddleware`): token extraction, the gate decision
  `AuthGate`, and `VerifyJwt`, which sets `req.user` and calls `next`.
- `api_routes.dfy` (`ApiRoutes`): `/logout`, which is `verifyJWT` followed by `logoutUser`.
- `scenarios.dfy` (`Scenarios`): whole request sequences against a fresh store.

The random draw of `Math.random()`, the clock `Date.now()` and the mail transport's
result are method parameters. The draw is a real in [0, 1).

`refreshToken` is not a path of the schema, so a stored record has no such field. The
token helper assigns it as a plain property of the loaded document, and `save` writes
only schema paths, whatever the schema's strictness. Logout's `$unset` names only that
undeclared path: under the schema's default strict mode Mongoose strips it, and there
is no field to remove in any case. So neither login nor logout changes the store.

## Model

| member | source | states |
|---|---|---|
| `Crypto.Hash` | src/models/user.model.js:32 | `bcrypt.hash` never returns its own input |
| `Crypto.NoFixpoint` | src/models/user.model.js:32 | no digest equals the content it was computed from, however many times that content was itself hashed |
| `Crypto.VerifyHashOf` | src/models/user.model.js:37-39 | `isPasswordCorrect`: the hash of `p` verifies a candidate string exactly when the candidate is `p` |
| `Crypto.DoubleHashVerifiesOnlyIntermediate` | src/models/user.model.js:42-47 | the hash of a hash of `p` verifies exactly one string, the text of the intermediate digest `H(p)`, and no plaintext at all |
| `Base.Or` | src/controllers/user.controller.js:195-196 | JavaScript's or-operator on strings is truthy exactly when one operand is, and is then the first truthy operand |
| `Text.DecimalString` | src/controllers/user.controller.js:98 | `toString` gives a non-empty string of digits, a single digit exactly below 10 |
| `Text.ParseDecimalString` | src/controllers/user.controller.js:98 | reading the rendered OTP back as a number gives the drawn number |
| `Text.FourDigitString` | src/controllers/user.controller.js:98 | every number from 1000 to 9999 renders as exactly four digits |
| `Text.RemoveFirstAt` | src/middlewares/auth.middleware.js:7 | `replace("Bearer ", "")` cuts out exactly the first occurrence of the pattern, at whatever index it first occurs |
| `Text.RemoveFirstAbsent` | src/middlewares/auth.middleware.js:7 | with no occurrence of the pattern, `replace` leaves the string unchanged |
| `UserModel.IssuedTokensVerify` | src/models/user.model.js:50-74 | under a sound signer, the access token verifies with the access secret to exactly `{_id, name, email}`, and the refresh token verifies with the refresh secret to exactly `{_id}` |
| `UserModel.IssuedTokensKeepTheirSecret` | src/models/user.model.js:57-69 | with separate secrets, a refresh token never verifies as an access token, and an access token never verifies as a refresh token |
| `UserModel.ViewHidesOnlyPassword` | src/controllers/user.controller.js:63-65 | `select("-password -refreshToken")` hides the password and nothing else: two records have the same view exactly when they differ at most in their password |
| `UserModel.FirstMatch` | src/controllers/user.controller.js:30 | `findOne`: the index found matches, and no earlier record matches; None means no record matches |
| `UserModel.FindById` | src/controllers/user.controller.js:8 | with unique ids, `findById` of a record's id finds exactly that record |
| `UserModel.UserDocument.PreSave` | src/models/user.model.js:30-34 | the hook replaces the password with its hash only when the password was modified, and otherwise leaves it untouched |
| `UserModel.UserDocument.UpdatePassword` | src/models/user.model.js:42-47 | sets otp and otpExpire to null and changes only that record, whose saved password is `H(H(newPassword))` |
| `UserModel.UserStore.Create` | src/models/user.model.js:7-25 | `User.create` fails on a missing name, email or password, and on a taken email; otherwise it appends one record with a fresh id and the hashed password; the schema invariant is kept |
| `UserModel.UserStore.Load` | src/controllers/user.controller.js:8 | a document loaded from a stored record holds exactly that record, has no `refreshToken` property and no modified path |
| `UserModel.UserStore.Save` | src/controllers/user.controller.js:12-13 | `save` runs the hook, then writes the document's schema paths over the record with its id, so an assigned `refreshToken` property is not stored; no other record changes and the invariant is kept |
| `UserController.OtpCode` | src/controllers/user.controller.js:98 | `Math.floor(1000 + random * 9000)` lies in 1000..9999 |
| `UserController.OtpString` | src/controllers/user.controller.js:98 | the stored OTP is a four-digit string that reads back as the drawn code |
| `UserController.GenerateAccessAndRefreshTokens` | src/controllers/user.controller.js:6-20 | fails exactly for an unknown id; otherwise returns the access and refresh token of that record; in both cases the stored records are unchanged, since the assigned refresh token is not a schema path |
| `UserController.RegisterUser` | src/controllers/user.controller.js:22-47 | 400 for a missing email or password, or a taken email; 500 for a missing name; otherwise 201 and exactly one new record with that email and the hashed password; a record is created exactly when the reply is 201 |
| `UserController.LoginUser` | src/controllers/user.controller.js:49-81 | 400 for a missing field; an unknown email escapes as an error (no 401); a wrong password gives 401; success gives 201 with both tokens and the public view; tokens come exactly with 201, and the store is unchanged in every case |
| `UserController.ForgotPassword` | src/controllers/user.controller.js:84-127 | 400 for a missing email and 404 for an unknown one, neither changing the store; otherwise stores a 4-digit OTP expiring at now + 300000 ms, mails it, and replies 200, or 500 with the OTP still stored |
| `UserController.ResetPassword` | src/controllers/user.controller.js:128-165 | 400 with no change for a missing field or a confirmation mismatch; 200 exactly when a record has this email, this otp and an expiry strictly after now, and then only that record's password (double hashed) and OTP fields change; otherwise 400 |
| `UserController.LogoutUser` | src/controllers/user.controller.js:167-192 | 200 exactly when `req.user` is set, otherwise the property access escapes as an error; the `$unset` names only an undeclared path and changes nothing |
| `UserController.RefreshAccessToken` | src/controllers/user.controller.js:194-241 | as written: 401 without a token, 500 with one (the `jwt` reference at line 203 is unbound), never 200 |
| `UserController.RefreshWithJwtBound` | src/controllers/user.controller.js:203-216 | with `jwt` bound: 500 on a failed verification, 403 for an unknown user, and 401 otherwise, since `user?.refreshToken` is always undefined; never 200 |
| `AuthMiddleware.ExtractToken` | src/middlewares/auth.middleware.js:7 | a non-empty `accessToken` cookie wins over the header; otherwise a header `"Bearer " + t` yields `t`; with neither, there is no token |
| `AuthMiddleware.HeaderLosesFirstBearer` | src/middlewares/auth.middleware.js:7 | without a cookie, the token is the header with its first `"Bearer "` removed, wherever it occurs |
| `AuthMiddleware.AuthGate` | src/middlewares/auth.middleware.js:9-20 | someone is admitted exactly when the token is present, verifies with the access secret and names the id of a stored record, and then the admitted record has that id |
| `AuthMiddleware.VerifyJwt` | src/middlewares/auth.middleware.js:5-28 | calls `next` exactly once and sets `req.user` to the public view of the admitted record on success; on every failure it calls `next` zero times and leaves `req.user` unset |
| `AuthMiddleware.GateAdmitsAccessTokenHolder` | src/middlewares/auth.middleware.js:14-23 | an access token issued for a stored record, sent as the cookie, admits exactly that record |
| `AuthMiddleware.GateAdmitsBearerHolder` | src/middlewares/auth.middleware.js:7-23 | the same token sent as `Authorization: Bearer <token>` with no usable cookie admits exactly that record |
| `AuthMiddleware.GateRejectsRefreshToken` | src/middlewares/auth.middleware.js:14 | with separate secrets, a refresh token used as the access cookie admits nobody |
| `ApiRoutes.Logout` | src/routes/api.route.js:11 | an unauthenticated `/logout` gets no response and leaves `req.user` alone; an authenticated one replies 200 with `req.user` set to the caller's view |
| `Scenarios.RecoveryLocksAccountOut` | src/models/user.model.js:42-47 | register, login, wrong login, forgot and reset give 201, 201, 401, 200 and 200; afterwards login fails with 401 for the old and the new password, and only the text of `H(newPassword)` logs in (201) |
| `Scenarios.OtpExpiryBoundary` | src/controllers/user.controller.js:99-146 | an OTP is refused at exactly issue time + 5 minutes and accepted 1 ms earlier, although the mail says 1 minute |
| `Scenarios.RefreshRightAfterLogin` | src/controllers/user.controller.js:12-13 | with `jwt` bound, the refresh token from the login just made is refused with 401 |
| `Scenarios.GatedLogout` | src/routes/api.route.js:11 | `/logout` with the access token from login answers 200 by cookie and by Bearer header, and gives no response without a token |

## Behaviour as written

The model follows the code in each of these places. Each divergence is visible in a
contract or a scenario.

- Password reset hashes twice. `updatePassword` stores `H(newPassword)` and marks the
  path modified, so the pre-save hook stores `H(H(newPassword))`. Neither the new nor the
  old password verifies against that digest. The only string that does is the text of
  the intermediate digest `H(newPassword)`, which is never stored, returned or logged
  (line 154 logs the method's undefined result) and carries a fresh random salt. So
  after a reset the account is in effect locked
  (`Crypto.DoubleHashVerifiesOnlyIntermediate`, `Scenarios.RecoveryLocksAccountOut`),
  although the evident intent is that the new password works.
- `loginUser` calls `isPasswordCorrect` on the looked-up user before testing it for
  null. An unknown email therefore ends in an escaped error (`Unhandled`), not in 401. A
  wrong email and a wrong password are therefore distinguishable from outside.
- `refreshToken` is not declared in the schema. Login never stores it and logout's
  `$unset` does nothing.
- `refreshAccessToken` uses `jwt` without importing it, so it answers 500 to every
  request that carries a token. It is also not routed. `RefreshWithJwtBound` models the
  rest of its body. There `user?.refreshToken` is always undefined, so every token for a
  stored user is refused with 401 and lines 218-234 are never reached. Those lines
  would also destructure `newRefreshToken` where the helper returns `refreshToken`,
  leaving the reply's refresh token undefined.
- The OTP lives 5 minutes. The comment and the mail text both say 1 minute.
- `registerUser` replies with the created record, including its password hash.
  `select("-password -refreshToken")` keeps `otp`, so the login reply and `req.user`
  carry any pending OTP.
- `verifyJWT` swallows every failure. The request then gets neither `next` nor a
  response; the request is left hanging rather than refused.

## Left out

- Express, cookie-parser, app start-up and the MongoDB connection (index.js, app.js,
  src/db/index.js) are wiring with no logic to state.
- Store errors are not modelled, since store operations always succeed. The catch
  blocks at user.controller.js:121-126 and 159-164 therefore never run in the model. The
  catch at user.controller.js:43-46 is reached only through the schema's required check
  on `name`, which `RegisterUser` answers with its 500.
- Concurrent requests are not modelled; each handler runs to completion alone.
- bcrypt's salt and cost factor, and its 72-byte input limit: hashing is a
  deterministic, collision-free term.
- The JWT algorithm, expiry enforcement and the `iat` claim: `sign` is deterministic in
  its payload, secret and expiry.
- Lines 218-234 of `refreshAccessToken` (cookie options and token rotation) are not
  modelled: no request reaches them, as `RefreshWithJwtBound` states.
- Floating-point rounding of `Math.random()` arithmetic: the draw is a real number.
- The mail transport (src/utils/mailService.js): it is a boolean saying whether sending
  succeeded. The attempted message is returned.
- Request fields are strings or absent. JSON objects or numbers in a field are not
  modelled. In particular, a query-operator object passed as `otp` or `email` to
  `findOne` is not modelled.
- Cookie options, clearing cookies, response messages and console logging. Tokens are
  returned as values rather than set as cookies.
- The `createdAt`/`updatedAt` timestamps that `timestamps: true` adds.
- MongoDB ObjectIds are natural numbers handed out by a counter.
