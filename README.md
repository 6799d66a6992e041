# Credential lifecycle and guidance categories, in Dafny

This project models two parts of an Express/Mongoose backend.

The first is its authentication service. It has ten flows: login, issuing and confirming an email-verification OTP, the two password-reset paths (reset link, and OTP challenge) that both end in `resetPassword`, change password, refresh token, and soft delete. Each flow is a guard chain over one user record, followed by at most one write to that record.

The second is the guidance-category table: create, update, scenario rewrite, soft delete, and the start-up rule that seeds five default categories into an empty table.

Layout:

- `base.dfy` holds the error surface. `AppError(status, reason)` pairs an HTTP status class with the guard that fired; `TokenRejected` is the exception `jwt.verify` throws.
- `crypto.dfy` abstracts bcrypt. `Hash` is an injective stand-in, and `Compare(p, Hash(q))` holds exactly when `p == q`.
- `tokens.dfy` abstracts jsonwebtoken. A token records the secret it was signed with (`Access`, `Refresh`, `PasswordReset`, `ForgotPass`), its claims, and its `iat`. Verifying succeeds exactly when the secret matches.
- `users.dfy` holds the user record and the user-model lookups the flows call: `isUserExistByEmail`, `isUserExistById` and the watermark test `passwordChangedAt > iat`.
- `auth_flows.dfy` defines each flow as a function from the store before a request to the result and the store after it.
- `auth_service.dfy` holds the class `UserStore`, whose methods run the same guard chains and update a `map<Email, UserRecord>` in place. The methods are the in-place twins of the `AuthFlows` functions: each repeats its flow's guard chain as statements and is proved to yield the same result and new store.
- `auth_properties.dfy` proves what holds across requests:
  - the round trips through the verification and reset paths;
  - OTPs are one-shot, and only the latest one verifies, on both the verify-email and the reset-OTP path;
  - the invalidation watermark rejects older tokens;
  - deleted or blocked accounts complete no login, confirmation, reset request, reset, change or refresh. `sendOtpForVerifyEmail` is the exception: it succeeds for them and overwrites their OTP hash.
- `category_service.dfy` holds the guard functions and the class `CategoryTable`.
- `category_seed.dfy` holds the seeding rule and the induction on sequential insertion.

The model follows the code as written, including these details:

- The verify-email token and the final reset token are both signed with the password-reset secret. So `resetPassword` accepts the token `sendOtpForVerifyEmail` returns at auth.service.ts:115 (`VerifyEmailTokenResetsPassword`).
- The reset-link token is signed with the forgot-password secret, and `resetPassword` rejects it (`LinkTokenRejectedByReset`). `verifyOtp` does accept it, but the placeholder `123` that the link flow stores matches no OTP (`LinkPlaceholderMatchesNoOtp`). `verifyOtp` never reads the token's `otp` claim, so a reset-link token passes `verifyOtp` together with an OTP issued later by `forgotPassword` (`LinkTokenAcceptsLaterOtp`).
- `verifyUser` checks for a missing OTP before it checks deleted or blocked. `verifyOtp` checks deleted or blocked first.
- `refreshToken` issues `{ userId: email, role }`, not the login claims.
- `updateCategory` and `deleteCategory` answer a missing id with Forbidden. `updateScenarioInCategory` answers it with NotFound.

Decisions where the code leaves a choice open:

- `isUserExistByEmail` and `isUserExistById` fail NotFound when the record is absent, then Forbidden when it is deleted, then Forbidden when it is blocked.
- `sendOtpForVerifyEmail` never fails. When no record has that email, its write changes nothing.
- A second `deleteMe` fails with Forbidden, because the id lookup refuses deleted records.
- `fcmToken` is written at login only when the supplied value is non-empty, which is JavaScript truthiness.
- Times are integers in a single unit (see "## Left out" for the conversion this hides). `now` takes the place of `new Date()`, and a token's `iat` is the `now` of the flow that signed it.
- The OTP is a parameter, replacing `generateOTP`. The super admin's id is a parameter, replacing `getSupperAdmin`.

## Model

| member | source | states |
|---|---|---|
| Crypto.Hash | src/app/modules/base/auth/auth.service.ts:92 | every stored hash carries the bcrypt tag, so no hash is empty |
| Crypto.Compare | src/app/modules/base/auth/auth.service.ts:40-43 | only a tagged hash can match a plain text |
| Crypto.CompareHash | src/app/modules/base/auth/auth.service.ts:40-47 | comparing a plain text with the stored hash of another succeeds exactly when the two are equal |
| Tokens.Sign | src/app/modules/base/auth/auth.service.ts:67-82 | a signed token verifies under its own secret with the claims and issue time it was signed with, and is rejected under every other secret |
| Tokens.Verify | src/app/modules/base/auth/auth.service.ts:121-124 | verification returns the token exactly when it was signed with the expected secret, and is rejected otherwise |
| Tokens.EmailClaim | src/app/modules/base/auth/auth.service.ts:121-129 | the email claim is present for every claim shape except the refresh-issued userId/role one, and is the email signed in |
| Tokens.DecodeEmail | src/app/modules/base/auth/auth.service.ts:121-129 | the email is recovered exactly when the secret matches and the claims carry an email |
| Users.ExistsByEmail | src/app/modules/base/auth/auth.service.ts:317 | succeeds with the stored record exactly when it exists and is neither deleted nor blocked; NotFound exactly when it is absent, Forbidden otherwise |
| Users.EmailOfId | src/app/modules/base/auth/auth.service.ts:441 | finds the email under which the record with the id is filed, and none exactly when no record has that id |
| Users.ExistsById | src/app/modules/base/auth/auth.service.ts:441 | succeeds exactly when a record with that id exists and is neither deleted nor blocked, returning that record; NotFound exactly when no record has the id, Forbidden when one exists but is deleted or blocked |
| Users.IssuedBeforePasswordChanged | src/app/modules/base/auth/auth.service.ts:319-327 | a token is refused exactly when issued strictly before the password change; one issued at the same instant passes |
| Users.Stale | src/app/modules/base/auth/auth.service.ts:412-420 | a record whose password never changed refuses no token, and a refused issue time refuses every earlier one |
| AuthFlows.LoginUser | src/app/modules/base/auth/auth.service.ts:22-85 | eligibility failures come before the password check; a wrong password is Forbidden with the store unchanged; on success the device token is stored only when supplied, and the access and refresh tokens carry id, email and role of the stored record |
| AuthFlows.SendOtpForVerifyEmail | src/app/modules/base/auth/auth.service.ts:88-117 | never fails; it replaces the stored OTP hash with the new OTP's hash when the record exists, leaves the store unchanged otherwise, and returns a password-reset-secret token naming the email |
| AuthFlows.VerifyUserGuard | src/app/modules/base/auth/auth.service.ts:119-156 | fails exactly in order: bad token, NotFound, already verified (Forbidden), no OTP (BadRequest), deleted, blocked (Forbidden), OTP mismatch (BadRequest); it succeeds exactly when all checks pass |
| AuthFlows.VerifyUser | src/app/modules/base/auth/auth.service.ts:158-165 | any failure leaves the store unchanged; success sets verified and clears the OTP hash, and touches nothing else |
| AuthFlows.ForgotPasswordLink | src/app/modules/base/auth/auth.service.ts:168-201 | the lookup's failure is returned with the store unchanged; success returns a forgot-password-secret token naming the email, and stores the placeholder in the OTP field |
| AuthFlows.ForgotPassword | src/app/modules/base/auth/auth.service.ts:203-238 | the lookup's failure is returned with the store unchanged; success stores the new OTP's hash and embeds that same hash in the forgot-password token |
| AuthFlows.VerifyOtpGuard | src/app/modules/base/auth/auth.service.ts:240-281 | fails exactly in order: bad token, NotFound, not verified, deleted, blocked (Forbidden), no OTP, OTP mismatch (BadRequest); it succeeds exactly when all checks pass |
| AuthFlows.VerifyOtp | src/app/modules/base/auth/auth.service.ts:283-305 | any failure leaves the store unchanged; success clears the OTP hash and returns a password-reset-secret token carrying only the email |
| AuthFlows.ResetPasswordGuard | src/app/modules/base/auth/auth.service.ts:308-338 | fails in order: bad token, the lookup's failure, Unauthorized when the watermark postdates the token, BadRequest when the confirmation differs |
| AuthFlows.ResetPassword | src/app/modules/base/auth/auth.service.ts:340-355 | any failure leaves the store unchanged; success stores the new password's hash, clears the OTP hash and stamps the watermark with now |
| AuthFlows.ChangePassword | src/app/modules/base/auth/auth.service.ts:358-398 | the lookup's failure, then a wrong old password, then a mismatched confirmation, each Forbidden with the store unchanged; success stores the new hash and stamps the watermark |
| AuthFlows.RefreshToken | src/app/modules/base/auth/auth.service.ts:400-438 | fails on a bad token, on the lookup's failure, or Unauthorized on a stale token; success is an access token with claims userId set to the email, and role |
| AuthFlows.DeleteMe | src/app/modules/base/auth/auth.service.ts:440-446 | the id lookup's failure leaves the store unchanged; success sets the deleted flag on that record only, and the record stays |
| AuthService.UserStore.LoginUser | src/app/modules/base/auth/auth.service.ts:22-85 | the in-place login yields the result and new store of the login flow, and keeps the store well formed |
| AuthService.UserStore.SendOtpForVerifyEmail | src/app/modules/base/auth/auth.service.ts:88-117 | the in-place OTP issuance yields the result and new store of its flow |
| AuthService.UserStore.VerifyUser | src/app/modules/base/auth/auth.service.ts:119-166 | the in-place guard chain and write yield the result and new store of the email-confirmation flow |
| AuthService.UserStore.ForgotPasswordLink | src/app/modules/base/auth/auth.service.ts:168-201 | the in-place reset-link flow yields its result and new store |
| AuthService.UserStore.ForgotPassword | src/app/modules/base/auth/auth.service.ts:203-238 | the in-place reset-OTP issuance yields its result and new store |
| AuthService.UserStore.VerifyOtp | src/app/modules/base/auth/auth.service.ts:240-306 | the in-place guard chain and write yield the result and new store of the reset-OTP check |
| AuthService.UserStore.ResetPassword | src/app/modules/base/auth/auth.service.ts:308-356 | the in-place reset yields the result and new store of the reset flow |
| AuthService.UserStore.ChangePassword | src/app/modules/base/auth/auth.service.ts:358-398 | the in-place change yields the result and new store of the change flow |
| AuthService.UserStore.RefreshToken | src/app/modules/base/auth/auth.service.ts:400-438 | reads the store without writing, and returns the refresh flow's result |
| AuthService.UserStore.DeleteMe | src/app/modules/base/auth/auth.service.ts:440-446 | the in-place soft delete yields the result and new store of its flow |
| AuthProperties.LoginWrongPassword | src/app/modules/base/auth/auth.service.ts:39-47 | every wrong password for an eligible account is Forbidden, and nothing is written, not even the device token |
| AuthProperties.LoginThenRefresh | src/app/modules/base/auth/auth.service.ts:76-82 | a login's refresh token buys an access token exactly when no password change postdates the login; that token carries userId and role, not the login claims |
| AuthProperties.VerifyEmailRoundTrip | src/app/modules/base/auth/auth.service.ts:107-165 | issuing an OTP and confirming it with the returned token succeeds exactly for an existing, unverified, eligible account and the latest OTP; any other code is BadRequest |
| AuthProperties.VerifyUserOneShot | src/app/modules/base/auth/auth.service.ts:135-137 | after a successful confirmation, repeating it with the same token is Forbidden, whatever code is sent |
| AuthProperties.OtpResetPath | src/app/modules/base/auth/auth.service.ts:203-356 | the reset-OTP request, its confirmation and the reset all succeed for a verified, eligible account; afterwards the new password logs in and the OTP is cleared |
| AuthProperties.VerifyOtpOneShot | src/app/modules/base/auth/auth.service.ts:272-274 | after a successful reset-OTP confirmation, repeating it with the same token is BadRequest (OTP not found), whatever code is sent |
| AuthProperties.ForgotPasswordWrongOtp | src/app/modules/base/auth/auth.service.ts:279-281 | after a reset-OTP request, any code other than the one just issued is BadRequest, with nothing written |
| AuthProperties.LinkTokenRejectedByReset | src/app/modules/base/auth/auth.service.ts:176-178 | the reset-link token is refused by the reset step, whatever the store holds |
| AuthProperties.LinkPlaceholderMatchesNoOtp | src/app/modules/base/auth/auth.service.ts:191-195 | after a reset-link request, every OTP confirmation fails BadRequest against the stored placeholder |
| AuthProperties.LinkTokenAcceptsLaterOtp | src/app/modules/base/auth/auth.service.ts:240-305 | the reset-link token, with the OTP of a later reset-OTP request, passes the reset-OTP check, because that check never reads the token's otp claim |
| AuthProperties.VerifyEmailTokenResetsPassword | src/app/modules/base/auth/auth.service.ts:99-101 | the verify-email token, signed with the password-reset secret, is accepted by the reset step and sets the account's password |
| AuthProperties.ResetConfirmMismatch | src/app/modules/base/auth/auth.service.ts:336-338 | a reset whose new password and confirmation differ is BadRequest, and nothing is written |
| AuthProperties.StaleTokenRefused | src/app/modules/base/auth/auth.service.ts:319-327 | a token issued before the last password change is Unauthorized for both reset and refresh, and nothing is written |
| AuthProperties.ResetInvalidatesEarlierTokens | src/app/modules/base/auth/auth.service.ts:347-355 | after a reset at time now, every refresh or reset token for that account issued before now is Unauthorized |
| AuthProperties.ChangePasswordThenLogin | src/app/modules/base/auth/auth.service.ts:386-395 | after a change, the new password logs in, any other password is Forbidden, and older refresh tokens are Unauthorized |
| AuthProperties.ChangePasswordConfirmMismatch | src/app/modules/base/auth/auth.service.ts:380-385 | a correct old password with a mismatched confirmation is Forbidden, with the store unchanged |
| AuthProperties.IneligibleNeverCompletes | src/app/modules/base/auth/auth.service.ts:143-151 | a deleted or blocked account completes no login, confirmation, reset request, reset, change or refresh |
| AuthProperties.DeleteMeNotRepeatable | src/app/modules/base/auth/auth.service.ts:440-446 | a soft delete keeps the record and flags it deleted; a second delete is Forbidden, and login is Forbidden |
| CategoryService.NewCategory | src/app/modules/contextual/_GUIDANCE/category/category.service.ts:14 | a created category starts undeleted |
| CategoryService.ApplyPatch | src/app/modules/contextual/_GUIDANCE/category/category.service.ts:28-30 | an update keeps the deleted flag, and an empty patch changes nothing |
| CategoryService.UpdateGuard | src/app/modules/contextual/_GUIDANCE/category/category.service.ts:18-26 | a missing id is Forbidden (not NotFound), a deleted category is Forbidden, and it succeeds exactly otherwise |
| CategoryService.ScenarioGuard | src/app/modules/contextual/_GUIDANCE/category/category.service.ts:41-49 | a missing id is NotFound, a deleted category is Forbidden, and it succeeds exactly otherwise |
| CategoryService.DeleteGuard | src/app/modules/contextual/_GUIDANCE/category/category.service.ts:60-67 | a missing id is Forbidden, an already deleted category is Forbidden (already deleted), and it succeeds exactly otherwise |
| CategoryService.DeleteNotRepeatable | src/app/modules/contextual/_GUIDANCE/category/category.service.ts:59-78 | after a soft delete the category stays, and a second delete, an update or a scenario rewrite is refused |
| CategoryService.CategoryTable.CreateCategory | src/app/modules/contextual/_GUIDANCE/category/category.service.ts:10-15 | inserts the payload under a fresh id only when the admin passes the id lookup; otherwise it returns that error and leaves the table unchanged |
| CategoryService.CategoryTable.UpdateCategory | src/app/modules/contextual/_GUIDANCE/category/category.service.ts:17-33 | refused by its guards with the table unchanged; otherwise only that category changes, to the patch applied |
| CategoryService.CategoryTable.UpdateScenarioInCategory | src/app/modules/contextual/_GUIDANCE/category/category.service.ts:35-57 | refused by its guards with the table unchanged; otherwise only that category's scenario list is rewritten |
| CategoryService.CategoryTable.DeleteCategory | src/app/modules/contextual/_GUIDANCE/category/category.service.ts:59-78 | refused by its guards with the table unchanged; otherwise only that category is flagged deleted, and it stays |
| CategorySeed.DefaultCategories | src/app/modules/contextual/_GUIDANCE/category/category.const.ts:18-69 | five payloads in the listed order, each with its listed name, owned by the given admin, with three scenarios |
| CategorySeed.InsertAll | src/app/modules/contextual/_GUIDANCE/category/category.const.ts:71-75 | inserting a list of payloads one after another never removes an existing category |
| CategorySeed.InsertAllSpec | src/app/modules/contextual/_GUIDANCE/category/category.const.ts:71-75 | sequential inserts under fresh ids keep every existing category, add exactly one id per item, and store each item as created |
| CategorySeed.SeededTable | src/app/modules/contextual/_GUIDANCE/category/category.const.ts:18-69 | seeding an empty table gives exactly five categories with the listed names; each is owned by the super admin, has three scenarios and is not deleted |
| CategorySeed.DefaultGuidanceCategory | src/app/modules/contextual/_GUIDANCE/category/category.const.ts:8-78 | a non-empty table is left alone; an empty one receives all five defaults when the super admin passes the lookup, and none otherwise |

## Left out

- Salting and the cost factor of bcrypt are not modelled; hashing is an injective function.
- Signature cryptography and token expiry are not modelled. A token is accepted when its secret matches, whatever its age.
- Outgoing mail (`sendEmail`, `sendEmailWithLink`, `otpMailTemplate`) is not modelled, and neither are its failures. `forgotPassword` awaits `sendEmail` after storing the new OTP hash (auth.service.ts:229-235), so a failed send rejects the request with the hash already written. `AuthFlows.ForgotPassword` cannot produce that outcome. `generateOTP` randomness is a parameter.
- The clock is not modelled. `now` is an unconstrained parameter, so a reset or change with an earlier `now` moves `passwordChangedAt` back. No lemma states that `passwordChangedAt` never decreases, because in the model it can.
- The conversion between a token's `iat` (whole seconds, as jsonwebtoken writes it) and `passwordChangedAt` (a `new Date()`, auth.service.ts:352, :394) is not modelled: `isJWTIssuedBeforePasswordChanged` is not part of this model and its rounding is unknown. Both are integers of one unit here, so the same-instant edge of `Users.IssuedBeforePasswordChanged` (a token issued at the change instant passes) is a property of the model's predicate, not one read from the source.
- Field projections are not modelled. Login without a device token returns the document selected with `+password` (auth.service.ts:25-27, :50). The `fcmToken` path (:52-56) and `resetPassword` (:347) return the default projection. The model always returns the whole `UserRecord`.
- `getSupperAdmin()` is not modelled; the super admin's id is a parameter. In the source it runs, and `admin._id` is read, before the emptiness check (category.const.ts:9-12). A missing super admin therefore aborts seeding even on a non-empty table, where `DefaultGuidanceCategory` returns `Success(())`.
- A decoded token without an `email` claim is rejected. Only the `{ userId, role }` shape lacks one. It is signed with the access secret, which none of these flows verifies against.
- The status that `jwt.verify` failures reach the client with is set by an error handler that is not part of this model. The model reports them as `TokenRejected`.
- The user model (`isUserExistByEmail`, `isUserExistById`, `isJWTIssuedBeforePasswordChanged`) is not part of this model. Its helpers follow the contract stated above.
- `getCategory` and its query builder are not modelled: they only read, and their behaviour is not part of this model.
- `CategoryService.CategoryTable.UpdateScenarioInCategory`: the array-field updater is not part of this model. It is a function parameter, so the contract says only that the new scenario list is whatever that updater returns.
- `CategoryService.CategoryTable.UpdateCategory`: an update patch carries the four payload fields only. A payload that sets `isDeleted` itself is not modelled.
- The concurrent `Promise.all` in seeding is modelled as sequential inserts.
- Concurrent requests against the same record are not modelled; each flow runs alone.
- The route files, server start-up and the chat schema are not modelled: they are wiring and declarations, with no behaviour of this core.
