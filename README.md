# Account and session lifecycle of turbo-nest-next-auth-starter

This project models the authentication core of a NestJS API and its Next.js client, and proves properties of the model.

On the API side:

- **User store (`UserService`).** Holds the `user` table. It creates accounts and updates their verification, refresh-token, reset-token, password, profile, terms and newsletter fields.
- **`AuthService`.** Runs the lifecycle on top of the store:
  - local and Google registration;
  - email verification and resending it;
  - sign-in, refresh-token rotation and sign-out;
  - forgotten and changed passwords;
  - profile updates;
  - newsletter unsubscribe.
- **`GoogleStrategy.validate`.** Turns a Google profile into a session payload.
- **`RolesGuard`.** Admits a request only when the user holds a required role.

On the web side:

- **`middleware`.** Decides, per route, whether to redirect or continue.
- **`ApiError` / `handleApiResponse`.** Build the client-side API error.
- **Auth store (zustand).** Tracks who is signed in.

## Layout

- `accounts.dfy` (`Accounts`): the account record, the table `map<UserId, Account>`, the password digest, the HTTP errors, and the table invariant `Valid`. The invariant requires:
  - every row is keyed by its id;
  - email and username are unique;
  - a pending verification token and a pending reset token each belong to at most one row;
  - a token and its expiry are set together or not at all;
  - a verified account has no pending verification token;
  - the terms date is set exactly when terms are accepted.
- `user_table.dfy` (`UserTable`): each store operation as a function from a table to a result and the new table.
- `user_service.dfy` (`UserService.UserStore`): a class whose `accounts` field the methods update in place. Each method is proved to result in exactly what the `UserTable` function says.
- `auth_lifecycle.dfy` (`AuthLifecycle`): each `AuthService` operation as a function of the table. Each contract states the error conditions in the source's order, the new table, and that `Valid` is preserved.
- `auth_service.dfy` (`AuthService.AuthService`): the service class over a `UserStore`. It performs the source's steps one call at a time and is proved equal to the `AuthLifecycle` functions.
- `auth_properties.dfy` (`AuthProperties`): properties that span several calls:
  - register, then verify, then sign in;
  - verification and reset tokens work once;
  - refresh tokens rotate;
  - sign-out ends the session;
  - password replacement;
  - Google sign-in and the terms step.
- `google_strategy.dfy`, `roles_guard.dfy`, `middleware.dfy`, `api_error.dfy`, `web_session.dfy`, `auth_store.dfy`: the remaining components, each as a pure function except the auth store, which is a class with a `Valid` invariant (`isAuthenticated` exactly when a user is held).

## Modelling decisions

- **Hashing.** argon2 becomes the injective digest `Hash(p) = "$argon2id$" + p`, and `verify(h, p)` becomes `h == Hash(p)`. `HashInjective` proves that a digest verifies exactly its own input. Because the digest is injective, the double hashing of a Google account's random password shows up in the model.
- **Collaborators become inputs.** The clock (`now`, in milliseconds), freshly generated random tokens and ids, the reCAPTCHA verdict (`captchaOk`), the email outcome (`Mail`), the signed JWT pair (`TokenPair`) and the result of verifying an unsubscribe JWT (`Result<UnsubscribeClaims, string>`) are all parameters.
- **Fresh tokens.** A new random token is assumed not to be pending on any row. The `AuthService` methods that mint one require this.
- **Expiry.** A stored expiry is past when it is missing or strictly earlier than `now`.
- **Store errors.** A store update on a missing row raises `InternalServerError` with that operation's message. The one exception is `updateHashedRefreshToken`, which has no `catch`; it raises Prisma's plain `Record to update not found.` error (`PlainError`).

Four behaviours of the code a reader might not expect, which the model follows:

- A local sign-in by an unverified account is refused with "Email not verified…" before the password is checked.
- Replaying a used verification token gives "Invalid verification token"; its "Email already verified" answer is unreachable while `Valid` holds.
- Resending verification to an unknown email gives `Unauthorized("User not found")`.
- `forgotPassword` answers uniformly only when the mail goes out. If sending fails, a known email gets the send error; `ForgotPasswordSendFailureDiffers` states this.

## Model

| member | source | states |
|---|---|---|
| Accounts.Hash | apps/api/src/user/user.service.ts:39 | the stored digest is the argon2 digest of the password, modelled as an injective digest |
| Accounts.HashInjective | apps/api/src/auth/auth.service.ts:207 | a digest verifies against a password exactly when it is that password's digest |
| UserTable.FindByEmail | apps/api/src/user/user.service.ts:113-140 | None exactly when no row has the email; otherwise a row with that email, and under the invariant that row |
| UserTable.FindByUsername | apps/api/src/user/user.service.ts:142-172 | None exactly when no row has the username; otherwise, under the invariant, the row holding it |
| UserTable.FindByUserId | apps/api/src/user/user.service.ts:174-201 | the row stored under the id, None when absent |
| UserTable.FindByVerificationToken | apps/api/src/user/user.service.ts:77-91 | None exactly when no row has the pending token; otherwise, under the invariant, that row |
| UserTable.FindByPasswordResetToken | apps/api/src/user/user.service.ts:233-247 | None exactly when no row has the pending reset token; otherwise, under the invariant, that row |
| UserTable.NewAccount | apps/api/src/user/user.service.ts:26-50 | the inserted row: the password hashed, emailVerified and newsletterOptIn false unless given true, termsAcceptedAt set iff terms accepted, role USER, no session and no reset token |
| UserTable.Create | apps/api/src/user/user.service.ts:18-56 | fails, changing nothing, exactly when the id, email or username is taken; otherwise adds only the new row and keeps the invariant when tokens are fresh |
| UserTable.MarkEmailAsVerified | apps/api/src/user/user.service.ts:58-75 | sets emailVerified and clears both verification fields together; every other field and row unchanged; missing row is an InternalServerError |
| UserTable.UpdateVerificationToken | apps/api/src/user/user.service.ts:93-111 | sets the verification token and its expiry together; nothing else changes |
| UserTable.UpdateHashedRefreshToken | apps/api/src/user/user.service.ts:203-211 | changes only the refresh digest (None allowed); a missing row is Prisma's plain error |
| UserTable.UpdatePasswordResetToken | apps/api/src/user/user.service.ts:213-231 | sets the reset token and its expiry together; nothing else changes |
| UserTable.UpdatePassword | apps/api/src/user/user.service.ts:249-263 | replaces the password and clears both reset fields in one update |
| UserTable.ApplyPatch | apps/api/src/user/user.service.ts:265-283 | only the supplied profile fields change |
| UserTable.UpdateProfile | apps/api/src/user/user.service.ts:265-283 | succeeds exactly when the row exists and no other row holds the new username; then only the supplied fields change |
| UserTable.UpdateTermsAcceptance | apps/api/src/user/user.service.ts:285-306 | termsAcceptedAt is set iff accepted; records the newsletter choice; nothing else changes |
| UserTable.UpdateNewsletterPreference | apps/api/src/user/user.service.ts:308-337 | NotFound exactly when no row has the email; otherwise only that row's newsletterOptIn changes |
| UserService.UserStore.constructor | apps/api/src/user/user.service.ts:16 | an empty table satisfying the invariant |
| UserService.UserStore.Create | apps/api/src/user/user.service.ts:18-56 | the in-place insert produces the result and table of UserTable.Create |
| UserService.UserStore.MarkEmailAsVerified | apps/api/src/user/user.service.ts:58-75 | the in-place update equals UserTable.MarkEmailAsVerified |
| UserService.UserStore.FindByVerificationToken | apps/api/src/user/user.service.ts:77-91 | returns the row UserTable.FindByVerificationToken describes |
| UserService.UserStore.UpdateVerificationToken | apps/api/src/user/user.service.ts:93-111 | the in-place update equals UserTable.UpdateVerificationToken |
| UserService.UserStore.FindByEmail | apps/api/src/user/user.service.ts:113-140 | returns the row UserTable.FindByEmail describes |
| UserService.UserStore.FindByUsername | apps/api/src/user/user.service.ts:142-172 | returns the row UserTable.FindByUsername describes |
| UserService.UserStore.FindByUserId | apps/api/src/user/user.service.ts:174-201 | returns the row stored under the id |
| UserService.UserStore.UpdateHashedRefreshToken | apps/api/src/user/user.service.ts:203-211 | the in-place update equals UserTable.UpdateHashedRefreshToken |
| UserService.UserStore.UpdatePasswordResetToken | apps/api/src/user/user.service.ts:213-231 | the in-place update equals UserTable.UpdatePasswordResetToken |
| UserService.UserStore.FindByPasswordResetToken | apps/api/src/user/user.service.ts:233-247 | returns the row UserTable.FindByPasswordResetToken describes |
| UserService.UserStore.UpdatePassword | apps/api/src/user/user.service.ts:249-263 | the in-place update equals UserTable.UpdatePassword |
| UserService.UserStore.UpdateProfile | apps/api/src/user/user.service.ts:265-283 | the in-place update equals UserTable.UpdateProfile |
| UserService.UserStore.UpdateTermsAcceptance | apps/api/src/user/user.service.ts:285-306 | the in-place update equals UserTable.UpdateTermsAcceptance |
| UserService.UserStore.UpdateNewsletterPreference | apps/api/src/user/user.service.ts:308-337 | the in-place update equals UserTable.UpdateNewsletterPreference |
| AuthLifecycle.GenerateToken | apps/api/src/auth/auth.service.ts:65-86 | both token helpers: the token expires expiryHours after now, so it is live at every later moment up to that point and expired after it |
| AuthLifecycle.MapUserToResponse | apps/api/src/auth/auth.service.ts:91-113 | the user fields always; both tokens only when asked to include them and given some, otherwise none |
| AuthLifecycle.ValidateUniqueUserFields | apps/api/src/auth/auth.service.ts:47-60 | Conflict on the email exactly when it is taken; Conflict on the username exactly when the email is free and the username taken |
| AuthLifecycle.RegistrationDraft | apps/api/src/auth/auth.service.ts:139-148 | the create request with the client's emailVerified removed (corrected) |
| AuthLifecycle.RegistrationDraftAsWritten | apps/api/src/auth/auth.service.ts:139-148 | the create request carries the client's emailVerified unchanged |
| AuthLifecycle.RegisterUser | apps/api/src/auth/auth.service.ts:119-164 | errors in order (email, username, CAPTCHA, terms) with no row created; on success only the new row built from the corrected request RegistrationDraft (so unverified even when the body carries `emailVerified: true`, unlike the code as written), with a 24-hour token and the password digest, a tokenless response, the invariant kept |
| AuthLifecycle.ValidateLocalUser | apps/api/src/auth/auth.service.ts:196-212 | Unauthorized for unknown email, then unverified, then wrong password; success exactly for a verified row whose digest matches |
| AuthLifecycle.LoginUser | apps/api/src/auth/auth.service.ts:167-193 | refused when the id is unknown or unverified; otherwise only the row's refresh digest is replaced by that of the new token, and both tokens are returned |
| AuthLifecycle.ValidateJwtUser | apps/api/src/auth/auth.service.ts:215-220 | the row's profile, or Unauthorized exactly when the id is unknown |
| AuthLifecycle.ValidateRefreshToken | apps/api/src/auth/auth.service.ts:233-243 | accepted exactly when the stored digest is the presented token's digest; distinct errors for unknown user, no digest and mismatch |
| AuthLifecycle.RefreshToken | apps/api/src/auth/auth.service.ts:246-256 | overwrites only the refresh digest with the new token's; a missing row is Prisma's plain error with the table unchanged |
| AuthLifecycle.SignOut | apps/api/src/auth/auth.service.ts:596-598 | only the refresh digest is cleared |
| AuthLifecycle.OAuthDraft | apps/api/src/auth/auth.service.ts:284-290 | the Google create request: verified, terms not accepted, no newsletter, password the digest of the random password |
| AuthLifecycle.ValidateGoogleOAuthUser | apps/api/src/auth/auth.service.ts:263-303 | an existing row becomes verified with terms, newsletter, identity, password and session unchanged; otherwise a verified row without accepted terms is added; every failure is the one InternalServerError |
| AuthLifecycle.AcceptOAuthTerms | apps/api/src/auth/auth.service.ts:305-343 | refusal is BadRequest with nothing changed, before any lookup; unknown id NotFound; otherwise only terms (dated now) and the newsletter choice (default false) change |
| AuthLifecycle.VerifyEmail | apps/api/src/auth/auth.service.ts:350-373 | BadRequest without change for an empty, unknown or expired token; under the invariant success exactly for a live pending token, which marks that row verified and clears the token pair |
| AuthLifecycle.ResendVerificationEmail | apps/api/src/auth/auth.service.ts:376-403 | Unauthorized for unknown email, BadRequest if verified; otherwise the row's token pair is replaced by a 24-hour one, which stays stored even when sending fails |
| AuthLifecycle.ForgotPassword | apps/api/src/auth/auth.service.ts:410-440 | unknown email: the uniform message and no change; known email: only that row gets a one-hour reset token, and the mail outcome decides the answer |
| AuthLifecycle.ResetPassword | apps/api/src/auth/auth.service.ts:443-464 | BadRequest without change for an empty, unknown or expired token; under the invariant success exactly for a live token, storing the new digest and clearing the reset pair |
| AuthLifecycle.ChangeUserPassword | apps/api/src/auth/auth.service.ts:471-506 | NotFound for unknown id, Unauthorized for a wrong current password, both without change; success exactly when the row exists and the current password matches, and then only the password changes (and the reset pair is cleared) |
| AuthLifecycle.UpdateUserProfile | apps/api/src/auth/auth.service.ts:509-537 | under the invariant, it succeeds exactly when the row exists and no other row holds the requested username, and then only the patch's supplied fields of that row change; Conflict exactly when a non-empty requested username belongs to another id; any other failure is one InternalServerError with the table unchanged |
| AuthLifecycle.UnsubscribeFromNewsletter | apps/api/src/auth/auth.service.ts:573-593 | a rejected token or wrong purpose fails with no change; otherwise only the newsletterOptIn of the row with the embedded email turns off |
| AuthService.AuthService.constructor | apps/api/src/auth/auth.service.ts:32-40 | the service holds the given store |
| AuthService.AuthService.ValidateUniqueUserFields | apps/api/src/auth/auth.service.ts:47-60 | the two lookups give AuthLifecycle.ValidateUniqueUserFields |
| AuthService.AuthService.RegisterUser | apps/api/src/auth/auth.service.ts:119-164 | the step-by-step registration, creating the row from the corrected request RegistrationDraft, gives exactly AuthLifecycle.RegisterUser and keeps the store valid |
| AuthService.AuthService.ValidateLocalUser | apps/api/src/auth/auth.service.ts:196-212 | returns AuthLifecycle.ValidateLocalUser and changes nothing |
| AuthService.AuthService.LoginUser | apps/api/src/auth/auth.service.ts:167-193 | gives exactly AuthLifecycle.LoginUser and keeps the store valid |
| AuthService.AuthService.ValidateJwtUser | apps/api/src/auth/auth.service.ts:215-220 | returns AuthLifecycle.ValidateJwtUser |
| AuthService.AuthService.ValidateRefreshToken | apps/api/src/auth/auth.service.ts:233-243 | returns AuthLifecycle.ValidateRefreshToken |
| AuthService.AuthService.RefreshToken | apps/api/src/auth/auth.service.ts:246-256 | gives exactly AuthLifecycle.RefreshToken and keeps the store valid |
| AuthService.AuthService.SignOut | apps/api/src/auth/auth.service.ts:596-598 | gives exactly AuthLifecycle.SignOut |
| AuthService.AuthService.ValidateGoogleOAuthUser | apps/api/src/auth/auth.service.ts:263-303 | gives exactly AuthLifecycle.ValidateGoogleOAuthUser and keeps the store valid |
| AuthService.AuthService.AcceptOAuthTerms | apps/api/src/auth/auth.service.ts:305-343 | gives exactly AuthLifecycle.AcceptOAuthTerms |
| AuthService.AuthService.VerifyEmail | apps/api/src/auth/auth.service.ts:350-373 | gives exactly AuthLifecycle.VerifyEmail |
| AuthService.AuthService.ResendVerificationEmail | apps/api/src/auth/auth.service.ts:376-403 | gives exactly AuthLifecycle.ResendVerificationEmail |
| AuthService.AuthService.ForgotPassword | apps/api/src/auth/auth.service.ts:410-440 | gives exactly AuthLifecycle.ForgotPassword |
| AuthService.AuthService.ResetPassword | apps/api/src/auth/auth.service.ts:443-464 | gives exactly AuthLifecycle.ResetPassword |
| AuthService.AuthService.ChangeUserPassword | apps/api/src/auth/auth.service.ts:471-506 | gives exactly AuthLifecycle.ChangeUserPassword |
| AuthService.AuthService.UpdateUserProfile | apps/api/src/auth/auth.service.ts:509-537 | gives exactly AuthLifecycle.UpdateUserProfile |
| AuthService.AuthService.UnsubscribeFromNewsletter | apps/api/src/auth/auth.service.ts:573-593 | gives exactly AuthLifecycle.UnsubscribeFromNewsletter |
| AuthProperties.RegisteredAccountCannotSignIn | apps/api/src/auth/auth.service.ts:196-205 | right after registration, sign-in is refused as unverified whatever the password |
| AuthProperties.RegistrationIgnoresMail | apps/api/src/auth/auth.service.ts:150-160 | the registration's result and table do not depend on whether the email was sent |
| AuthProperties.RegisterVerifySignIn | apps/api/src/auth/auth.service.ts:350-373 | registering, following the link within 24 hours and signing in with the registered password succeeds |
| AuthProperties.VerificationLinkExpires | apps/api/src/auth/auth.service.ts:360-365 | the link followed after 24 hours is refused as expired and changes nothing |
| AuthProperties.VerificationTokenSingleUse | apps/api/src/auth/auth.service.ts:355-358 | a used verification token is afterwards an invalid token |
| AuthProperties.ResendStoresToken | apps/api/src/auth/auth.service.ts:386-395 | a resend replaces only that row's token pair, whatever happens to the email |
| AuthProperties.ResendRetiresPreviousToken | apps/api/src/auth/auth.service.ts:376-403 | after a resend the previous link is an invalid token |
| AuthProperties.ResentTokenVerifies | apps/api/src/auth/auth.service.ts:376-403 | the new link verifies the account within 24 hours |
| AuthProperties.SignInStartsSession | apps/api/src/auth/auth.service.ts:180-182 | after sign-in the issued refresh token is accepted and every other one refused |
| AuthProperties.RefreshRotatesSession | apps/api/src/auth/auth.service.ts:246-256 | after a refresh the new refresh token is accepted and the previous one refused |
| AuthProperties.SignOutEndsSession | apps/api/src/auth/auth.service.ts:596-598 | after sign-out every refresh token is refused as missing |
| AuthProperties.ForgotPasswordUniform | apps/api/src/auth/auth.service.ts:410-440 | when the mail goes out, every email gets the same answer |
| AuthProperties.ForgotPasswordSendFailureDiffers | apps/api/src/auth/auth.service.ts:410-440 | when sending fails, a known email gets the send error and an unknown one the uniform answer |
| AuthProperties.ResetPasswordReplacesPassword | apps/api/src/auth/auth.service.ts:443-464 | a live reset link makes the new password sign in, a different old one fail, and the link unusable again |
| AuthProperties.ChangePasswordReplacesPassword | apps/api/src/auth/auth.service.ts:471-506 | after a change the new password signs in and a different old one fails |
| AuthProperties.OAuthFirstSignInNeedsTerms | apps/api/src/auth/auth.service.ts:278-293 | a first Google sign-in gives a verified account without accepted terms; refusing terms changes nothing, accepting records them |
| AuthProperties.OAuthVerifiesExistingAccount | apps/api/src/auth/auth.service.ts:269-276 | Google sign-in to an existing account verifies it, so its own password then signs in |
| AuthProperties.OwnUsernameIsNoConflict | apps/api/src/auth/auth.service.ts:512-518 | submitting one's own username is never a conflict |
| AuthProperties.UnsubscribeIdempotent | apps/api/src/auth/auth.service.ts:573-593 | a second unsubscribe leaves the table as the first did |
| AuthProperties.AsWrittenRegistrationSelfVerifies | apps/api/src/auth/auth.service.ts:139-148 | with the body passed through, `emailVerified: true` yields an already verified row that breaks the row invariant and signs in without the email |
| GoogleStrategy.GoogleUser | apps/api/src/auth/strategies/google.strategy.ts:54-79 | Unauthorized for no email, then no name, then no photo; the request uses the first email and photo, displayName or else the email as username, and is verified without terms |
| GoogleStrategy.ShapeOf | apps/api/src/auth/auth.service.ts:269-293 | the service only returns the `user` or `newUser` shapes |
| GoogleStrategy.ExtractUserData | apps/api/src/auth/strategies/google.strategy.ts:85-124 | newUser shape, then user shape, then a bare user; a missing user or any other shape is Unauthorized |
| GoogleStrategy.Payload | apps/api/src/auth/strategies/google.strategy.ts:126-139 | the payload carries the user's id, email, username and role, is always verified, asks for terms exactly when they are not accepted, and carries no avatar, because it reads `avatarUrl`, a field the selected row does not have (see Left out) |
| GoogleStrategy.AsUnauthorized | apps/api/src/auth/strategies/google.strategy.ts:140-147 | Unauthorized errors pass through and every other error becomes the generic Unauthorized |
| GoogleStrategy.Validate | apps/api/src/auth/strategies/google.strategy.ts:47-148 | every failure is Unauthorized; a bad profile changes nothing; for a good profile the new table is the one the service call leaves, and sign-in succeeds exactly when that call does; a successful new email gives the new, verified user that must accept terms; a known email gives that account, not new, needing terms iff not accepted |
| GoogleStrategy.ServiceFailureBecomesUnauthorized | apps/api/src/auth/strategies/google.strategy.ts:140-147 | the service's InternalServerError reaches the client as the generic Unauthorized |
| RolesGuard.AnyIs | apps/api/src/auth/guards/roles/roles.guard.ts:50 | the `some` scan finds the role exactly when it is in the list |
| RolesGuard.CanActivate | apps/api/src/auth/guards/roles/roles.guard.ts:27-58 | never false; no required roles grants; a missing user or role is Unauthorized; otherwise granted iff the role is required, else Forbidden naming the role |
| Middleware.DecideAsWritten | apps/web/middleware.ts:27-55 | with the source's operator precedence: home exactly for signed-in users on sign-in pages; sign-in (with the path) exactly for guests on protected paths and for everyone else on admin paths; next exactly when none of these applies |
| Middleware.AsWrittenAgreesOffAdminPages | apps/web/middleware.ts:27-55 | except for a signed-in user on an admin path, the code as written decides exactly as the intended rule |
| Middleware.Decide | apps/web/middleware.ts:27-55 | home for signed-in users on sign-in pages; sign-in (with the path) exactly for guests on protected or admin paths; unauthorized exactly for signed-in non-admins on admin paths; otherwise next |
| Middleware.AdminPathsAreNotAuthPaths | apps/web/middleware.ts:9-25 | no path starts with both an admin and a sign-in page prefix |
| Middleware.AsWrittenLocksOutAdmins | apps/web/middleware.ts:33-43 | as written, a signed-in admin on an admin path is sent to sign in |
| Middleware.AsWrittenNeverUnauthorized | apps/web/middleware.ts:46-52 | as written, the unauthorized redirect never happens |
| Middleware.AsWrittenAdminExample | apps/web/middleware.ts:33-43 | an admin session on "/admin" is redirected to sign in |
| Middleware.AdminPagesForAdminsOnly | apps/web/middleware.ts:46-52 | with the intended rule, admins reach admin pages and other signed-in users get the unauthorized page |
| Middleware.PrefixMatchIsLoose | apps/web/middleware.ts:33-36 | "/profileX" counts as protected and sends a guest to sign in, under the code as written and under the intended rule |
| ApiErrors.FromResponse | apps/web/src/lib/error.ts:12-15 | the body's message if non-empty, else the status text, else "API Error", never empty; status and body kept |
| ApiErrors.HandleApiResponse | apps/web/src/lib/error.ts:34-42 | an error exactly when the status is not 2xx; otherwise the parsed body, `{}` if unparseable |
| ApiErrors.ServerErrorsSurface | apps/web/src/lib/error.ts:29-42 | every response with status 500 or above is thrown as an error carrying that status, classed as a server error and as none of unauthorized, forbidden or not found |
| ApiErrors.UnauthorizedResponse | apps/web/src/lib/error.ts:34-42 | a 401 surfaces as an unauthorized error carrying the server's message |
| AuthStore.OrEmpty | apps/web/src/store/authStore.ts:82-84 | `s \|\| ""`: the string when non-empty, else "" |
| AuthStore.UserOf | apps/web/src/store/authStore.ts:95-105 | the store user carries the response's identity, role, last name and avatar |
| AuthStore.SessionOf | apps/web/src/store/authStore.ts:76-90 | the session written has the user with empty-string fallbacks and the two non-empty tokens |
| AuthStore.Merge | apps/web/src/store/authStore.ts:159-163 | supplied fields override, others stay |
| AuthStore.SessionRoundTrip | apps/web/src/store/authStore.ts:39-44 | a session login writes is one initialize accepts, holding the user with empty fallbacks |
| AuthStore.AuthStore.constructor | apps/web/src/store/authStore.ts:29-32 | no user, loading, not authenticated |
| AuthStore.AuthStore.Initialize | apps/web/src/store/authStore.ts:34-57 | authenticated with the session's user exactly when the read succeeded with a user and an access token, signed out otherwise; loading ends |
| AuthStore.AuthStore.Login | apps/web/src/store/authStore.ts:59-135 | signIn used only for credentials; with both tokens the session is written and the user signed in; without them only loading ends; a throw signs out and is rethrown |
| AuthStore.AuthStore.Logout | apps/web/src/store/authStore.ts:137-157 | signed out whatever the sign-out request and session deletion did |
| AuthStore.AuthStore.UpdateUser | apps/web/src/store/authStore.ts:159-163 | merges into a present user and leaves no user as none |

## Left out

- Sending email is not modelled: its outcome is the `Mail` input. The verification token stays stored when sending fails, as in the source.
- JWT signing and verification are not modelled: the signed pair (`TokenPair`) and the verified unsubscribe claims are inputs. `generateJwtToken` and the JWT and refresh passport strategies are not part of this model.
- No real random values: the verification and reset tokens (nanoid(32)), the Google random password and the new ids are inputs. `RegisterUser`, `ResendVerificationEmail` and `ForgotPassword` on the service class require a fresh token not to be pending on any row.
- The argon2 salt is not modelled: the digest is deterministic and injective.
- The reCAPTCHA HTTP request (`verifyRecaptcha`) is a boolean input.
- The clock is the input `now` in milliseconds.
- No concurrency: requests run one at a time and each is atomic. Under that assumption two catches can never fire: the InternalServerError of `acceptOAuthTerms` and the "Error changing password" of `changeUserPassword`. Each requires the store to lose a row between a successful lookup and its update, so neither is in the model.
- `unsubscribeFromNewsletter`'s fallback for a thrown non-Error value ("Invalid or expired unsubscribe link") is not modelled: the token verifier only throws Errors, whose message is the input's.
- DTO validation (class-validator, zod), the controllers, cookies, logging and the session cookie's encryption are not modelled.
- `UserTable.NewAccount`: the database schema is not part of this model. The model assumes that the create request's `avatarUrl` ends up as the account's `avatar`. That assumption does not match how Prisma works:
  - Prisma passes `data` by field name, and `@map` renames only the column.
  - The selects in user.service.ts (lines 128, 157 and 189) name the field `avatar`.
  - Under an `avatar`-only schema, `...user` at user.service.ts:43 would carry an unknown `avatarUrl` argument. Prisma would then refuse every create that supplies one, including every first Google sign-in (google.strategy.ts:73), with "Error creating user".
  - Under a schema with both fields, the value would land in `avatarUrl` and `avatar` would stay null.
  - Neither reading is modelled: `Create` succeeds on a free id, email and username whatever the avatar.
- `GoogleStrategy.Payload`: the payload reads `userData.avatarUrl`. The known-email row comes from findByEmail's select, which has no such field, so the payload carries no avatar. For a newly created row this also holds under an `avatar`-only schema; under a schema with both fields the program would pass the new row's `avatarUrl` on, which the model does not.
- `Middleware.Decide`: `encodeURIComponent` on the callback path is not modelled; the decision carries the raw path.
- `AuthLifecycle.UpdateUserProfile`: setting `lastName` to null is not modelled. A patch can only leave a field alone or set it to a string.
- `AuthStore.AuthStore.Login`: console logging of the failure kinds is not modelled.
- `AuthStore.AuthStore.Login`: createSession (apps/web/src/lib/session.ts:25-46) catches its own errors and returns false, which login ignores. So in the program a failed cookie write goes unnoticed and the store still signs in, which is the `sessionWrite == Ok(())` case. The `Err` case models only a session writer that throws.
- `ApiErrors.Body`: a JSON body is reduced to its `message` member and its other string members.

## Findings

| source | as written | input that shows it | evidently intended | confidence | as-written member | corrected member |
|---|---|---|---|---|---|---|
| apps/web/middleware.ts:33-36 | `(!user && protected) \|\| admin` sends every admin path to sign-in, so the role check at lines 46-52 is unreachable | a signed-in ADMIN session on "/admin" | `!user && (protected \|\| admin)`: guests to sign-in, non-admins to /unauthorized, admins through | high, not executed | Middleware.AsWrittenLocksOutAdmins | Middleware.AdminPagesForAdminsOnly |
| apps/api/src/auth/auth.service.ts:139-148 | the signup body, including the optional validated `emailVerified` (apps/api/src/user/dto/create-user.dto.ts:52-54, kept by `whitelist: true`), is passed to `create` | a registration body with `emailVerified: true` | a new local account always starts unverified | medium, not executed | AuthProperties.AsWrittenRegistrationSelfVerifies | AuthProperties.RegisteredAccountCannotSignIn |

The corrected middleware rule is `Middleware.Decide`. The corrected registration request is `AuthLifecycle.RegistrationDraft`, which `AuthLifecycle.RegisterUser` uses.
