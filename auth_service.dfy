/** AuthService: the service object, holding the user store it was
    constructed with. Each method performs the source's steps against the
    store and is proved to produce exactly the result and table the
    matching AuthLifecycle function describes; the lemmas in
    AuthProperties then speak about those functions. */
module AuthService {
  import opened Wrappers
  import opened Accounts
  import UserTable
  import opened AuthLifecycle
  import opened UserService

  class AuthService {
    const users: UserStore

    constructor (users: UserStore)
      ensures this.users == users
    {
      this.users := users;
    }

    method ValidateUniqueUserFields(email: string, username: string) returns (r: Result<(), HttpError>)
      requires users.Valid()
      ensures r == AuthLifecycle.ValidateUniqueUserFields(users.accounts, email, username)
    {
      var byEmail := users.FindByEmail(email);
      if byEmail.Some? {
        return Err(Conflict(EmailExists));
      }
      var byUsername := users.FindByUsername(username);
      if byUsername.Some? {
        return Err(Conflict(UsernameExists));
      }
      return Ok(());
    }

    method RegisterUser(dto: CreateUserDto, captchaOk: bool, id: UserId, token: string, now: Time, mail: Mail)
      returns (r: Result<UserResponse, HttpError>)
      requires users.Valid() && VerificationTokenUnused(users.accounts, token)
      modifies users
      ensures var o := AuthLifecycle.RegisterUser(old(users.accounts), dto, captchaOk, id, token, now, mail);
        r == o.result && users.accounts == o.table
      ensures users.Valid()
    {
      var unique := ValidateUniqueUserFields(dto.email, dto.username);
      if unique.Err? {
        return Err(unique.error);
      }
      if !captchaOk {
        return Err(BadRequest(InvalidCaptcha));
      }
      if !dto.termsAccepted {
        return Err(BadRequest(TermsRequired));
      }
      var g := GenerateToken(token, now, VerificationHours);
      var created := users.Create(id, RegistrationDraft(dto), Some(g.token), Some(g.expiry), now);
      if created.Err? {
        return Err(created.error);
      }
      // The verification email goes out here; its outcome `mail` is only logged.
      r := Ok(MapUserToResponse(ProfileOf(created.value), false, Some(TokenFields(None, None))));
    }

    method ValidateLocalUser(email: string, password: string) returns (r: Result<UserResponse, HttpError>)
      requires users.Valid()
      ensures r == AuthLifecycle.ValidateLocalUser(users.accounts, email, password)
    {
      var user := users.FindByEmail(email);
      if user.None? {
        return Err(Unauthorized(EmailNotFound));
      }
      if !user.value.emailVerified {
        return Err(Unauthorized(EmailNotVerified));
      }
      if !Verify(user.value.password, password) {
        return Err(Unauthorized(InvalidCredentials));
      }
      r := Ok(MapUserToResponse(ProfileOf(user.value), false, None));
    }

    method LoginUser(authUser: Profile, tokens: TokenPair) returns (r: Result<UserResponse, HttpError>)
      requires users.Valid()
      modifies users
      ensures var o := AuthLifecycle.LoginUser(old(users.accounts), authUser, tokens);
        r == o.result && users.accounts == o.table
      ensures users.Valid()
    {
      var user := users.FindByUserId(authUser.id);
      if user.None? {
        return Err(Unauthorized(UserNotFound));
      }
      if !user.value.emailVerified {
        return Err(Unauthorized(EmailNotVerified));
      }
      var _ := users.UpdateHashedRefreshToken(authUser.id, Some(Hash(tokens.refreshToken)));
      var profile := authUser.(emailVerified := user.value.emailVerified,
                               newsletterOptIn := user.value.newsletterOptIn);
      r := Ok(WithTokens(profile, tokens));
    }

    method ValidateJwtUser(userId: UserId) returns (r: Result<UserResponse, HttpError>)
      ensures r == AuthLifecycle.ValidateJwtUser(users.accounts, userId)
    {
      var user := users.FindByUserId(userId);
      if user.None? {
        return Err(Unauthorized(UserNotFoundBang));
      }
      r := Ok(MapUserToResponse(ProfileOf(user.value), false, None));
    }

    method ValidateRefreshToken(userId: UserId, refreshToken: string) returns (r: Result<UserResponse, HttpError>)
      ensures r == AuthLifecycle.ValidateRefreshToken(users.accounts, userId, refreshToken)
    {
      var user := users.FindByUserId(userId);
      if user.None? {
        return Err(Unauthorized(UserNotFoundBang));
      }
      if user.value.refreshToken.None? {
        return Err(Unauthorized(RefreshMissing));
      }
      if !Verify(user.value.refreshToken.value, refreshToken) {
        return Err(Unauthorized(InvalidRefresh));
      }
      r := Ok(MapUserToResponse(ProfileOf(user.value), false, None));
    }

    method RefreshToken(authUser: Profile, tokens: TokenPair) returns (r: Result<UserResponse, HttpError>)
      requires users.Valid()
      modifies users
      ensures var o := AuthLifecycle.RefreshToken(old(users.accounts), authUser, tokens);
        r == o.result && users.accounts == o.table
      ensures users.Valid()
    {
      var stored := users.UpdateHashedRefreshToken(authUser.id, Some(Hash(tokens.refreshToken)));
      if stored.Err? {
        return Err(stored.error);
      }
      r := Ok(WithTokens(authUser, tokens));
    }

    method SignOut(userId: UserId) returns (r: Result<Account, HttpError>)
      requires users.Valid()
      modifies users
      ensures var o := AuthLifecycle.SignOut(old(users.accounts), userId);
        r == o.result && users.accounts == o.table
      ensures users.Valid()
    {
      r := users.UpdateHashedRefreshToken(userId, None);
    }

    method ValidateGoogleOAuthUser(googleUser: CreateUserDto, id: UserId, randomPassword: string, now: Time)
      returns (r: Result<OAuthUserResult, HttpError>)
      requires users.Valid()
      modifies users
      ensures var o := AuthLifecycle.ValidateGoogleOAuthUser(old(users.accounts), googleUser, id, randomPassword, now);
        r == o.result && users.accounts == o.table
      ensures users.Valid()
    {
      var user := users.FindByEmail(googleUser.email);
      if user.Some? {
        if !user.value.emailVerified {
          var _ := users.MarkEmailAsVerified(user.value.id);
          var reread := users.FindByEmail(googleUser.email);
          return Ok(UserResult(reread, false));
        }
        return Ok(UserResult(user, false));
      }
      var created := users.Create(id, OAuthDraft(googleUser, randomPassword), None, None, now);
      if created.Err? {
        return Err(InternalServerError(GoogleFailed));
      }
      r := Ok(NewUserResult(created.value, true));
    }

    method AcceptOAuthTerms(userId: UserId, termsAccepted: bool, newsletterOptIn: Option<bool>, now: Time)
      returns (r: Result<string, HttpError>)
      requires users.Valid()
      modifies users
      ensures var o := AuthLifecycle.AcceptOAuthTerms(old(users.accounts), userId, termsAccepted, newsletterOptIn, now);
        r == o.result && users.accounts == o.table
      ensures users.Valid()
    {
      if !termsAccepted {
        return Err(BadRequest(TermsRequired));
      }
      var user := users.FindByUserId(userId);
      if user.None? {
        return Err(NotFound(UserNotFound));
      }
      var _ := users.UpdateTermsAcceptance(userId, termsAccepted, newsletterOptIn.GetOr(false), now);
      r := Ok(TermsRecorded);
    }

    method VerifyEmail(token: string, now: Time) returns (r: Result<string, HttpError>)
      requires users.Valid()
      modifies users
      ensures var o := AuthLifecycle.VerifyEmail(old(users.accounts), token, now);
        r == o.result && users.accounts == o.table
      ensures users.Valid()
    {
      if token == "" {
        return Err(BadRequest(VerificationRequired));
      }
      var user := users.FindByVerificationToken(token);
      if user.None? {
        return Err(BadRequest(InvalidVerification));
      }
      if Expired(user.value.verificationTokenExpiry, now) {
        return Err(BadRequest(VerificationExpired));
      }
      if user.value.emailVerified {
        return Ok(AlreadyVerified);
      }
      var _ := users.MarkEmailAsVerified(user.value.id);
      r := Ok(EmailVerified);
    }

    method ResendVerificationEmail(email: string, token: string, now: Time, mail: Mail)
      returns (r: Result<string, HttpError>)
      requires users.Valid() && VerificationTokenUnused(users.accounts, token)
      modifies users
      ensures var o := AuthLifecycle.ResendVerificationEmail(old(users.accounts), email, token, now, mail);
        r == o.result && users.accounts == o.table
      ensures users.Valid()
    {
      var user := users.FindByEmail(email);
      if user.None? {
        return Err(Unauthorized(UserNotFound));
      }
      if user.value.emailVerified {
        return Err(BadRequest(AlreadyVerified));
      }
      var g := GenerateToken(token, now, VerificationHours);
      var _ := users.UpdateVerificationToken(user.value.id, g.token, g.expiry);
      if mail.MailFailed? {
        return Err(SendFailure(mail.reason));
      }
      r := Ok(VerificationSent);
    }

    method ForgotPassword(email: string, token: string, now: Time, mail: Mail) returns (r: Result<string, HttpError>)
      requires users.Valid() && ResetTokenUnused(users.accounts, token)
      modifies users
      ensures var o := AuthLifecycle.ForgotPassword(old(users.accounts), email, token, now, mail);
        r == o.result && users.accounts == o.table
      ensures users.Valid()
    {
      var user := users.FindByEmail(email);
      if user.None? {
        return Ok(ResetLinkSent);
      }
      var g := GenerateToken(token, now, ResetHours);
      var _ := users.UpdatePasswordResetToken(user.value.id, g.token, g.expiry);
      if mail.MailFailed? {
        return Err(SendFailure(mail.reason));
      }
      r := Ok(ResetLinkSent);
    }

    method ResetPassword(token: string, password: string, now: Time) returns (r: Result<string, HttpError>)
      requires users.Valid()
      modifies users
      ensures var o := AuthLifecycle.ResetPassword(old(users.accounts), token, password, now);
        r == o.result && users.accounts == o.table
      ensures users.Valid()
    {
      if token == "" {
        return Err(BadRequest(ResetRequired));
      }
      var user := users.FindByPasswordResetToken(token);
      if user.None? {
        return Err(BadRequest(InvalidReset));
      }
      if Expired(user.value.pwdResetTokenExpiry, now) {
        return Err(BadRequest(ResetExpired));
      }
      var _ := users.UpdatePassword(user.value.id, Hash(password));
      r := Ok(PasswordWasReset);
    }

    method ChangeUserPassword(userId: UserId, currentPassword: string, newPassword: string)
      returns (r: Result<string, HttpError>)
      requires users.Valid()
      modifies users
      ensures var o := AuthLifecycle.ChangeUserPassword(old(users.accounts), userId, currentPassword, newPassword);
        r == o.result && users.accounts == o.table
      ensures users.Valid()
    {
      var user := users.FindByUserId(userId);
      if user.None? {
        return Err(NotFound(UserNotFound));
      }
      if !Verify(user.value.password, currentPassword) {
        return Err(Unauthorized(CurrentPasswordWrong));
      }
      var _ := users.UpdatePassword(userId, Hash(newPassword));
      r := Ok(PasswordChanged);
    }

    method UpdateUserProfile(userId: UserId, p: UserTable.ProfilePatch) returns (r: Result<UserResponse, HttpError>)
      requires users.Valid()
      modifies users
      ensures var o := AuthLifecycle.UpdateUserProfile(old(users.accounts), userId, p);
        r == o.result && users.accounts == o.table
      ensures users.Valid()
    {
      if ChecksUsername(p) {
        var existing := users.FindByUsername(p.username.value);
        if existing.Some? && existing.value.id != userId {
          return Err(Conflict(UsernameTaken));
        }
      }
      var updated := users.UpdateProfile(userId, p);
      if updated.Err? {
        return Err(InternalServerError(ProfileUpdateError));
      }
      r := Ok(MapUserToResponse(ProfileOf(updated.value), false, None));
    }

    method UnsubscribeFromNewsletter(claims: Result<UnsubscribeClaims, string>) returns (r: Result<(), HttpError>)
      requires users.Valid()
      modifies users
      ensures var o := AuthLifecycle.UnsubscribeFromNewsletter(old(users.accounts), claims);
        r == o.result && users.accounts == o.table
      ensures users.Valid()
    {
      if claims.Err? {
        return Err(PlainError(claims.error));
      }
      if claims.value.purpose != UnsubscribePurpose {
        return Err(PlainError(InvalidUnsubscribe));
      }
      r := users.UpdateNewsletterPreference(claims.value.email, false);
    }
  }
}
