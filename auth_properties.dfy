/** Properties of the account and session lifecycle that relate several
    service calls: what a registration, a verification, a password reset
    or a token rotation makes possible afterwards, and what it rules out. */
module AuthProperties {
  import opened Wrappers
  import opened Accounts
  import UserTable
  import opened AuthLifecycle

  // ---------------------------------------------------------------------
  // Registration and email verification
  // ---------------------------------------------------------------------

  /** A freshly registered local account cannot sign in, whatever password
      is offered (the right one included), until its email is verified. */
  lemma RegisteredAccountCannotSignIn(t: Table, dto: CreateUserDto, captchaOk: bool, id: UserId,
                                                         token: string, now: Time, mail: Mail, password: string)
    requires Valid(t) && VerificationTokenUnused(t, token)
    requires RegisterUser(t, dto, captchaOk, id, token, now, mail).result.Ok?
    ensures ValidateLocalUser(RegisterUser(t, dto, captchaOk, id, token, now, mail).table, dto.email, password)
            == Err(Unauthorized(EmailNotVerified))
  {
    var o := RegisterUser(t, dto, captchaOk, id, token, now, mail);
    assert o.table[id].email == dto.email;
    assert UserTable.FindByEmail(o.table, dto.email) == Some(o.table[id]);
  }

  /** Whether the verification email was delivered does not change the
      registration's result or the stored account. */
  lemma RegistrationIgnoresMail(t: Table, dto: CreateUserDto, captchaOk: bool, id: UserId, token: string,
                                now: Time, m1: Mail, m2: Mail)
    ensures RegisterUser(t, dto, captchaOk, id, token, now, m1) == RegisterUser(t, dto, captchaOk, id, token, now, m2)
  {
  }

  /** The happy path: register, follow the emailed link within 24 hours,
      then sign in with the registered password. */
  lemma RegisterVerifySignIn(t: Table, dto: CreateUserDto, id: UserId, token: string,
                                                now: Time, mail: Mail, later: Time)
    requires Valid(t) && VerificationTokenUnused(t, token) && token != ""
    requires RegisterUser(t, dto, true, id, token, now, mail).result.Ok?
    requires later <= now + VerificationHours * HourMs
    ensures var t1 := RegisterUser(t, dto, true, id, token, now, mail).table;
      && VerifyEmail(t1, token, later).result == Ok(EmailVerified)
      && ValidateLocalUser(VerifyEmail(t1, token, later).table, dto.email, dto.password).Ok?
  {
    var t1 := RegisterUser(t, dto, true, id, token, now, mail).table;
    assert Valid(t1) && t1[id].verificationToken == Some(token);
    assert !Expired(t1[id].verificationTokenExpiry, later);
    var o := VerifyEmail(t1, token, later);
    assert o.result.Ok?;
    var k :| k in t1 && t1[k].verificationToken == Some(token)
             && OthersUnchanged(t1, o.table, k)
             && o.table[k] == t1[k].(emailVerified := true, verificationToken := None, verificationTokenExpiry := None);
    assert k == id;
    assert o.table[id].email == dto.email && o.table[id].password == Hash(dto.password);
    assert UserTable.FindByEmail(o.table, dto.email) == Some(o.table[id]);
  }

  /** The same link followed after the 24 hours is refused as expired and
      leaves the account unverified. */
  lemma VerificationLinkExpires(t: Table, dto: CreateUserDto, id: UserId, token: string,
                                                   now: Time, mail: Mail, later: Time)
    requires Valid(t) && VerificationTokenUnused(t, token) && token != ""
    requires RegisterUser(t, dto, true, id, token, now, mail).result.Ok?
    requires later > now + VerificationHours * HourMs
    ensures var t1 := RegisterUser(t, dto, true, id, token, now, mail).table;
      VerifyEmail(t1, token, later) == Outcome(Err(BadRequest(VerificationExpired)), t1)
  {
    var t1 := RegisterUser(t, dto, true, id, token, now, mail).table;
    assert t1[id].verificationToken == Some(token);
    assert UserTable.FindByVerificationToken(t1, token) == Some(t1[id]);
  }

  /** A verification token works once: replaying it is an invalid token. */
  lemma VerificationTokenSingleUse(t: Table, token: string, now: Time, later: Time)
    requires Valid(t) && VerifyEmail(t, token, now).result.Ok?
    ensures VerifyEmail(VerifyEmail(t, token, now).table, token, later).result == Err(BadRequest(InvalidVerification))
  {
    var o := VerifyEmail(t, token, now);
    var k :| k in t && t[k].verificationToken == Some(token)
             && OthersUnchanged(t, o.table, k)
             && o.table[k] == t[k].(emailVerified := true, verificationToken := None, verificationTokenExpiry := None);
    forall j | j in o.table ensures o.table[j].verificationToken != Some(token) {
      if j != k { assert o.table[j] == t[j]; }
    }
  }

  /** The table a resend leaves for an unverified account: only that row's
      token pair is replaced, whether or not the email was sent. */
  lemma ResendStoresToken(t: Table, k: UserId, token: string, now: Time, mail: Mail)
    requires Valid(t) && VerificationTokenUnused(t, token)
    requires k in t && !t[k].emailVerified
    ensures var t1 := ResendVerificationEmail(t, t[k].email, token, now, mail).table;
      && Valid(t1)
      && OthersUnchanged(t, t1, k)
      && t1[k] == t[k].(verificationToken := Some(token),
                        verificationTokenExpiry := Some(now + VerificationHours * HourMs))
  {
    assert UserTable.FindByEmail(t, t[k].email) == Some(t[k]);
    assert UserTable.IdOfEmail(t, t[k].email) == k;
  }

  /** Asking for a new verification email retires the previous link, even
      when sending fails. */
  lemma ResendRetiresPreviousToken(t: Table, k: UserId, previous: string, token: string,
                                                      now: Time, mail: Mail, later: Time)
    requires Valid(t) && VerificationTokenUnused(t, token) && previous != ""
    requires k in t && !t[k].emailVerified && t[k].verificationToken == Some(previous)
    ensures var t1 := ResendVerificationEmail(t, t[k].email, token, now, mail).table;
      VerifyEmail(t1, previous, later).result == Err(BadRequest(InvalidVerification))
  {
    ResendStoresToken(t, k, token, now, mail);
    var t1 := ResendVerificationEmail(t, t[k].email, token, now, mail).table;
    assert previous != token;
    forall j | j in t1 ensures t1[j].verificationToken != Some(previous) {
      if j != k { assert t1[j] == t[j]; }
    }
  }

  /** The link of the new verification email works for 24 hours. */
  lemma ResentTokenVerifies(t: Table, k: UserId, token: string, now: Time, mail: Mail,
                                               later: Time)
    requires Valid(t) && VerificationTokenUnused(t, token) && token != ""
    requires k in t && !t[k].emailVerified
    requires later <= now + VerificationHours * HourMs
    ensures var t1 := ResendVerificationEmail(t, t[k].email, token, now, mail).table;
      VerifyEmail(t1, token, later).result == Ok(EmailVerified)
  {
    ResendStoresToken(t, k, token, now, mail);
    var t1 := ResendVerificationEmail(t, t[k].email, token, now, mail).table;
    assert t1[k].verificationToken == Some(token) && !Expired(t1[k].verificationTokenExpiry, later);
  }

  // ---------------------------------------------------------------------
  // Sessions
  // ---------------------------------------------------------------------

  /** After sign-in, the issued refresh token is accepted and any other
      token is refused. */
  lemma SignInStartsSession(t: Table, authUser: Profile, tokens: TokenPair, other: string)
    requires LoginUser(t, authUser, tokens).result.Ok?
    ensures var t1 := LoginUser(t, authUser, tokens).table;
      && ValidateRefreshToken(t1, authUser.id, tokens.refreshToken).Ok?
      && (other != tokens.refreshToken ==>
            ValidateRefreshToken(t1, authUser.id, other) == Err(Unauthorized(InvalidRefresh)))
  {
    HashInjective(tokens.refreshToken, other);
  }

  /** Refresh rotation: once a new pair is issued, the previous refresh
      token no longer refreshes and the new one does. */
  lemma RefreshRotatesSession(t: Table, authUser: Profile, tokens: TokenPair, stale: string)
    requires RefreshToken(t, authUser, tokens).result.Ok?
    ensures var t1 := RefreshToken(t, authUser, tokens).table;
      && ValidateRefreshToken(t1, authUser.id, tokens.refreshToken).Ok?
      && (stale != tokens.refreshToken ==>
            ValidateRefreshToken(t1, authUser.id, stale) == Err(Unauthorized(InvalidRefresh)))
  {
    HashInjective(tokens.refreshToken, stale);
  }

  /** After sign-out no refresh token is accepted for the account. */
  lemma SignOutEndsSession(t: Table, userId: UserId, presented: string)
    requires SignOut(t, userId).result.Ok?
    ensures ValidateRefreshToken(SignOut(t, userId).table, userId, presented) == Err(Unauthorized(RefreshMissing))
  {
  }

  // ---------------------------------------------------------------------
  // Passwords
  // ---------------------------------------------------------------------

  /** forgotPassword answers every email with the same message when the
      mail goes out, so the answer does not reveal which emails exist. */
  lemma ForgotPasswordUniform(t: Table, email1: string, email2: string, token: string, now: Time)
    requires Valid(t)
    ensures ForgotPassword(t, email1, token, now, Delivered).result
         == ForgotPassword(t, email2, token, now, Delivered).result
         == Ok(ResetLinkSent)
  {
  }

  /** When sending fails, a known email gets the send error while an
      unknown one still gets the uniform message. */
  lemma ForgotPasswordSendFailureDiffers(t: Table, known: string, unknown: string, token: string, now: Time,
                                         reason: string)
    requires Valid(t) && UserTable.EmailTaken(t, known) && !UserTable.EmailTaken(t, unknown)
    ensures ForgotPassword(t, known, token, now, MailFailed(reason)).result == Err(SendFailure(reason))
    ensures ForgotPassword(t, unknown, token, now, MailFailed(reason)).result == Ok(ResetLinkSent)
  {
  }

  /** A live reset link sets the new password: it then signs in, a
      different old password does not, and the link cannot be used again. */
  lemma ResetPasswordReplacesPassword(t: Table, k: UserId, token: string, password: string,
                                                         previous: string, now: Time, later: Time, again: string)
    requires Valid(t) && k in t && t[k].emailVerified && token != ""
    requires t[k].pwdResetToken == Some(token) && !Expired(t[k].pwdResetTokenExpiry, now)
    ensures var o := ResetPassword(t, token, password, now);
      && o.result == Ok(PasswordWasReset)
      && ValidateLocalUser(o.table, t[k].email, password).Ok?
      && (previous != password ==>
            ValidateLocalUser(o.table, t[k].email, previous) == Err(Unauthorized(InvalidCredentials)))
      && ResetPassword(o.table, token, again, later).result == Err(BadRequest(InvalidReset))
  {
    var o := ResetPassword(t, token, password, now);
    assert o.result.Ok?;
    var j :| j in t && t[j].pwdResetToken == Some(token)
             && OthersUnchanged(t, o.table, j)
             && o.table[j] == t[j].(password := Hash(password), pwdResetToken := None, pwdResetTokenExpiry := None);
    assert j == k;
    assert UserTable.FindByEmail(o.table, t[k].email) == Some(o.table[k]);
    HashInjective(password, previous);
    forall i | i in o.table ensures o.table[i].pwdResetToken != Some(token) {
      if i != k { assert o.table[i] == t[i]; }
    }
  }

  /** Changing the password with the right current one: the new password
      signs in and a different old one does not. */
  lemma ChangePasswordReplacesPassword(t: Table, userId: UserId, current: string, password: string)
    requires Valid(t) && userId in t && t[userId].emailVerified && t[userId].password == Hash(current)
    ensures var o := ChangeUserPassword(t, userId, current, password);
      && o.result == Ok(PasswordChanged)
      && ValidateLocalUser(o.table, t[userId].email, password).Ok?
      && (current != password ==>
            ValidateLocalUser(o.table, t[userId].email, current) == Err(Unauthorized(InvalidCredentials)))
  {
    var o := ChangeUserPassword(t, userId, current, password);
    assert UserTable.FindByEmail(o.table, t[userId].email) == Some(o.table[userId]);
    HashInjective(password, current);
  }

  // ---------------------------------------------------------------------
  // Google OAuth
  // ---------------------------------------------------------------------

  /** A first Google sign-in creates a verified account that still has to
      accept the terms; refusing them changes nothing, accepting them
      records the acceptance. */
  lemma OAuthFirstSignInNeedsTerms(t: Table, g: CreateUserDto, id: UserId, randomPassword: string,
                                                      now: Time, newsletterOptIn: Option<bool>, later: Time)
    requires Valid(t) && !UserTable.EmailTaken(t, g.email)
    requires ValidateGoogleOAuthUser(t, g, id, randomPassword, now).result.Ok?
    ensures var t1 := ValidateGoogleOAuthUser(t, g, id, randomPassword, now).table;
      && id in t1 && t1[id].emailVerified && !t1[id].termsAccepted
      && AcceptOAuthTerms(t1, id, false, newsletterOptIn, later) == Outcome(Err(BadRequest(TermsRequired)), t1)
      && AcceptOAuthTerms(t1, id, true, newsletterOptIn, later).result == Ok(TermsRecorded)
      && AcceptOAuthTerms(t1, id, true, newsletterOptIn, later).table[id].termsAccepted
  {
    var t1 := ValidateGoogleOAuthUser(t, g, id, randomPassword, now).table;
    assert id in t1;
  }

  /** Signing in with Google to an existing local account verifies it, so
      its own password then signs in too. */
  lemma OAuthVerifiesExistingAccount(t: Table, k: UserId, g: CreateUserDto, id: UserId,
                                                        randomPassword: string, now: Time, password: string)
    requires Valid(t) && k in t && g.email == t[k].email && t[k].password == Hash(password)
    ensures var t1 := ValidateGoogleOAuthUser(t, g, id, randomPassword, now).table;
      ValidateLocalUser(t1, g.email, password).Ok?
  {
    assert UserTable.FindByEmail(t, g.email) == Some(t[k]);
    assert UserTable.IdOfEmail(t, g.email) == k;
    var t1 := ValidateGoogleOAuthUser(t, g, id, randomPassword, now).table;
    assert UserTable.FindByEmail(t1, g.email) == Some(t1[k]);
  }

  // ---------------------------------------------------------------------
  // Profile and newsletter
  // ---------------------------------------------------------------------

  /** Submitting one's own current username is never a conflict. */
  lemma OwnUsernameIsNoConflict(t: Table, userId: UserId, p: UserTable.ProfilePatch)
    requires Valid(t) && userId in t && p.username == Some(t[userId].username)
    ensures UpdateUserProfile(t, userId, p).result.Ok?
  {
    assert !UserTable.PatchCollides(t, userId, p);
    assert ChecksUsername(p) ==> UserTable.FindByUsername(t, p.username.value) == Some(t[userId]);
  }

  /** Unsubscribing twice with the same token leaves the table as the
      first unsubscribe did. */
  lemma UnsubscribeIdempotent(t: Table, claims: Result<UnsubscribeClaims, string>)
    requires Valid(t)
    ensures var t1 := UnsubscribeFromNewsletter(t, claims).table;
      UnsubscribeFromNewsletter(t1, claims).table == t1
  {
    var o := UnsubscribeFromNewsletter(t, claims);
    if o.result.Ok? {
      var k := UserTable.IdOfEmail(t, claims.value.email);
      assert UserTable.IdOfEmail(o.table, claims.value.email) == k;
      assert o.table[k := o.table[k].(newsletterOptIn := false)] == o.table;
    }
  }

  // ---------------------------------------------------------------------
  // Registration as written: the client's emailVerified reaches create
  // ---------------------------------------------------------------------

  /** With the signup body passed to create unchanged, a client that sends
      `emailVerified: true` gets an account that is verified at once, can
      sign in without ever opening the email, and still carries a pending
      verification token, breaking the row invariant. */
  lemma AsWrittenRegistrationSelfVerifies(t: Table, dto: CreateUserDto, id: UserId, token: string,
                                                             now: Time)
    requires Valid(t) && dto.emailVerified == Some(true)
    requires id !in t && !UserTable.EmailTaken(t, dto.email) && !UserTable.UsernameTaken(t, dto.username)
    ensures var c := UserTable.Create(t, id, RegistrationDraftAsWritten(dto), Some(token),
                                      Some(now + VerificationHours * HourMs), now);
      && c.result.Ok?
      && c.table[id].emailVerified
      && !WellFormed(c.table[id])
      && ValidateLocalUser(c.table, dto.email, dto.password).Ok?
  {
    var c := UserTable.Create(t, id, RegistrationDraftAsWritten(dto), Some(token),
                              Some(now + VerificationHours * HourMs), now);
    var u := UserTable.FindByEmail(c.table, dto.email);
    assert c.table[id].email == dto.email;
    assert u.Some?;
    var j :| j in c.table && c.table[j] == u.value;
    assert j == id;
  }
}
