/** The account and session lifecycle of AuthService, one function per
    service operation: each takes the user table (and the values the
    service obtains from its collaborators: fresh random tokens, the
    clock, the CAPTCHA verdict, the outcome of sending an email, the
    signed JWT pair) and returns the result with the table after it.
    The class AuthService.AuthService performs the same steps on a
    UserStore and is proved equal to these. */
module AuthLifecycle {
  import opened Wrappers
  import opened Accounts
  import UserTable

  // Messages, as the service words them.
  const EmailExists := "User email already exists!"
  const UsernameExists := "Username already exists!"
  const InvalidCaptcha := "Invalid CAPTCHA"
  const TermsRequired := "Terms and Privacy Policy must be accepted"
  const UserNotFound := "User not found"
  const EmailNotVerified := "Email not verified. Please check your inbox for the verification email."
  const EmailNotFound := "Invalid Credentials - Email not found!"
  const InvalidCredentials := "Invalid Credentials!"
  const UserNotFoundBang := "User not found!"
  const RefreshMissing := "Refresh token missing!"
  const InvalidRefresh := "Invalid Refresh Token!"
  const GoogleFailed := "Failed to authenticate with Google"
  const TermsRecorded := "Terms acceptance recorded successfully"
  const VerificationRequired := "Verification token is required"
  const InvalidVerification := "Invalid verification token"
  const VerificationExpired := "Verification token has expired"
  const AlreadyVerified := "Email already verified"
  const EmailVerified := "Email verified successfully"
  const VerificationSent := "Verification email sent successfully"
  const ResetLinkSent := "If your email exists in our system, you will receive a password reset link."
  const ResetRequired := "Reset token is required"
  const InvalidReset := "Invalid reset token"
  const ResetExpired := "Reset token has expired"
  const PasswordWasReset := "Password has been reset successfully"
  const CurrentPasswordWrong := "Current password is incorrect"
  const PasswordChanged := "Password changed successfully"
  const UsernameTaken := "Username is already taken"
  const ProfileUpdateError := "Error updating user profile"
  const InvalidUnsubscribe := "Invalid unsubscribe token"
  const UnsubscribePurpose := "newsletter-unsubscribe"

  const VerificationHours: nat := 24
  const ResetHours: nat := 1

  // ---------------------------------------------------------------------
  // Values exchanged with callers and collaborators
  // ---------------------------------------------------------------------

  /** The user fields of every response (AuthUserType / AuthUserResponse). */
  datatype Profile = Profile(
    id: UserId,
    email: string,
    username: string,
    firstName: string,
    lastName: Option<string>,
    role: Role,
    avatar: Option<string>,
    emailVerified: bool,
    newsletterOptIn: bool)

  datatype UserResponse = UserResponse(profile: Profile, accessToken: Option<string>, refreshToken: Option<string>)

  /** The optional token fields a caller passes to mapUserToResponse. */
  datatype TokenFields = TokenFields(accessToken: Option<string>, refreshToken: Option<string>)

  /** An access/refresh JWT pair, signed outside the model. */
  datatype TokenPair = TokenPair(accessToken: string, refreshToken: string)

  /** A random token and the moment it stops being accepted. */
  datatype TokenGrant = TokenGrant(token: string, expiry: Time)

  /** What the email service did with a message. */
  datatype Mail = Delivered | MailFailed(reason: string)

  /** The claims of a verified purpose token, or the verifier's complaint. */
  datatype UnsubscribeClaims = UnsubscribeClaims(email: string, purpose: string)

  /** What validateGoogleOAuthUser returns: `{ user, isNewUser }` for an
      existing account (the re-read user may be null) or `{ newUser,
      isNewUser }` for a created one. */
  datatype OAuthUserResult =
    | UserResult(user: Option<Account>, isNewUser: bool)
    | NewUserResult(newUser: Account, isNewUser: bool)

  function SendFailure(reason: string): HttpError {
    PlainError("Failed to send email: " + reason)
  }

  /** A stored expiry is past when it is missing or earlier than now. */
  predicate Expired(expiry: Option<Time>, now: Time) {
    expiry.None? || expiry.value < now
  }

  // ---------------------------------------------------------------------
  // Helpers
  // ---------------------------------------------------------------------

  /** generateVerificationToken and generatePasswordResetToken, which
      differ only in a default hour count that every call gives
      explicitly (24 for verification, 1 for a reset): the token expires
      `expiryHours` after now. */
  function GenerateToken(token: string, now: Time, expiryHours: nat): (g: TokenGrant)
    ensures g.token == token && g.expiry == now + expiryHours * HourMs
    ensures forall later: Time :: !Expired(Some(g.expiry), later) <==> later <= now + expiryHours * HourMs
  {
    TokenGrant(token, now + expiryHours * HourMs)
  }

  function ProfileOf(a: Account): (p: Profile)
    ensures p.id == a.id && p.email == a.email && p.emailVerified == a.emailVerified
    ensures p.newsletterOptIn == a.newsletterOptIn
  {
    Profile(a.id, a.email, a.username, a.firstName, a.lastName, a.role, a.avatar,
            a.emailVerified, a.newsletterOptIn)
  }

  /** mapUserToResponse: the user fields, plus the tokens only when asked
      to include them and given some. */
  function MapUserToResponse(user: Profile, includeTokens: bool, tokens: Option<TokenFields>): (r: UserResponse)
    ensures r.profile == user
    ensures includeTokens && tokens.Some? ==>
      r.accessToken == tokens.value.accessToken && r.refreshToken == tokens.value.refreshToken
    ensures !(includeTokens && tokens.Some?) ==> r.accessToken.None? && r.refreshToken.None?
  {
    if includeTokens && tokens.Some? then
      UserResponse(user, tokens.value.accessToken, tokens.value.refreshToken)
    else
      UserResponse(user, None, None)
  }

  function WithTokens(user: Profile, tokens: TokenPair): UserResponse {
    MapUserToResponse(user, true, Some(TokenFields(Some(tokens.accessToken), Some(tokens.refreshToken))))
  }

  /** validateUniqueUserFields: the email is checked first, then the
      username, each with its own Conflict. */
  ghost function ValidateUniqueUserFields(t: Table, email: string, username: string): (r: Result<(), HttpError>)
    ensures r == Err(Conflict(EmailExists)) <==> UserTable.EmailTaken(t, email)
    ensures r == Err(Conflict(UsernameExists)) <==>
      !UserTable.EmailTaken(t, email) && UserTable.UsernameTaken(t, username)
    ensures r.Ok? <==> !UserTable.EmailTaken(t, email) && !UserTable.UsernameTaken(t, username)
  {
    if UserTable.FindByEmail(t, email).Some? then Err(Conflict(EmailExists))
    else if UserTable.FindByUsername(t, username).Some? then Err(Conflict(UsernameExists))
    else Ok(())
  }

  // ---------------------------------------------------------------------
  // Registration
  // ---------------------------------------------------------------------

  /** The create request built from a signup body, with the client's
      `emailVerified` dropped so that a new local account always starts
      unverified. See RegistrationDraftAsWritten for the source as written. */
  function RegistrationDraft(dto: CreateUserDto): (d: CreateUserDto)
    ensures d.emailVerified.None?
    ensures d == dto.(emailVerified := None)
  {
    dto.(emailVerified := None)
  }

  /** The create request exactly as registerUser builds it: every field of
      the signup body except the CAPTCHA token, `emailVerified` included. */
  function RegistrationDraftAsWritten(dto: CreateUserDto): (d: CreateUserDto)
    ensures d.emailVerified == dto.emailVerified
  {
    dto
  }

  /** The account a successful registration stores. */
  predicate RegisteredAccount(a: Account, id: UserId, dto: CreateUserDto, token: string, now: Time) {
    && a.id == id && a.email == dto.email && a.username == dto.username
    && a.password == Hash(dto.password)
    && !a.emailVerified
    && a.verificationToken == Some(token)
    && a.verificationTokenExpiry == Some(now + VerificationHours * HourMs)
    && a.termsAccepted && a.termsAcceptedAt == Some(now)
    && a.refreshToken.None? && a.pwdResetToken.None?
  }

  /** registerUser: uniqueness (email, then username), then the CAPTCHA,
      then terms; only then is the unverified account created with a
      24-hour verification token. A failed verification email does not
      fail the registration, and the response carries no tokens. */
  ghost function RegisterUser(t: Table, dto: CreateUserDto, captchaOk: bool, id: UserId, token: string,
                              now: Time, mail: Mail): (o: Outcome<UserResponse>)
    ensures o.result == Err(Conflict(EmailExists)) <==> UserTable.EmailTaken(t, dto.email)
    ensures o.result == Err(Conflict(UsernameExists)) <==>
      !UserTable.EmailTaken(t, dto.email) && UserTable.UsernameTaken(t, dto.username)
    ensures o.result == Err(BadRequest(InvalidCaptcha)) <==>
      !UserTable.EmailTaken(t, dto.email) && !UserTable.UsernameTaken(t, dto.username) && !captchaOk
    ensures o.result == Err(BadRequest(TermsRequired)) <==>
      !UserTable.EmailTaken(t, dto.email) && !UserTable.UsernameTaken(t, dto.username) && captchaOk
      && !dto.termsAccepted
    ensures o.result.Ok? <==>
      !UserTable.EmailTaken(t, dto.email) && !UserTable.UsernameTaken(t, dto.username) && captchaOk
      && dto.termsAccepted && id !in t
    ensures o.result.Err? ==> o.table == t
    ensures o.result.Ok? ==>
      && o.table.Keys == t.Keys + {id}
      && (forall k :: k in t ==> o.table[k] == t[k])
      && RegisteredAccount(o.table[id], id, dto, token, now)
      && o.result.value.profile == ProfileOf(o.table[id])
      && o.result.value.accessToken.None? && o.result.value.refreshToken.None?
    ensures Valid(t) && VerificationTokenUnused(t, token) ==> Valid(o.table)
  {
    var unique := ValidateUniqueUserFields(t, dto.email, dto.username);
    if unique.Err? then Outcome(Err(unique.error), t)
    else if !captchaOk then Outcome(Err(BadRequest(InvalidCaptcha)), t)
    else if !dto.termsAccepted then Outcome(Err(BadRequest(TermsRequired)), t)
    else
      var g := GenerateToken(token, now, VerificationHours);
      var c := UserTable.Create(t, id, RegistrationDraft(dto), Some(g.token), Some(g.expiry), now);
      if c.result.Err? then Outcome(Err(c.result.error), t)
      else
        // The verification email is sent here; a failure is only logged.
        Outcome(Ok(MapUserToResponse(ProfileOf(c.result.value), false, Some(TokenFields(None, None)))), c.table)
  }

  // ---------------------------------------------------------------------
  // Sign-in, refresh, sign-out
  // ---------------------------------------------------------------------

  /** validateLocalUser: unknown email, then unverified email, then wrong
      password, each Unauthorized; an unverified account is refused
      before its password is looked at. Nothing is stored. */
  ghost function ValidateLocalUser(t: Table, email: string, password: string): (r: Result<UserResponse, HttpError>)
    ensures r == Err(Unauthorized(EmailNotFound)) <==> !UserTable.EmailTaken(t, email)
    ensures r == Err(Unauthorized(EmailNotVerified)) <==>
      UserTable.EmailTaken(t, email) && !UserTable.FindByEmail(t, email).value.emailVerified
    ensures r == Err(Unauthorized(InvalidCredentials)) <==>
      UserTable.EmailTaken(t, email) && UserTable.FindByEmail(t, email).value.emailVerified
      && !Verify(UserTable.FindByEmail(t, email).value.password, password)
    ensures r.Ok? <==>
      exists k :: k in t && t[k].email == email && t[k].emailVerified && t[k].password == Hash(password)
                  && UserTable.FindByEmail(t, email) == Some(t[k])
    ensures r.Ok? ==> r.value.accessToken.None? && r.value.profile.email == email && r.value.profile.emailVerified
  {
    var u := UserTable.FindByEmail(t, email);
    if u.None? then Err(Unauthorized(EmailNotFound))
    else if !u.value.emailVerified then Err(Unauthorized(EmailNotVerified))
    else if !Verify(u.value.password, password) then Err(Unauthorized(InvalidCredentials))
    else Ok(MapUserToResponse(ProfileOf(u.value), false, None))
  }

  /** loginUser: the account must exist and be verified; the digest of the
      new refresh token replaces whatever was stored, and the response
      carries both tokens. */
  function LoginUser(t: Table, authUser: Profile, tokens: TokenPair): (o: Outcome<UserResponse>)
    ensures o.result == Err(Unauthorized(UserNotFound)) <==> authUser.id !in t
    ensures o.result == Err(Unauthorized(EmailNotVerified)) <==> authUser.id in t && !t[authUser.id].emailVerified
    ensures o.result.Err? ==> o.table == t
    ensures o.result.Ok? <==> authUser.id in t && t[authUser.id].emailVerified
    ensures o.result.Ok? ==>
      && OthersUnchanged(t, o.table, authUser.id)
      && o.table[authUser.id] == t[authUser.id].(refreshToken := Some(Hash(tokens.refreshToken)))
      && o.result.value.accessToken == Some(tokens.accessToken)
      && o.result.value.refreshToken == Some(tokens.refreshToken)
      && o.result.value.profile.emailVerified
    ensures Valid(t) ==> Valid(o.table)
  {
    var u := UserTable.FindByUserId(t, authUser.id);
    if u.None? then Outcome(Err(Unauthorized(UserNotFound)), t)
    else if !u.value.emailVerified then Outcome(Err(Unauthorized(EmailNotVerified)), t)
    else
      var s := UserTable.UpdateHashedRefreshToken(t, authUser.id, Some(Hash(tokens.refreshToken)));
      var user := authUser.(emailVerified := u.value.emailVerified, newsletterOptIn := u.value.newsletterOptIn);
      Outcome(Ok(WithTokens(user, tokens)), s.table)
  }

  /** validateJwtUser: the account behind an access token's subject. */
  function ValidateJwtUser(t: Table, userId: UserId): (r: Result<UserResponse, HttpError>)
    ensures r.Err? <==> userId !in t
    ensures r.Err? ==> r.error == Unauthorized(UserNotFoundBang)
    ensures r.Ok? ==> r.value.profile == ProfileOf(t[userId]) && r.value.accessToken.None?
  {
    var u := UserTable.FindByUserId(t, userId);
    if u.None? then Err(Unauthorized(UserNotFoundBang))
    else Ok(MapUserToResponse(ProfileOf(u.value), false, None))
  }

  /** validateRefreshToken: accepted exactly when the stored digest is the
      digest of the presented token. */
  function ValidateRefreshToken(t: Table, userId: UserId, refreshToken: string): (r: Result<UserResponse, HttpError>)
    ensures r == Err(Unauthorized(UserNotFoundBang)) <==> userId !in t
    ensures r == Err(Unauthorized(RefreshMissing)) <==> userId in t && t[userId].refreshToken.None?
    ensures r == Err(Unauthorized(InvalidRefresh)) <==>
      userId in t && t[userId].refreshToken.Some? && t[userId].refreshToken != Some(Hash(refreshToken))
    ensures r.Ok? <==> userId in t && t[userId].refreshToken == Some(Hash(refreshToken))
    ensures r.Ok? ==> r.value.profile == ProfileOf(t[userId])
  {
    var u := UserTable.FindByUserId(t, userId);
    if u.None? then Err(Unauthorized(UserNotFoundBang))
    else if u.value.refreshToken.None? then Err(Unauthorized(RefreshMissing))
    else if !Verify(u.value.refreshToken.value, refreshToken) then Err(Unauthorized(InvalidRefresh))
    else Ok(MapUserToResponse(ProfileOf(u.value), false, None))
  }

  /** refreshToken: a new pair is issued and its refresh digest overwrites
      the stored one. */
  function RefreshToken(t: Table, authUser: Profile, tokens: TokenPair): (o: Outcome<UserResponse>)
    ensures o.result.Ok? <==> authUser.id in t
    ensures o.result.Err? ==> o.table == t && o.result.error == PlainError(UserTable.RecordNotFound)
    ensures o.result.Ok? ==>
      && OthersUnchanged(t, o.table, authUser.id)
      && o.table[authUser.id] == t[authUser.id].(refreshToken := Some(Hash(tokens.refreshToken)))
      && o.result.value == WithTokens(authUser, tokens)
    ensures Valid(t) ==> Valid(o.table)
  {
    var s := UserTable.UpdateHashedRefreshToken(t, authUser.id, Some(Hash(tokens.refreshToken)));
    if s.result.Err? then Outcome(Err(s.result.error), t)
    else Outcome(Ok(WithTokens(authUser, tokens)), s.table)
  }

  /** signOut: the stored refresh digest is cleared. */
  function SignOut(t: Table, userId: UserId): (o: Outcome<Account>)
    ensures o.result.Ok? <==> userId in t
    ensures o.result.Err? ==> o.table == t
    ensures o.result.Ok? ==>
      OthersUnchanged(t, o.table, userId) && o.table[userId] == t[userId].(refreshToken := None)
    ensures Valid(t) ==> Valid(o.table)
  {
    UserTable.UpdateHashedRefreshToken(t, userId, None)
  }

  // ---------------------------------------------------------------------
  // Google OAuth
  // ---------------------------------------------------------------------

  /** The create request for a first Google sign-in: a random password
      (already hashed once here), verified, terms not accepted, no
      newsletter. */
  function OAuthDraft(googleUser: CreateUserDto, randomPassword: string): (d: CreateUserDto)
    ensures d.emailVerified == Some(true) && !d.termsAccepted && d.newsletterOptIn == Some(false)
    ensures d.email == googleUser.email && d.password == Hash(randomPassword)
  {
    googleUser.(password := Hash(randomPassword), emailVerified := Some(true),
                termsAccepted := false, newsletterOptIn := Some(false))
  }

  /** validateGoogleOAuthUser: an existing account is marked verified if it
      was not, with its terms flag left as it is; otherwise a verified
      account without accepted terms is created. Any store failure becomes
      the same InternalServerError. */
  ghost function ValidateGoogleOAuthUser(t: Table, googleUser: CreateUserDto, id: UserId, randomPassword: string,
                                         now: Time): (o: Outcome<OAuthUserResult>)
    ensures o.result.Err? ==> o.table == t && o.result.error == InternalServerError(GoogleFailed)
    ensures Valid(t) && UserTable.EmailTaken(t, googleUser.email) ==>
      var k := UserTable.IdOfEmail(t, googleUser.email);
      && OthersUnchanged(t, o.table, k)
      && o.result == Ok(UserResult(Some(o.table[k]), false))
      && o.table[k].emailVerified
      && o.table[k].termsAccepted == t[k].termsAccepted
      && o.table[k].newsletterOptIn == t[k].newsletterOptIn
      && SameIdentity(t[k], o.table[k]) && SamePassword(t[k], o.table[k]) && SameSession(t[k], o.table[k])
    ensures !UserTable.EmailTaken(t, googleUser.email) ==>
      (o.result.Ok? <==> id !in t && !UserTable.UsernameTaken(t, googleUser.username))
    ensures !UserTable.EmailTaken(t, googleUser.email) && o.result.Ok? ==>
      && o.table.Keys == t.Keys + {id} && (forall k :: k in t ==> o.table[k] == t[k])
      && o.result == Ok(NewUserResult(o.table[id], true))
      && o.table[id].email == googleUser.email
      && o.table[id].emailVerified && !o.table[id].termsAccepted && !o.table[id].newsletterOptIn
      && o.table[id].password == Hash(Hash(randomPassword))
    ensures Valid(t) ==> Valid(o.table)
  {
    var u := UserTable.FindByEmail(t, googleUser.email);
    if u.Some? then
      if !u.value.emailVerified then
        var m := UserTable.MarkEmailAsVerified(t, u.value.id);
        if m.result.Err? then Outcome(Err(InternalServerError(GoogleFailed)), t)
        else Outcome(Ok(UserResult(UserTable.FindByEmail(m.table, googleUser.email), false)), m.table)
      else
        Outcome(Ok(UserResult(u, false)), t)
    else
      var c := UserTable.Create(t, id, OAuthDraft(googleUser, randomPassword), None, None, now);
      if c.result.Err? then Outcome(Err(InternalServerError(GoogleFailed)), t)
      else Outcome(Ok(NewUserResult(c.result.value, true)), c.table)
  }

  /** acceptOAuthTerms: refusing the terms is a BadRequest before any
      lookup; an unknown id is NotFound; otherwise terms are recorded as
      accepted now, with the newsletter choice (false when not given). */
  function AcceptOAuthTerms(t: Table, userId: UserId, termsAccepted: bool, newsletterOptIn: Option<bool>, now: Time)
    : (o: Outcome<string>)
    ensures !termsAccepted ==> o == Outcome(Err(BadRequest(TermsRequired)), t)
    ensures termsAccepted && userId !in t ==> o == Outcome(Err(NotFound(UserNotFound)), t)
    ensures o.result.Ok? <==> termsAccepted && userId in t
    ensures o.result.Ok? ==>
      && o.result.value == TermsRecorded
      && OthersUnchanged(t, o.table, userId)
      && o.table[userId] == t[userId].(termsAccepted := true, termsAcceptedAt := Some(now),
                                       newsletterOptIn := newsletterOptIn == Some(true))
    ensures Valid(t) ==> Valid(o.table)
  {
    if !termsAccepted then Outcome(Err(BadRequest(TermsRequired)), t)
    else
      var u := UserTable.FindByUserId(t, userId);
      if u.None? then Outcome(Err(NotFound(UserNotFound)), t)
      else
        var s := UserTable.UpdateTermsAcceptance(t, userId, termsAccepted, newsletterOptIn.GetOr(false), now);
        Outcome(Ok(TermsRecorded), s.table)
  }

  // ---------------------------------------------------------------------
  // Email verification
  // ---------------------------------------------------------------------

  /** verifyEmail: an empty, unknown or expired token is a BadRequest and
      changes nothing; a live token marks its account verified and clears
      the token pair. */
  ghost function VerifyEmail(t: Table, token: string, now: Time): (o: Outcome<string>)
    ensures o.result == Err(BadRequest(VerificationRequired)) <==> token == ""
    ensures o.result == Err(BadRequest(InvalidVerification)) <==>
      token != "" && VerificationTokenUnused(t, token)
    ensures o.result == Err(BadRequest(VerificationExpired)) <==>
      token != "" && !VerificationTokenUnused(t, token)
      && Expired(UserTable.FindByVerificationToken(t, token).value.verificationTokenExpiry, now)
    ensures o.result.Err? ==> o.table == t || o.result.error == InternalServerError(UserTable.MarkVerifiedError)
    ensures Valid(t) && o.result.Ok? ==> o.result.value == EmailVerified
    ensures Valid(t) ==> (o.result.Ok? <==>
      token != "" && exists k :: k in t && t[k].verificationToken == Some(token)
                                 && !Expired(t[k].verificationTokenExpiry, now))
    ensures Valid(t) && o.result.Ok? ==>
      exists k :: k in t && t[k].verificationToken == Some(token)
        && OthersUnchanged(t, o.table, k)
        && o.table[k] == t[k].(emailVerified := true, verificationToken := None, verificationTokenExpiry := None)
    ensures Valid(t) ==> Valid(o.table)
  {
    if token == "" then Outcome(Err(BadRequest(VerificationRequired)), t)
    else
      var u := UserTable.FindByVerificationToken(t, token);
      if u.None? then Outcome(Err(BadRequest(InvalidVerification)), t)
      else if Expired(u.value.verificationTokenExpiry, now) then Outcome(Err(BadRequest(VerificationExpired)), t)
      else if u.value.emailVerified then Outcome(Ok(AlreadyVerified), t)
      else
        var m := UserTable.MarkEmailAsVerified(t, u.value.id);
        if m.result.Err? then Outcome(Err(m.result.error), t)
        else Outcome(Ok(EmailVerified), m.table)
  }

  /** resendVerificationEmail: an unknown email is Unauthorized and a
      verified one a BadRequest; otherwise a fresh 24-hour token replaces
      the pending one, and a failed email is reported after the token
      was stored. */
  ghost function ResendVerificationEmail(t: Table, email: string, token: string, now: Time, mail: Mail)
    : (o: Outcome<string>)
    ensures o.result == Err(Unauthorized(UserNotFound)) <==> !UserTable.EmailTaken(t, email)
    ensures o.result == Err(BadRequest(AlreadyVerified)) <==>
      UserTable.EmailTaken(t, email) && UserTable.FindByEmail(t, email).value.emailVerified
    ensures Valid(t) && UserTable.EmailTaken(t, email) && !UserTable.FindByEmail(t, email).value.emailVerified ==>
      var k := UserTable.IdOfEmail(t, email);
      && o.result == (if mail.Delivered? then Ok(VerificationSent) else Err(SendFailure(mail.reason)))
      && OthersUnchanged(t, o.table, k)
      && o.table[k] == t[k].(verificationToken := Some(token),
                             verificationTokenExpiry := Some(now + VerificationHours * HourMs))
    ensures Valid(t) && VerificationTokenUnused(t, token) ==> Valid(o.table)
  {
    var u := UserTable.FindByEmail(t, email);
    if u.None? then Outcome(Err(Unauthorized(UserNotFound)), t)
    else if u.value.emailVerified then Outcome(Err(BadRequest(AlreadyVerified)), t)
    else
      var g := GenerateToken(token, now, VerificationHours);
      var s := UserTable.UpdateVerificationToken(t, u.value.id, g.token, g.expiry);
      if s.result.Err? then Outcome(Err(s.result.error), t)
      else if mail.MailFailed? then Outcome(Err(SendFailure(mail.reason)), s.table)
      else Outcome(Ok(VerificationSent), s.table)
  }

  // ---------------------------------------------------------------------
  // Passwords
  // ---------------------------------------------------------------------

  /** forgotPassword: the same message whether or not the email is known;
      only a known account gets a one-hour reset token. */
  ghost function ForgotPassword(t: Table, email: string, token: string, now: Time, mail: Mail): (o: Outcome<string>)
    ensures !UserTable.EmailTaken(t, email) ==> o == Outcome(Ok(ResetLinkSent), t)
    ensures Valid(t) && UserTable.EmailTaken(t, email) ==>
      var k := UserTable.IdOfEmail(t, email);
      && o.result == (if mail.Delivered? then Ok(ResetLinkSent) else Err(SendFailure(mail.reason)))
      && OthersUnchanged(t, o.table, k)
      && o.table[k] == t[k].(pwdResetToken := Some(token), pwdResetTokenExpiry := Some(now + ResetHours * HourMs))
    ensures Valid(t) && ResetTokenUnused(t, token) ==> Valid(o.table)
  {
    var u := UserTable.FindByEmail(t, email);
    if u.None? then Outcome(Ok(ResetLinkSent), t)
    else
      var g := GenerateToken(token, now, ResetHours);
      var s := UserTable.UpdatePasswordResetToken(t, u.value.id, g.token, g.expiry);
      if s.result.Err? then Outcome(Err(s.result.error), t)
      else if mail.MailFailed? then Outcome(Err(SendFailure(mail.reason)), s.table)
      else Outcome(Ok(ResetLinkSent), s.table)
  }

  /** resetPassword: an empty, unknown or expired token is a BadRequest
      and changes nothing; otherwise the new password's digest is stored
      and the reset pair cleared. */
  ghost function ResetPassword(t: Table, token: string, password: string, now: Time): (o: Outcome<string>)
    ensures o.result == Err(BadRequest(ResetRequired)) <==> token == ""
    ensures o.result == Err(BadRequest(InvalidReset)) <==> token != "" && ResetTokenUnused(t, token)
    ensures o.result == Err(BadRequest(ResetExpired)) <==>
      token != "" && !ResetTokenUnused(t, token)
      && Expired(UserTable.FindByPasswordResetToken(t, token).value.pwdResetTokenExpiry, now)
    ensures o.result.Err? ==> o.table == t
    ensures Valid(t) ==> (o.result.Ok? <==>
      token != "" && exists k :: k in t && t[k].pwdResetToken == Some(token) && !Expired(t[k].pwdResetTokenExpiry, now))
    ensures Valid(t) && o.result.Ok? ==>
      && o.result.value == PasswordWasReset
      && exists k :: k in t && t[k].pwdResetToken == Some(token)
           && OthersUnchanged(t, o.table, k)
           && o.table[k] == t[k].(password := Hash(password), pwdResetToken := None, pwdResetTokenExpiry := None)
    ensures Valid(t) ==> Valid(o.table)
  {
    if token == "" then Outcome(Err(BadRequest(ResetRequired)), t)
    else
      var u := UserTable.FindByPasswordResetToken(t, token);
      if u.None? then Outcome(Err(BadRequest(InvalidReset)), t)
      else if Expired(u.value.pwdResetTokenExpiry, now) then Outcome(Err(BadRequest(ResetExpired)), t)
      else
        var s := UserTable.UpdatePassword(t, u.value.id, Hash(password));
        if s.result.Err? then Outcome(Err(s.result.error), t)
        else Outcome(Ok(PasswordWasReset), s.table)
  }

  /** changeUserPassword: an unknown id is NotFound, a wrong current
      password Unauthorized; otherwise the change succeeds and the new
      digest is stored (and any pending reset token cleared with it). */
  function ChangeUserPassword(t: Table, userId: UserId, currentPassword: string, newPassword: string)
    : (o: Outcome<string>)
    ensures o.result == Err(NotFound(UserNotFound)) <==> userId !in t
    ensures o.result == Err(Unauthorized(CurrentPasswordWrong)) <==>
      userId in t && t[userId].password != Hash(currentPassword)
    ensures o.result.Ok? <==> userId in t && t[userId].password == Hash(currentPassword)
    ensures o.result.Err? ==> o.table == t
    ensures o.result.Ok? ==>
      && o.result.value == PasswordChanged
      && OthersUnchanged(t, o.table, userId)
      && o.table[userId] == t[userId].(password := Hash(newPassword), pwdResetToken := None,
                                       pwdResetTokenExpiry := None)
    ensures Valid(t) ==> Valid(o.table)
  {
    var u := UserTable.FindByUserId(t, userId);
    if u.None? then Outcome(Err(NotFound(UserNotFound)), t)
    else if !Verify(u.value.password, currentPassword) then Outcome(Err(Unauthorized(CurrentPasswordWrong)), t)
    else
      var s := UserTable.UpdatePassword(t, userId, Hash(newPassword));
      Outcome(Ok(PasswordChanged), s.table)
  }

  // ---------------------------------------------------------------------
  // Profile and newsletter
  // ---------------------------------------------------------------------

  /** The username a patch asks for, when it is a non-empty string (the
      only case the service checks). */
  predicate ChecksUsername(p: UserTable.ProfilePatch) {
    p.username.Some? && p.username.value != ""
  }

  /** updateUserProfile: Conflict exactly when the requested username
      belongs to a different user; otherwise only the supplied fields are
      updated (any store failure is the same InternalServerError). */
  ghost function UpdateUserProfile(t: Table, userId: UserId, p: UserTable.ProfilePatch): (o: Outcome<UserResponse>)
    ensures Valid(t) ==> (o.result == Err(Conflict(UsernameTaken)) <==>
      ChecksUsername(p) && exists k :: k in t && k != userId && t[k].username == p.username.value)
    ensures Valid(t) ==> (o.result.Ok? <==> userId in t && !UserTable.PatchCollides(t, userId, p))
    ensures o.result.Err? ==> o.table == t
    ensures o.result.Err? && o.result.error != Conflict(UsernameTaken) ==>
      o.result.error == InternalServerError(ProfileUpdateError)
    ensures o.result.Ok? ==>
      && userId in t
      && OthersUnchanged(t, o.table, userId)
      && o.table[userId] == UserTable.ApplyPatch(t[userId], p)
      && o.result.value.profile == ProfileOf(o.table[userId])
    ensures Valid(t) ==> Valid(o.table)
  {
    var existing := if ChecksUsername(p) then UserTable.FindByUsername(t, p.username.value) else None;
    if existing.Some? && existing.value.id != userId then Outcome(Err(Conflict(UsernameTaken)), t)
    else
      var s := UserTable.UpdateProfile(t, userId, p);
      if s.result.Err? then Outcome(Err(InternalServerError(ProfileUpdateError)), t)
      else Outcome(Ok(MapUserToResponse(ProfileOf(s.result.value), false, None)), s.table)
  }

  /** unsubscribeFromNewsletter: the purpose token must verify and carry
      the unsubscribe purpose; then only the newsletter flag of the
      account with the embedded email is turned off. */
  ghost function UnsubscribeFromNewsletter(t: Table, claims: Result<UnsubscribeClaims, string>): (o: Outcome<()>)
    ensures claims.Err? ==> o == Outcome(Err(PlainError(claims.error)), t)
    ensures claims.Ok? && claims.value.purpose != UnsubscribePurpose ==>
      o == Outcome(Err(PlainError(InvalidUnsubscribe)), t)
    ensures o.result.Ok? <==>
      claims.Ok? && claims.value.purpose == UnsubscribePurpose && UserTable.EmailTaken(t, claims.value.email)
    ensures o.result.Err? ==> o.table == t
    ensures o.result.Ok? ==>
      var k := UserTable.IdOfEmail(t, claims.value.email);
      OthersUnchanged(t, o.table, k) && o.table[k] == t[k].(newsletterOptIn := false)
    ensures Valid(t) ==> Valid(o.table)
  {
    if claims.Err? then Outcome(Err(PlainError(claims.error)), t)
    else if claims.value.purpose != UnsubscribePurpose then Outcome(Err(PlainError(InvalidUnsubscribe)), t)
    else UserTable.UpdateNewsletterPreference(t, claims.value.email, false)
  }
}
