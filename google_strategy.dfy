/** GoogleStrategy.validate: checks the Google profile, builds the sign-up
    request, hands it to the service's Google sign-in, picks the user out
    of whichever result shape comes back, and emits the session payload.
    Every failure leaves it as an Unauthorized error. */
module GoogleStrategy {
  import opened Wrappers
  import opened Accounts
  import UserTable
  import opened AuthLifecycle

  const NoEmail := "No email provided from Google OAuth!"
  const NoName := "No name provided from Google OAuth!"
  const NoAvatar := "No Avatar provided from Google OAuth!"
  const InvalidUserData := "Invalid user data from Google OAuth authentication"
  const NoUserData := "Failed to authenticate with Google OAuth!"
  const GoogleSignInFailed := "Failed to authenticate user via Google OAuth"

  datatype GoogleName = GoogleName(givenName: string, familyName: Option<string>)

  /** The fields of a Google profile that validate reads. */
  datatype GoogleProfile = GoogleProfile(
    emails: seq<string>,
    name: Option<GoogleName>,
    displayName: string,
    photos: seq<string>)

  /** The user the strategy hands to the session (`done(null, …)`). */
  datatype OAuthPayload = OAuthPayload(
    id: UserId,
    email: string,
    username: string,
    firstName: string,
    lastName: Option<string>,
    role: Role,
    avatarUrl: Option<string>,
    emailVerified: bool,
    needsTermsAcceptance: bool,
    isNewUser: bool)

  /** The object shapes the type guards tell apart, tried in this order:
      `{ newUser, isNewUser }`, `{ user, isNewUser }`, a bare user, and
      anything else. */
  datatype ResultShape =
    | NewUserShape(newUser: Option<Account>, isNewUser: bool)
    | UserShape(user: Option<Account>, isNewUser: bool)
    | DirectUser(direct: Account)
    | OtherShape

  /** The profile checks (emails, then name, then photos) and the sign-up
      request built from a profile that passes them. */
  function GoogleUser(p: GoogleProfile): (r: Result<CreateUserDto, HttpError>)
    ensures r == Err(Unauthorized(NoEmail)) <==> |p.emails| == 0
    ensures r == Err(Unauthorized(NoName)) <==> |p.emails| > 0 && p.name.None?
    ensures r == Err(Unauthorized(NoAvatar)) <==> |p.emails| > 0 && p.name.Some? && |p.photos| == 0
    ensures r.Ok? <==> |p.emails| > 0 && p.name.Some? && |p.photos| > 0
    ensures r.Ok? ==>
      && r.value.email == p.emails[0]
      && r.value.avatarUrl == Some(p.photos[0])
      && r.value.username == (if p.displayName != "" then p.displayName else p.emails[0])
      && r.value.firstName == p.name.value.givenName && r.value.lastName == p.name.value.familyName
      && r.value.emailVerified == Some(true) && !r.value.termsAccepted && r.value.newsletterOptIn == Some(false)
  {
    if |p.emails| == 0 then Err(Unauthorized(NoEmail))
    else if p.name.None? then Err(Unauthorized(NoName))
    else if |p.photos| == 0 then Err(Unauthorized(NoAvatar))
    else
      Ok(CreateUserDto(
        email := p.emails[0],
        username := if p.displayName != "" then p.displayName else p.emails[0],
        firstName := p.name.value.givenName,
        lastName := p.name.value.familyName,
        avatarUrl := Some(p.photos[0]),
        password := "",
        emailVerified := Some(true),
        termsAccepted := false,
        newsletterOptIn := Some(false)))
  }

  /** The shape of what the service's Google sign-in returns. */
  function ShapeOf(r: OAuthUserResult): (s: ResultShape)
    ensures s.NewUserShape? || s.UserShape?
  {
    match r
    case UserResult(user, isNewUser) => UserShape(user, isNewUser)
    case NewUserResult(newUser, isNewUser) => NewUserShape(Some(newUser), isNewUser)
  }

  /** The user data and the new-user flag picked out of a result shape; a
      bare user counts as an existing one. */
  function ExtractUserData(s: ResultShape): (r: Result<(Account, bool), HttpError>)
    ensures s.OtherShape? ==> r == Err(Unauthorized(InvalidUserData))
    ensures s.NewUserShape? ==> r == (if s.newUser.Some? then Ok((s.newUser.value, s.isNewUser))
                                      else Err(Unauthorized(NoUserData)))
    ensures s.UserShape? ==> r == (if s.user.Some? then Ok((s.user.value, s.isNewUser))
                                   else Err(Unauthorized(NoUserData)))
    ensures s.DirectUser? ==> r == Ok((s.direct, false))
    ensures r.Err? ==> r.error.Unauthorized?
  {
    match s
    case NewUserShape(u, isNew) => if u.Some? then Ok((u.value, isNew)) else Err(Unauthorized(NoUserData))
    case UserShape(u, isNew) => if u.Some? then Ok((u.value, isNew)) else Err(Unauthorized(NoUserData))
    case DirectUser(u) => Ok((u, false))
    case OtherShape => Err(Unauthorized(InvalidUserData))
  }

  /** The payload for a user: always reported verified, and asking for the
      terms exactly when they have not been accepted. The payload reads the
      user's `avatarUrl` field, which the selected row does not have (its
      field is `avatar`), so the payload never carries an avatar. */
  function Payload(u: Account, isNewUser: bool): (p: OAuthPayload)
    ensures p.emailVerified
    ensures p.needsTermsAcceptance <==> !u.termsAccepted
    ensures p.id == u.id && p.email == u.email && p.username == u.username && p.role == u.role
    ensures p.avatarUrl.None?
    ensures p.isNewUser == isNewUser
  {
    OAuthPayload(u.id, u.email, u.username, u.firstName, u.lastName, u.role, None,
                 true, !u.termsAccepted, isNewUser)
  }

  /** The catch block: Unauthorized errors pass through, anything else
      becomes one generic Unauthorized. */
  function AsUnauthorized(e: HttpError): (r: HttpError)
    ensures r.Unauthorized?
    ensures e.Unauthorized? ==> r == e
    ensures !e.Unauthorized? ==> r == Unauthorized(GoogleSignInFailed)
  {
    if e.Unauthorized? then e else Unauthorized(GoogleSignInFailed)
  }

  /** validate, as one function of the user table. */
  ghost function Validate(t: Table, p: GoogleProfile, id: UserId, randomPassword: string, now: Time)
    : (o: Outcome<OAuthPayload>)
    ensures o.result.Err? ==> o.result.error.Unauthorized?
    ensures GoogleUser(p).Err? ==> o == Outcome(Err(GoogleUser(p).error), t)
    ensures GoogleUser(p).Ok? ==>
      o.table == ValidateGoogleOAuthUser(t, GoogleUser(p).value, id, randomPassword, now).table
    ensures Valid(t) && GoogleUser(p).Ok? ==>
      (o.result.Ok? <==> ValidateGoogleOAuthUser(t, GoogleUser(p).value, id, randomPassword, now).result.Ok?)
    ensures Valid(t) ==> Valid(o.table)
    ensures Valid(t) && GoogleUser(p).Ok? && !UserTable.EmailTaken(t, p.emails[0]) && o.result.Ok? ==>
      && o.result.value.isNewUser && o.result.value.needsTermsAcceptance && o.result.value.emailVerified
      && o.result.value.id == id && o.result.value.email == p.emails[0]
    ensures Valid(t) && GoogleUser(p).Ok? && UserTable.EmailTaken(t, p.emails[0]) ==>
      var k := UserTable.IdOfEmail(t, p.emails[0]);
      && o.result.Ok?
      && o.result.value.id == k
      && !o.result.value.isNewUser
      && (o.result.value.needsTermsAcceptance <==> !t[k].termsAccepted)
  {
    var g := GoogleUser(p);
    if g.Err? then Outcome(Err(AsUnauthorized(g.error)), t)
    else
      var s := ValidateGoogleOAuthUser(t, g.value, id, randomPassword, now);
      if s.result.Err? then Outcome(Err(AsUnauthorized(s.result.error)), s.table)
      else
        var d := ExtractUserData(ShapeOf(s.result.value));
        if d.Err? then Outcome(Err(AsUnauthorized(d.error)), s.table)
        else Outcome(Ok(Payload(d.value.0, d.value.1)), s.table)
  }

  /** The service's own failure reaches the client as the generic
      Unauthorized, never as a server error. */
  lemma ServiceFailureBecomesUnauthorized(t: Table, p: GoogleProfile, id: UserId,
                                                             randomPassword: string, now: Time)
    requires GoogleUser(p).Ok?
    requires ValidateGoogleOAuthUser(t, GoogleUser(p).value, id, randomPassword, now).result.Err?
    ensures Validate(t, p, id, randomPassword, now).result == Err(Unauthorized(GoogleSignInFailed))
  {
    var s := ValidateGoogleOAuthUser(t, GoogleUser(p).value, id, randomPassword, now);
    assert s.result.error == InternalServerError(GoogleFailed);
  }
}
