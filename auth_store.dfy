/** The web client's auth store (a zustand store): who is signed in,
    whether a sign-in is in progress, and the session it writes. The
    awaited calls (reading or writing the session cookie, signIn, the
    sign-out request) are inputs holding what they returned or threw. */
module AuthStore {
  import opened Wrappers
  import opened WebSession
  import ApiErrors

  /** The API's answer to a sign-in or registration. */
  datatype AuthResponse = AuthResponse(
    id: string,
    email: string,
    username: string,
    firstName: string,
    lastName: Option<string>,
    role: UserRole,
    avatar: Option<string>,
    emailVerified: bool,
    newsletterOptIn: bool,
    accessToken: Option<string>,
    refreshToken: Option<string>)

  datatype SignInForm = SignInForm(email: string, password: string)

  /** What login is given: credentials (they have a `password` field) or
      an answer obtained elsewhere (registration, Google sign-in). */
  datatype LoginInput = Credentials(form: SignInForm) | Issued(response: AuthResponse)

  /** What an awaited call threw. */
  datatype Failure = ApiFailure(error: ApiErrors.ApiError) | OtherFailure(message: string)

  /** Partial<User>: the fields an update supplies. */
  datatype UserPatch = UserPatch(
    id: Option<string>,
    email: Option<string>,
    username: Option<string>,
    firstName: Option<string>,
    lastName: Option<Option<string>>,
    role: Option<UserRole>,
    avatar: Option<Option<string>>,
    emailVerified: Option<bool>,
    newsletterOptIn: Option<bool>)

  predicate Truthy(s: Option<string>) {
    s.Some? && s.value != ""
  }

  /** `s || ""`. */
  function OrEmpty(s: Option<string>): (r: string)
    ensures Truthy(s) ==> r == s.value
    ensures !Truthy(s) ==> r == ""
  {
    if Truthy(s) then s.value else ""
  }

  /** A response that can start a session: both tokens present. */
  predicate HasTokens(r: AuthResponse) {
    Truthy(r.accessToken) && Truthy(r.refreshToken)
  }

  /** The user login keeps in the store. */
  function UserOf(r: AuthResponse): (u: User)
    ensures u.id == r.id && u.email == r.email && u.role == r.role
    ensures u.lastName == r.lastName && u.avatar == r.avatar
  {
    User(r.id, r.email, r.username, r.firstName, r.lastName, r.role, r.avatar, r.emailVerified, r.newsletterOptIn)
  }

  /** The payload login writes to the session cookie: missing last name
      and avatar become empty strings. */
  function SessionOf(r: AuthResponse): (s: Session)
    requires HasTokens(r)
    ensures s.user.Some? && s.user.value.id == r.id && s.user.value.role == r.role
    ensures s.user.value.lastName == Some(OrEmpty(r.lastName)) && s.user.value.avatar == Some(OrEmpty(r.avatar))
    ensures s.accessToken == r.accessToken.value && s.refreshToken == r.refreshToken.value
    ensures s.accessToken != "" && s.refreshToken != ""
  {
    Session(Some(UserOf(r).(lastName := Some(OrEmpty(r.lastName)), avatar := Some(OrEmpty(r.avatar)))),
            r.accessToken.value, r.refreshToken.value)
  }

  /** `{ ...user, ...patch }`. */
  function Merge(u: User, p: UserPatch): (m: User)
    ensures m.id == p.id.GetOr(u.id) && m.email == p.email.GetOr(u.email)
    ensures m.username == p.username.GetOr(u.username) && m.firstName == p.firstName.GetOr(u.firstName)
    ensures m.lastName == p.lastName.GetOr(u.lastName) && m.role == p.role.GetOr(u.role)
    ensures m.avatar == p.avatar.GetOr(u.avatar) && m.emailVerified == p.emailVerified.GetOr(u.emailVerified)
    ensures m.newsletterOptIn == p.newsletterOptIn.GetOr(u.newsletterOptIn)
  {
    User(p.id.GetOr(u.id), p.email.GetOr(u.email), p.username.GetOr(u.username),
         p.firstName.GetOr(u.firstName), p.lastName.GetOr(u.lastName), p.role.GetOr(u.role),
         p.avatar.GetOr(u.avatar), p.emailVerified.GetOr(u.emailVerified),
         p.newsletterOptIn.GetOr(u.newsletterOptIn))
  }

  /** A session that initialize accepts: it has a user and an access token. */
  predicate Usable(s: Result<Option<Session>, Failure>) {
    s.Ok? && s.value.Some? && s.value.value.user.Some? && s.value.value.accessToken != ""
  }

  /** Login merges the empty last name and avatar the session stores back
      into the user that a later initialize reads. */
  lemma SessionRoundTrip(r: AuthResponse)
    requires HasTokens(r)
    ensures Usable(Ok(Some(SessionOf(r))))
    ensures SessionOf(r).user.value == UserOf(r).(lastName := Some(OrEmpty(r.lastName)), avatar := Some(OrEmpty(r.avatar)))
    ensures Truthy(r.lastName) && Truthy(r.avatar) ==>
      SessionOf(r).user.value == UserOf(r).(lastName := r.lastName, avatar := r.avatar)
  {
    assert Truthy(r.lastName) ==> Some(OrEmpty(r.lastName)) == r.lastName;
  }

  class AuthStore {
    var user: Option<User>
    var isLoading: bool
    var isAuthenticated: bool

    /** The store reports itself authenticated exactly when it holds a user. */
    ghost predicate Valid()
      reads this
    {
      isAuthenticated <==> user.Some?
    }

    constructor ()
      ensures user.None? && isLoading && !isAuthenticated
      ensures Valid()
    {
      user := None;
      isLoading := true;
      isAuthenticated := false;
    }

    /** initialize: authenticated exactly when the session read succeeded
        and has a user and an access token; loading always ends. */
    method Initialize(session: Result<Option<Session>, Failure>)
      modifies this
      ensures !isLoading
      ensures Usable(session) ==> isAuthenticated && user == session.value.value.user
      ensures !Usable(session) ==> !isAuthenticated && user.None?
      ensures Valid()
    {
      isLoading := true;
      if session.Err? {
        isLoading, isAuthenticated, user := false, false, None;
        return;
      }
      var s := session.value;
      if s.Some? && s.value.user.Some? && s.value.accessToken != "" {
        isAuthenticated, user, isLoading := true, s.value.user, false;
      } else {
        isAuthenticated, user, isLoading := false, None, false;
      }
    }

    /** login: credentials go through signIn, an issued answer is used as
        it is. With both tokens the session is written and the store signs
        in; without them only loading ends. A throw (from signIn or from
        writing the session) signs the store out and is rethrown.
        `written` is the payload handed to createSession, if any. The
        program's createSession catches its own failures and answers false,
        which login ignores, so there `sessionWrite` is always Ok and a
        failed cookie write leaves the store signed in; the Err case is the
        store's own catch for a session writer that throws. */
    method Login(data: LoginInput, signIn: Result<AuthResponse, Failure>, sessionWrite: Result<(), Failure>)
      returns (r: Result<AuthResponse, Failure>, written: Option<Session>)
      requires Valid()
      modifies this
      ensures var answer := if data.Credentials? then signIn else Ok(data.response);
        && !isLoading
        && (answer.Err? ==> r == answer && written.None? && user.None? && !isAuthenticated)
        && (answer.Ok? && HasTokens(answer.value) ==>
              && written == Some(SessionOf(answer.value))
              && (sessionWrite.Err? ==> r == Err(sessionWrite.error) && user.None? && !isAuthenticated)
              && (sessionWrite.Ok? ==> r == answer && user == Some(UserOf(answer.value)) && isAuthenticated))
        && (answer.Ok? && !HasTokens(answer.value) ==>
              r == answer && written.None? && user == old(user) && isAuthenticated == old(isAuthenticated))
      ensures Valid()
    {
      isLoading := true;
      written := None;
      var answer: Result<AuthResponse, Failure>;
      if data.Credentials? {
        answer := signIn;
      } else {
        answer := Ok(data.response);
      }
      if answer.Err? {
        isLoading, isAuthenticated, user := false, false, None;
        return answer, None;
      }
      var result := answer.value;
      if HasTokens(result) {
        written := Some(SessionOf(result));
        if sessionWrite.Err? {
          isLoading, isAuthenticated, user := false, false, None;
          return Err(sessionWrite.error), written;
        }
        isAuthenticated, user, isLoading := true, Some(UserOf(result)), false;
      } else {
        isLoading := false;
      }
      r := Ok(result);
    }

    /** logout: signed out afterwards whatever the sign-out request and the
        session deletion did. */
    method Logout(signout: Result<(), Failure>, deletion: Result<(), Failure>)
      modifies this
      ensures user.None? && !isAuthenticated && isLoading == old(isLoading)
      ensures Valid()
    {
      // A failed sign-out request is only logged, and a failed deletion
      // lands in the outer catch, which clears the same two fields: every
      // path ends here.
      user, isAuthenticated := None, false;
    }

    /** updateUser: the supplied fields are merged into a present user; no
        user stays no user. */
    method UpdateUser(patch: UserPatch)
      requires Valid()
      modifies this
      ensures user == (if old(user).Some? then Some(Merge(old(user).value, patch)) else None)
      ensures isAuthenticated == old(isAuthenticated) && isLoading == old(isLoading)
      ensures Valid()
    {
      if user.Some? {
        user := Some(Merge(user.value, patch));
      }
    }
  }
}
