/** The web client's view of a signed-in user and of the session cookie
    payload. */
module WebSession {
  import opened Wrappers

  datatype UserRole = USER | ADMIN

  /** The user as the web client keeps it. */
  datatype User = User(
    id: string,
    email: string,
    username: string,
    firstName: string,
    lastName: Option<string>,
    role: UserRole,
    avatar: Option<string>,
    emailVerified: bool,
    newsletterOptIn: bool)

  /** The decrypted session cookie; `user` is None when the payload has no
      user. An empty token string is JavaScript-falsy. */
  datatype Session = Session(user: Option<User>, accessToken: string, refreshToken: string)
}
