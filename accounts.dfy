/** The account record of the API's user table, the error kinds the API
    raises, and the secret hasher behind passwords and refresh tokens. */
module Accounts {
  import opened Wrappers

  type UserId = string

  /** Milliseconds since the epoch (what `Date.now()` returns). */
  type Time = nat

  const HourMs: nat := 60 * 60 * 1000

  datatype Role = USER | ADMIN

  function RoleName(r: Role): string {
    match r
    case USER => "USER"
    case ADMIN => "ADMIN"
  }

  // ---------------------------------------------------------------------
  // Secret hasher (argon2): an ideal, collision-free one-way digest.
  // ---------------------------------------------------------------------

  type Digest = string

  const HashPrefix: string := "$argon2id$"

  /** The digest of `p`. The salt argon2 adds is left out: it does not
      change what `Verify` accepts. */
  function Hash(p: string): (d: Digest)
    ensures |d| == |HashPrefix| + |p|
  {
    HashPrefix + p
  }

  /** argon2 `verify(digest, plain)`. */
  predicate Verify(h: Digest, p: string) {
    h == Hash(p)
  }

  /** No two plaintexts share a digest, so a digest verifies exactly the
      plaintext it was made from. */
  lemma HashInjective(p: string, q: string)
    ensures Verify(Hash(p), q) <==> p == q
  {
    if Hash(p) == Hash(q) {
      assert p == Hash(p)[|HashPrefix|..];
      assert q == Hash(q)[|HashPrefix|..];
    }
  }

  // ---------------------------------------------------------------------
  // Errors: the Nest HTTP exceptions, and a plain `Error` (answered 500).
  // ---------------------------------------------------------------------

  datatype HttpError =
    | BadRequest(message: string)
    | Unauthorized(message: string)
    | Forbidden(message: string)
    | NotFound(message: string)
    | Conflict(message: string)
    | InternalServerError(message: string)
    | PlainError(message: string)

  // ---------------------------------------------------------------------
  // The user record.
  // ---------------------------------------------------------------------

  datatype Account = Account(
    id: UserId,
    email: string,
    username: string,
    firstName: string,
    lastName: Option<string>,
    role: Role,
    avatar: Option<string>,
    password: Digest,
    refreshToken: Option<Digest>,
    emailVerified: bool,
    verificationToken: Option<string>,
    verificationTokenExpiry: Option<Time>,
    pwdResetToken: Option<string>,
    pwdResetTokenExpiry: Option<Time>,
    termsAccepted: bool,
    termsAcceptedAt: Option<Time>,
    newsletterOptIn: bool)

  /** The user table, keyed by id. */
  type Table = map<UserId, Account>

  /** The body of a create request (CreateUserDto). `password` is the
      plaintext that the store hashes. */
  datatype CreateUserDto = CreateUserDto(
    email: string,
    username: string,
    firstName: string,
    lastName: Option<string>,
    avatarUrl: Option<string>,
    password: string,
    emailVerified: Option<bool>,
    termsAccepted: bool,
    newsletterOptIn: Option<bool>)

  /** What a store or service call produces: a result and the table after it. */
  datatype Outcome<+T> = Outcome(result: Result<T, HttpError>, table: Table)

  // ---------------------------------------------------------------------
  // Record invariants and field groups.
  // ---------------------------------------------------------------------

  /** A token and its expiry are stored together or not at all; a verified
      account has no pending verification token; the acceptance date is
      recorded exactly when terms are accepted. */
  predicate WellFormed(a: Account) {
    && (a.verificationToken.Some? <==> a.verificationTokenExpiry.Some?)
    && (a.pwdResetToken.Some? <==> a.pwdResetTokenExpiry.Some?)
    && (a.emailVerified ==> a.verificationToken.None?)
    && (a.termsAccepted <==> a.termsAcceptedAt.Some?)
  }

  /** The table invariant: rows are keyed by their own id, emails and
      usernames are unique (database constraints), pending tokens are
      unique (random 32-character tokens never collide), every row is
      well formed. */
  predicate Valid(t: Table) {
    && (forall id :: id in t ==> t[id].id == id && WellFormed(t[id]))
    && (forall i, j :: i in t && j in t && t[i].email == t[j].email ==> i == j)
    && (forall i, j :: i in t && j in t && t[i].username == t[j].username ==> i == j)
    && (forall i, j ::
          i in t && j in t && t[i].verificationToken.Some? && t[i].verificationToken == t[j].verificationToken
          ==> i == j)
    && (forall i, j ::
          i in t && j in t && t[i].pwdResetToken.Some? && t[i].pwdResetToken == t[j].pwdResetToken
          ==> i == j)
  }

  predicate SameIdentity(a: Account, b: Account) {
    && a.id == b.id && a.email == b.email && a.username == b.username
    && a.firstName == b.firstName && a.lastName == b.lastName
    && a.role == b.role && a.avatar == b.avatar
  }

  predicate SamePassword(a: Account, b: Account) {
    a.password == b.password
  }

  predicate SameSession(a: Account, b: Account) {
    a.refreshToken == b.refreshToken
  }

  predicate SameVerification(a: Account, b: Account) {
    && a.emailVerified == b.emailVerified
    && a.verificationToken == b.verificationToken
    && a.verificationTokenExpiry == b.verificationTokenExpiry
  }

  predicate SameReset(a: Account, b: Account) {
    a.pwdResetToken == b.pwdResetToken && a.pwdResetTokenExpiry == b.pwdResetTokenExpiry
  }

  predicate SameConsent(a: Account, b: Account) {
    && a.termsAccepted == b.termsAccepted && a.termsAcceptedAt == b.termsAcceptedAt
    && a.newsletterOptIn == b.newsletterOptIn
  }

  /** Every row other than `id` is the same in both tables. */
  predicate OthersUnchanged(t: Table, t': Table, id: UserId) {
    && t'.Keys == t.Keys
    && forall k :: k in t && k != id ==> t'[k] == t[k]
  }

  /** Any live token string is not the verification token of a row. */
  predicate VerificationTokenUnused(t: Table, token: string) {
    forall id :: id in t ==> t[id].verificationToken != Some(token)
  }

  predicate ResetTokenUnused(t: Table, token: string) {
    forall id :: id in t ==> t[id].pwdResetToken != Some(token)
  }
}
