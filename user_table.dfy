/** The operations of the user store (UserService) as functions on the
    table: each returns its result together with the table after it. The
    class UserService.UserStore performs the same operations in place and
    is proved equal to these. */
module UserTable {
  import opened Wrappers
  import opened Accounts

  const CreateError := "Error creating user"
  const MarkVerifiedError := "Error marking email as verified"
  const VerificationTokenError := "Error updating verification token"
  const ResetTokenError := "Error updating password reset token"
  const PasswordError := "Error updating password"
  const ProfileError := "Error updating user profile"
  const TermsError := "Error updating terms acceptance"
  /** The error Prisma raises when `update` finds no row (not caught by
      updateHashedRefreshToken). */
  const RecordNotFound := "Record to update not found."

  function NoEmailUser(email: string): string {
    "User with email " + email + " not found"
  }

  // ---------------------------------------------------------------------
  // Lookups
  // ---------------------------------------------------------------------

  predicate EmailTaken(t: Table, email: string) {
    exists k :: k in t && t[k].email == email
  }

  predicate UsernameTaken(t: Table, username: string) {
    exists k :: k in t && t[k].username == username
  }

  /** findByEmail: the row with that email, if any. */
  ghost function FindByEmail(t: Table, email: string): (r: Option<Account>)
    ensures r.None? <==> !EmailTaken(t, email)
    ensures r.Some? ==> r.value in t.Values && r.value.email == email
    ensures Valid(t) ==> forall k :: k in t && t[k].email == email ==> r == Some(t[k])
  {
    if EmailTaken(t, email) then
      var k :| k in t && t[k].email == email; Some(t[k])
    else None
  }

  /** findByUsername: the row with that username, if any. */
  ghost function FindByUsername(t: Table, username: string): (r: Option<Account>)
    ensures r.None? <==> !UsernameTaken(t, username)
    ensures r.Some? ==> r.value in t.Values && r.value.username == username
    ensures Valid(t) ==> forall k :: k in t && t[k].username == username ==> r == Some(t[k])
  {
    if UsernameTaken(t, username) then
      var k :| k in t && t[k].username == username; Some(t[k])
    else None
  }

  /** findByUserId: the row with that id, if any. */
  function FindByUserId(t: Table, id: UserId): (r: Option<Account>)
    ensures r.Some? <==> id in t
    ensures r.Some? ==> r.value == t[id]
  {
    if id in t then Some(t[id]) else None
  }

  /** findByVerificationToken: a row whose pending verification token is
      `token`, if any. */
  ghost function FindByVerificationToken(t: Table, token: string): (r: Option<Account>)
    ensures r.None? <==> VerificationTokenUnused(t, token)
    ensures r.Some? ==> r.value in t.Values && r.value.verificationToken == Some(token)
    ensures Valid(t) ==> forall k :: k in t && t[k].verificationToken == Some(token) ==> r == Some(t[k])
  {
    if !VerificationTokenUnused(t, token) then
      var k :| k in t && t[k].verificationToken == Some(token); Some(t[k])
    else None
  }

  /** findByPasswordResetToken: a row whose pending reset token is `token`. */
  ghost function FindByPasswordResetToken(t: Table, token: string): (r: Option<Account>)
    ensures r.None? <==> ResetTokenUnused(t, token)
    ensures r.Some? ==> r.value in t.Values && r.value.pwdResetToken == Some(token)
    ensures Valid(t) ==> forall k :: k in t && t[k].pwdResetToken == Some(token) ==> r == Some(t[k])
  {
    if !ResetTokenUnused(t, token) then
      var k :| k in t && t[k].pwdResetToken == Some(token); Some(t[k])
    else None
  }

  // ---------------------------------------------------------------------
  // The table invariant after writing one row
  // ---------------------------------------------------------------------

  /** Writing row `b` under its own id keeps the table valid when `b` is
      well formed and clashes with no other row on a unique column. */
  lemma ValidAfterPut(t: Table, id: UserId, b: Account)
    requires Valid(t) && b.id == id && WellFormed(b)
    requires forall k :: k in t && k != id ==> t[k].email != b.email && t[k].username != b.username
    requires b.verificationToken.Some? ==>
      forall k :: k in t && k != id ==> t[k].verificationToken != b.verificationToken
    requires b.pwdResetToken.Some? ==>
      forall k :: k in t && k != id ==> t[k].pwdResetToken != b.pwdResetToken
    ensures Valid(t[id := b])
  {
    var t' := t[id := b];
    forall i, j | i in t' && j in t' && t'[i].email == t'[j].email ensures i == j {
      if i != id && j != id { assert t'[i] == t[i] && t'[j] == t[j]; }
    }
    forall i, j | i in t' && j in t' && t'[i].username == t'[j].username ensures i == j {
      if i != id && j != id { assert t'[i] == t[i] && t'[j] == t[j]; }
    }
    forall i, j | i in t' && j in t' && t'[i].verificationToken.Some? && t'[i].verificationToken == t'[j].verificationToken
      ensures i == j
    {
      if i != id && j != id { assert t'[i] == t[i] && t'[j] == t[j]; }
    }
    forall i, j | i in t' && j in t' && t'[i].pwdResetToken.Some? && t'[i].pwdResetToken == t'[j].pwdResetToken
      ensures i == j
    {
      if i != id && j != id { assert t'[i] == t[i] && t'[j] == t[j]; }
    }
  }

  /** Rewriting a row under its id, keeping its email and username and
      introducing no pending token held elsewhere, keeps the table valid. */
  lemma ValidAfterRowUpdate(t: Table, id: UserId, b: Account)
    requires Valid(t) && id in t && b.id == id && WellFormed(b)
    requires b.email == t[id].email && b.username == t[id].username
    requires b.verificationToken.Some? ==>
      b.verificationToken == t[id].verificationToken || VerificationTokenUnused(t, b.verificationToken.value)
    requires b.pwdResetToken.Some? ==>
      b.pwdResetToken == t[id].pwdResetToken || ResetTokenUnused(t, b.pwdResetToken.value)
    ensures Valid(t[id := b])
  {
    ValidAfterPut(t, id, b);
  }

  // ---------------------------------------------------------------------
  // create
  // ---------------------------------------------------------------------

  /** The row `create` inserts: the password hashed, emailVerified and
      newsletterOptIn false unless given, the acceptance date set exactly
      when terms are accepted, no session and no reset token. */
  function NewAccount(id: UserId, dto: CreateUserDto, vt: Option<string>, vte: Option<Time>, now: Time): (a: Account)
    ensures a.id == id && a.email == dto.email && a.username == dto.username
    ensures a.password == Hash(dto.password)
    ensures a.emailVerified == (dto.emailVerified == Some(true))
    ensures a.newsletterOptIn == (dto.newsletterOptIn == Some(true))
    ensures a.termsAccepted == dto.termsAccepted
    ensures a.termsAcceptedAt.Some? <==> dto.termsAccepted
    ensures a.verificationToken == vt && a.verificationTokenExpiry == vte
    ensures a.refreshToken.None? && a.pwdResetToken.None? && a.pwdResetTokenExpiry.None?
  {
    Account(
      id := id, email := dto.email, username := dto.username,
      firstName := dto.firstName, lastName := dto.lastName,
      role := USER, avatar := dto.avatarUrl,
      password := Hash(dto.password), refreshToken := None,
      emailVerified := dto.emailVerified.GetOr(false),
      verificationToken := vt, verificationTokenExpiry := vte,
      pwdResetToken := None, pwdResetTokenExpiry := None,
      termsAccepted := dto.termsAccepted,
      termsAcceptedAt := if dto.termsAccepted then Some(now) else None,
      newsletterOptIn := dto.newsletterOptIn.GetOr(false))
  }

  /** What `create` needs so that the new row keeps the table valid. */
  predicate CreatableDraft(t: Table, dto: CreateUserDto, vt: Option<string>, vte: Option<Time>) {
    && (vt.Some? <==> vte.Some?)
    && (vt.Some? ==> VerificationTokenUnused(t, vt.value))
    && (dto.emailVerified == Some(true) ==> vt.None?)
  }

  /** create: inserts the new row, or fails (a unique constraint) when the
      id, the email or the username is already in use. */
  function Create(t: Table, id: UserId, dto: CreateUserDto, vt: Option<string>, vte: Option<Time>, now: Time)
    : (o: Outcome<Account>)
    ensures o.result.Err? <==> id in t || EmailTaken(t, dto.email) || UsernameTaken(t, dto.username)
    ensures o.result.Err? ==> o.result.error == InternalServerError(CreateError) && o.table == t
    ensures o.result.Ok? ==> o.table.Keys == t.Keys + {id} && o.table[id] == o.result.value
    ensures o.result.Ok? ==> o.result.value == NewAccount(id, dto, vt, vte, now)
    ensures o.result.Ok? ==> forall k :: k in t ==> o.table[k] == t[k]
    ensures Valid(t) && CreatableDraft(t, dto, vt, vte) ==> Valid(o.table)
  {
    if id in t || EmailTaken(t, dto.email) || UsernameTaken(t, dto.username) then
      Outcome(Err(InternalServerError(CreateError)), t)
    else
      var a := NewAccount(id, dto, vt, vte, now);
      assert Valid(t) && CreatableDraft(t, dto, vt, vte) ==> Valid(t[id := a]) by {
        if Valid(t) && CreatableDraft(t, dto, vt, vte) { ValidAfterPut(t, id, a); }
      }
      Outcome(Ok(a), t[id := a])
  }

  // ---------------------------------------------------------------------
  // Updates of one row
  // ---------------------------------------------------------------------

  /** markEmailAsVerified: verified, and both verification fields cleared
      together; nothing else changes. */
  function MarkEmailAsVerified(t: Table, id: UserId): (o: Outcome<Account>)
    ensures o.result.Ok? <==> id in t
    ensures o.result.Err? ==> o.result.error == InternalServerError(MarkVerifiedError) && o.table == t
    ensures o.result.Ok? ==> OthersUnchanged(t, o.table, id) && o.result.value == o.table[id]
    ensures o.result.Ok? ==> var a, b := t[id], o.table[id];
      && b.emailVerified && b.verificationToken.None? && b.verificationTokenExpiry.None?
      && SameIdentity(a, b) && SamePassword(a, b) && SameSession(a, b) && SameReset(a, b) && SameConsent(a, b)
    ensures Valid(t) ==> Valid(o.table)
  {
    if id !in t then Outcome(Err(InternalServerError(MarkVerifiedError)), t)
    else
      var a := t[id].(emailVerified := true, verificationToken := None, verificationTokenExpiry := None);
      assert Valid(t) ==> Valid(t[id := a]) by {
        if Valid(t) { ValidAfterRowUpdate(t, id, a); }
      }
      Outcome(Ok(a), t[id := a])
  }

  /** updateVerificationToken: token and expiry set together. */
  function UpdateVerificationToken(t: Table, id: UserId, token: string, expiry: Time): (o: Outcome<Account>)
    ensures o.result.Ok? <==> id in t
    ensures o.result.Err? ==> o.result.error == InternalServerError(VerificationTokenError) && o.table == t
    ensures o.result.Ok? ==> OthersUnchanged(t, o.table, id) && o.result.value == o.table[id]
    ensures o.result.Ok? ==> var a, b := t[id], o.table[id];
      && b.verificationToken == Some(token) && b.verificationTokenExpiry == Some(expiry)
      && b.emailVerified == a.emailVerified
      && SameIdentity(a, b) && SamePassword(a, b) && SameSession(a, b) && SameReset(a, b) && SameConsent(a, b)
    ensures Valid(t) && VerificationTokenUnused(t, token) && (id in t ==> !t[id].emailVerified) ==> Valid(o.table)
  {
    if id !in t then Outcome(Err(InternalServerError(VerificationTokenError)), t)
    else
      var a := t[id].(verificationToken := Some(token), verificationTokenExpiry := Some(expiry));
      assert Valid(t) && VerificationTokenUnused(t, token) && !t[id].emailVerified ==> Valid(t[id := a]) by {
        if Valid(t) && VerificationTokenUnused(t, token) && !t[id].emailVerified { ValidAfterRowUpdate(t, id, a); }
      }
      Outcome(Ok(a), t[id := a])
  }

  /** updateHashedRefreshToken: only the refresh digest changes; None
      (signed out) is allowed. */
  function UpdateHashedRefreshToken(t: Table, id: UserId, digest: Option<Digest>): (o: Outcome<Account>)
    ensures o.result.Ok? <==> id in t
    ensures o.result.Err? ==> o.result.error == PlainError(RecordNotFound) && o.table == t
    ensures o.result.Ok? ==> OthersUnchanged(t, o.table, id) && o.result.value == o.table[id]
    ensures o.result.Ok? ==> var a, b := t[id], o.table[id];
      && b.refreshToken == digest
      && SameIdentity(a, b) && SamePassword(a, b) && SameVerification(a, b) && SameReset(a, b) && SameConsent(a, b)
    ensures Valid(t) ==> Valid(o.table)
  {
    if id !in t then Outcome(Err(PlainError(RecordNotFound)), t)
    else
      var a := t[id].(refreshToken := digest);
      assert Valid(t) ==> Valid(t[id := a]) by {
        if Valid(t) { ValidAfterRowUpdate(t, id, a); }
      }
      Outcome(Ok(a), t[id := a])
  }

  /** updatePasswordResetToken: reset token and expiry set together. */
  function UpdatePasswordResetToken(t: Table, id: UserId, token: string, expiry: Time): (o: Outcome<Account>)
    ensures o.result.Ok? <==> id in t
    ensures o.result.Err? ==> o.result.error == InternalServerError(ResetTokenError) && o.table == t
    ensures o.result.Ok? ==> OthersUnchanged(t, o.table, id) && o.result.value == o.table[id]
    ensures o.result.Ok? ==> var a, b := t[id], o.table[id];
      && b.pwdResetToken == Some(token) && b.pwdResetTokenExpiry == Some(expiry)
      && SameIdentity(a, b) && SamePassword(a, b) && SameSession(a, b) && SameVerification(a, b) && SameConsent(a, b)
    ensures Valid(t) && ResetTokenUnused(t, token) ==> Valid(o.table)
  {
    if id !in t then Outcome(Err(InternalServerError(ResetTokenError)), t)
    else
      var a := t[id].(pwdResetToken := Some(token), pwdResetTokenExpiry := Some(expiry));
      assert Valid(t) && ResetTokenUnused(t, token) ==> Valid(t[id := a]) by {
        if Valid(t) && ResetTokenUnused(t, token) { ValidAfterRowUpdate(t, id, a); }
      }
      Outcome(Ok(a), t[id := a])
  }

  /** updatePassword: the new digest replaces the password and the reset
      pair is cleared in the same update. */
  function UpdatePassword(t: Table, id: UserId, digest: Digest): (o: Outcome<Account>)
    ensures o.result.Ok? <==> id in t
    ensures o.result.Err? ==> o.result.error == InternalServerError(PasswordError) && o.table == t
    ensures o.result.Ok? ==> OthersUnchanged(t, o.table, id) && o.result.value == o.table[id]
    ensures o.result.Ok? ==> var a, b := t[id], o.table[id];
      && b.password == digest && b.pwdResetToken.None? && b.pwdResetTokenExpiry.None?
      && SameIdentity(a, b) && SameSession(a, b) && SameVerification(a, b) && SameConsent(a, b)
    ensures Valid(t) ==> Valid(o.table)
  {
    if id !in t then Outcome(Err(InternalServerError(PasswordError)), t)
    else
      var a := t[id].(password := digest, pwdResetToken := None, pwdResetTokenExpiry := None);
      assert Valid(t) ==> Valid(t[id := a]) by {
        if Valid(t) { ValidAfterRowUpdate(t, id, a); }
      }
      Outcome(Ok(a), t[id := a])
  }

  /** The fields of a profile update; None leaves a field as it is
      (Prisma ignores undefined fields). */
  datatype ProfilePatch = ProfilePatch(
    firstName: Option<string>,
    lastName: Option<string>,
    username: Option<string>,
    newsletterOptIn: Option<bool>)

  function ApplyPatch(a: Account, p: ProfilePatch): (b: Account)
    ensures b.firstName == p.firstName.GetOr(a.firstName)
    ensures b.lastName == (if p.lastName.Some? then p.lastName else a.lastName)
    ensures b.username == p.username.GetOr(a.username)
    ensures b.newsletterOptIn == p.newsletterOptIn.GetOr(a.newsletterOptIn)
    ensures b.id == a.id && b.email == a.email && b.role == a.role && b.avatar == a.avatar
    ensures SamePassword(a, b) && SameSession(a, b) && SameVerification(a, b) && SameReset(a, b)
    ensures b.termsAccepted == a.termsAccepted && b.termsAcceptedAt == a.termsAcceptedAt
  {
    a.(firstName := p.firstName.GetOr(a.firstName),
       lastName := if p.lastName.Some? then p.lastName else a.lastName,
       username := p.username.GetOr(a.username),
       newsletterOptIn := p.newsletterOptIn.GetOr(a.newsletterOptIn))
  }

  /** Another row than `id` already holds the username the patch sets. */
  predicate PatchCollides(t: Table, id: UserId, p: ProfilePatch) {
    p.username.Some? && exists k :: k in t && k != id && t[k].username == p.username.value
  }

  /** updateProfile: only the supplied profile fields change; the update
      fails when the row is missing or the username is held by another row
      (unique constraint). */
  function UpdateProfile(t: Table, id: UserId, p: ProfilePatch): (o: Outcome<Account>)
    ensures o.result.Ok? <==> id in t && !PatchCollides(t, id, p)
    ensures o.result.Err? ==> o.result.error == InternalServerError(ProfileError) && o.table == t
    ensures o.result.Ok? ==> OthersUnchanged(t, o.table, id) && o.result.value == o.table[id]
    ensures o.result.Ok? ==> o.table[id] == ApplyPatch(t[id], p)
    ensures Valid(t) ==> Valid(o.table)
  {
    if id !in t || PatchCollides(t, id, p) then Outcome(Err(InternalServerError(ProfileError)), t)
    else
      var a := ApplyPatch(t[id], p);
      Outcome(Ok(a), t[id := a])
  }

  /** updateTermsAcceptance: the acceptance date is set exactly when terms
      are accepted, and the newsletter choice is recorded. */
  function UpdateTermsAcceptance(t: Table, id: UserId, accepted: bool, newsletterOptIn: bool, now: Time)
    : (o: Outcome<Account>)
    ensures o.result.Ok? <==> id in t
    ensures o.result.Err? ==> o.result.error == InternalServerError(TermsError) && o.table == t
    ensures o.result.Ok? ==> OthersUnchanged(t, o.table, id) && o.result.value == o.table[id]
    ensures o.result.Ok? ==> var a, b := t[id], o.table[id];
      && b.termsAccepted == accepted && (b.termsAcceptedAt.Some? <==> accepted)
      && b.newsletterOptIn == newsletterOptIn
      && SameIdentity(a, b) && SamePassword(a, b) && SameSession(a, b) && SameVerification(a, b) && SameReset(a, b)
    ensures Valid(t) ==> Valid(o.table)
  {
    if id !in t then Outcome(Err(InternalServerError(TermsError)), t)
    else
      var a := t[id].(termsAccepted := accepted,
                      termsAcceptedAt := if accepted then Some(now) else None,
                      newsletterOptIn := newsletterOptIn);
      assert Valid(t) ==> Valid(t[id := a]) by {
        if Valid(t) { ValidAfterPut(t, id, a); }
      }
      Outcome(Ok(a), t[id := a])
  }

  /** The id of the row holding `email`. */
  ghost function IdOfEmail(t: Table, email: string): (k: UserId)
    requires EmailTaken(t, email)
    ensures k in t && t[k].email == email
  {
    var k :| k in t && t[k].email == email; k
  }

  /** updateNewsletterPreference: NotFound when no row has the email;
      otherwise only that row's newsletterOptIn changes. */
  ghost function UpdateNewsletterPreference(t: Table, email: string, preference: bool): (o: Outcome<()>)
    ensures o.result.Err? <==> !EmailTaken(t, email)
    ensures o.result.Err? ==> o.result.error == NotFound(NoEmailUser(email)) && o.table == t
    ensures o.result.Ok? ==> var k := IdOfEmail(t, email);
      && OthersUnchanged(t, o.table, k)
      && o.table[k] == t[k].(newsletterOptIn := preference)
    ensures Valid(t) ==> Valid(o.table)
  {
    if !EmailTaken(t, email) then Outcome(Err(NotFound(NoEmailUser(email))), t)
    else
      var k := IdOfEmail(t, email);
      var a := t[k].(newsletterOptIn := preference);
      assert Valid(t) ==> Valid(t[k := a]) by {
        if Valid(t) { ValidAfterRowUpdate(t, k, a); }
      }
      Outcome(Ok(()), t[k := a])
  }
}
