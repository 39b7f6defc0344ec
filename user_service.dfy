/** UserService: the user store as an object whose table its methods update
    in place. Each method is proved to do exactly what the corresponding
    function of UserTable describes. */
module UserService {
  import opened Wrappers
  import opened Accounts
  import UserTable

  class UserStore {
    /** The user table (the Prisma `user` model). */
    var accounts: Table

    ghost predicate Valid()
      reads this
    {
      Accounts.Valid(accounts)
    }

    constructor ()
      ensures accounts == map[] && Valid()
    {
      accounts := map[];
    }

    method Create(id: UserId, dto: CreateUserDto, vt: Option<string>, vte: Option<Time>, now: Time)
      returns (r: Result<Account, HttpError>)
      modifies this
      ensures var o := UserTable.Create(old(accounts), id, dto, vt, vte, now);
        r == o.result && accounts == o.table
    {
      if id in accounts
        || (exists k :: k in accounts && accounts[k].email == dto.email)
        || (exists k :: k in accounts && accounts[k].username == dto.username)
      {
        r := Err(InternalServerError(UserTable.CreateError));
        return;
      }
      var a := UserTable.NewAccount(id, dto, vt, vte, now);
      accounts := accounts[id := a];
      r := Ok(a);
    }

    method MarkEmailAsVerified(id: UserId) returns (r: Result<Account, HttpError>)
      modifies this
      ensures var o := UserTable.MarkEmailAsVerified(old(accounts), id);
        r == o.result && accounts == o.table
    {
      if id !in accounts {
        r := Err(InternalServerError(UserTable.MarkVerifiedError));
        return;
      }
      var a := accounts[id].(emailVerified := true, verificationToken := None, verificationTokenExpiry := None);
      accounts := accounts[id := a];
      r := Ok(a);
    }

    method FindByVerificationToken(token: string) returns (r: Option<Account>)
      requires Valid()
      ensures r == UserTable.FindByVerificationToken(accounts, token)
    {
      if exists k :: k in accounts && accounts[k].verificationToken == Some(token) {
        var k :| k in accounts && accounts[k].verificationToken == Some(token);
        r := Some(accounts[k]);
      } else {
        r := None;
      }
    }

    method UpdateVerificationToken(id: UserId, token: string, expiry: Time) returns (r: Result<Account, HttpError>)
      modifies this
      ensures var o := UserTable.UpdateVerificationToken(old(accounts), id, token, expiry);
        r == o.result && accounts == o.table
    {
      if id !in accounts {
        r := Err(InternalServerError(UserTable.VerificationTokenError));
        return;
      }
      var a := accounts[id].(verificationToken := Some(token), verificationTokenExpiry := Some(expiry));
      accounts := accounts[id := a];
      r := Ok(a);
    }

    method FindByEmail(email: string) returns (r: Option<Account>)
      requires Valid()
      ensures r == UserTable.FindByEmail(accounts, email)
    {
      if exists k :: k in accounts && accounts[k].email == email {
        var k :| k in accounts && accounts[k].email == email;
        r := Some(accounts[k]);
      } else {
        r := None;
      }
    }

    method FindByUsername(username: string) returns (r: Option<Account>)
      requires Valid()
      ensures r == UserTable.FindByUsername(accounts, username)
    {
      if exists k :: k in accounts && accounts[k].username == username {
        var k :| k in accounts && accounts[k].username == username;
        r := Some(accounts[k]);
      } else {
        r := None;
      }
    }

    method FindByUserId(id: UserId) returns (r: Option<Account>)
      ensures r == UserTable.FindByUserId(accounts, id)
    {
      r := if id in accounts then Some(accounts[id]) else None;
    }

    method UpdateHashedRefreshToken(id: UserId, digest: Option<Digest>) returns (r: Result<Account, HttpError>)
      modifies this
      ensures var o := UserTable.UpdateHashedRefreshToken(old(accounts), id, digest);
        r == o.result && accounts == o.table
    {
      if id !in accounts {
        r := Err(PlainError(UserTable.RecordNotFound));
        return;
      }
      var a := accounts[id].(refreshToken := digest);
      accounts := accounts[id := a];
      r := Ok(a);
    }

    method UpdatePasswordResetToken(id: UserId, token: string, expiry: Time) returns (r: Result<Account, HttpError>)
      modifies this
      ensures var o := UserTable.UpdatePasswordResetToken(old(accounts), id, token, expiry);
        r == o.result && accounts == o.table
    {
      if id !in accounts {
        r := Err(InternalServerError(UserTable.ResetTokenError));
        return;
      }
      var a := accounts[id].(pwdResetToken := Some(token), pwdResetTokenExpiry := Some(expiry));
      accounts := accounts[id := a];
      r := Ok(a);
    }

    method FindByPasswordResetToken(token: string) returns (r: Option<Account>)
      requires Valid()
      ensures r == UserTable.FindByPasswordResetToken(accounts, token)
    {
      if exists k :: k in accounts && accounts[k].pwdResetToken == Some(token) {
        var k :| k in accounts && accounts[k].pwdResetToken == Some(token);
        r := Some(accounts[k]);
      } else {
        r := None;
      }
    }

    method UpdatePassword(id: UserId, digest: Digest) returns (r: Result<Account, HttpError>)
      modifies this
      ensures var o := UserTable.UpdatePassword(old(accounts), id, digest);
        r == o.result && accounts == o.table
    {
      if id !in accounts {
        r := Err(InternalServerError(UserTable.PasswordError));
        return;
      }
      var a := accounts[id].(password := digest, pwdResetToken := None, pwdResetTokenExpiry := None);
      accounts := accounts[id := a];
      r := Ok(a);
    }

    method UpdateProfile(id: UserId, p: UserTable.ProfilePatch) returns (r: Result<Account, HttpError>)
      modifies this
      ensures var o := UserTable.UpdateProfile(old(accounts), id, p);
        r == o.result && accounts == o.table
    {
      if id !in accounts
        || (p.username.Some? && exists k :: k in accounts && k != id && accounts[k].username == p.username.value)
      {
        r := Err(InternalServerError(UserTable.ProfileError));
        return;
      }
      var a := UserTable.ApplyPatch(accounts[id], p);
      accounts := accounts[id := a];
      r := Ok(a);
    }

    method UpdateTermsAcceptance(id: UserId, accepted: bool, newsletterOptIn: bool, now: Time)
      returns (r: Result<Account, HttpError>)
      modifies this
      ensures var o := UserTable.UpdateTermsAcceptance(old(accounts), id, accepted, newsletterOptIn, now);
        r == o.result && accounts == o.table
    {
      if id !in accounts {
        r := Err(InternalServerError(UserTable.TermsError));
        return;
      }
      var a := accounts[id].(termsAccepted := accepted,
                             termsAcceptedAt := if accepted then Some(now) else None,
                             newsletterOptIn := newsletterOptIn);
      accounts := accounts[id := a];
      r := Ok(a);
    }

    method UpdateNewsletterPreference(email: string, preference: bool) returns (r: Result<(), HttpError>)
      requires Valid()
      modifies this
      ensures var o := UserTable.UpdateNewsletterPreference(old(accounts), email, preference);
        r == o.result && accounts == o.table
    {
      if !exists k :: k in accounts && accounts[k].email == email {
        r := Err(NotFound(UserTable.NoEmailUser(email)));
        return;
      }
      var k :| k in accounts && accounts[k].email == email;
      accounts := accounts[k := accounts[k].(newsletterOptIn := preference)];
      r := Ok(());
    }
  }
}
