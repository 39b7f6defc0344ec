/** The Next.js middleware's route decision: signed-in users are kept off
    the sign-in pages, guests are sent to sign in from protected pages,
    and admin pages are for admins only. */
module Middleware {
  import opened Wrappers
  import opened WebSession

  const AuthRoutes: seq<string> := ["/auth/signin", "/auth/register", "/auth/forgot-password"]
  const ProtectedRoutes: seq<string> := ["/account", "/profile", "/posts/new", "/posts/edit"]
  const AdminRoutes: seq<string> := ["/admin", "/admin/dashboard"]

  datatype Decision =
    | RedirectHome                          // to "/"
    | RedirectSignin(callbackPath: string)  // to "/auth/signin?callbackUrl=<path>"
    | RedirectUnauthorized                  // to "/unauthorized"
    | Next                                  // continue to the page

  /** `routes.some(route => path.startsWith(route))`. */
  predicate StartsWithAny(routes: seq<string>, path: string) {
    exists i :: 0 <= i < |routes| && routes[i] <= path
  }

  predicate SignedIn(session: Option<Session>) {
    session.Some? && session.value.user.Some?
  }

  predicate IsAdmin(session: Option<Session>) {
    SignedIn(session) && session.value.user.value.role == ADMIN
  }

  /** The decision exactly as written: the `||` of the second test binds
      looser than the `&&`, so every admin path goes to sign-in, signed in
      or not. See Decide for the intended rule. */
  function DecideAsWritten(session: Option<Session>, path: string): (d: Decision)
    ensures d == RedirectHome <==> SignedIn(session) && StartsWithAny(AuthRoutes, path)
    ensures d.RedirectSignin? <==>
      && !(SignedIn(session) && StartsWithAny(AuthRoutes, path))
      && ((!SignedIn(session) && StartsWithAny(ProtectedRoutes, path)) || StartsWithAny(AdminRoutes, path))
    ensures d.RedirectSignin? ==> d.callbackPath == path
    ensures d == Next <==>
      && !(SignedIn(session) && StartsWithAny(AuthRoutes, path))
      && !(!SignedIn(session) && StartsWithAny(ProtectedRoutes, path))
      && !StartsWithAny(AdminRoutes, path)
  {
    if SignedIn(session) && StartsWithAny(AuthRoutes, path) then RedirectHome
    else if (!SignedIn(session) && StartsWithAny(ProtectedRoutes, path)) || StartsWithAny(AdminRoutes, path) then
      RedirectSignin(path)
    else if SignedIn(session) && StartsWithAny(AdminRoutes, path) && !IsAdmin(session) then RedirectUnauthorized
    else Next
  }

  /** The decision with the sign-in test read as guests on protected or
      admin paths. */
  function Decide(session: Option<Session>, path: string): (d: Decision)
    ensures d == RedirectHome <==> SignedIn(session) && StartsWithAny(AuthRoutes, path)
    ensures d.RedirectSignin? <==>
      !SignedIn(session) && (StartsWithAny(ProtectedRoutes, path) || StartsWithAny(AdminRoutes, path))
    ensures d.RedirectSignin? ==> d.callbackPath == path
    ensures d == RedirectUnauthorized <==>
      SignedIn(session) && !StartsWithAny(AuthRoutes, path) && StartsWithAny(AdminRoutes, path) && !IsAdmin(session)
    ensures d == Next <==>
      if SignedIn(session) then !StartsWithAny(AuthRoutes, path) && (StartsWithAny(AdminRoutes, path) ==> IsAdmin(session))
      else !StartsWithAny(ProtectedRoutes, path) && !StartsWithAny(AdminRoutes, path)
  {
    if SignedIn(session) && StartsWithAny(AuthRoutes, path) then RedirectHome
    else if !SignedIn(session) && (StartsWithAny(ProtectedRoutes, path) || StartsWithAny(AdminRoutes, path)) then
      RedirectSignin(path)
    else if SignedIn(session) && StartsWithAny(AdminRoutes, path) && !IsAdmin(session) then RedirectUnauthorized
    else Next
  }

  /** No path starts with both an admin prefix and a sign-in page prefix:
      they part at the third character. */
  lemma AdminPathsAreNotAuthPaths(path: string)
    requires StartsWithAny(AdminRoutes, path)
    ensures !StartsWithAny(AuthRoutes, path)
  {
    var i :| 0 <= i < |AdminRoutes| && AdminRoutes[i] <= path;
    assert path[2] == 'd' by { assert AdminRoutes[i][2] == 'd'; }
    forall j | 0 <= j < |AuthRoutes| ensures !(AuthRoutes[j] <= path) {
      assert AuthRoutes[j][2] == 'u';
    }
  }

  /** As written, a signed-in admin opening an admin page is sent to sign in. */
  lemma AsWrittenLocksOutAdmins(session: Option<Session>, path: string)
    requires IsAdmin(session) && StartsWithAny(AdminRoutes, path)
    ensures DecideAsWritten(session, path) == RedirectSignin(path)
  {
    AdminPathsAreNotAuthPaths(path);
  }

  /** As written, the role check can never fire. */
  lemma AsWrittenNeverUnauthorized(session: Option<Session>, path: string)
    ensures DecideAsWritten(session, path) != RedirectUnauthorized
  {
  }

  /** Away from a signed-in user on an admin page, the code as written and
      the intended rule decide alike, so the home redirect, the guest's
      sign-in redirect and the pass-through hold of the code as written. */
  lemma AsWrittenAgreesOffAdminPages(session: Option<Session>, path: string)
    requires !(SignedIn(session) && StartsWithAny(AdminRoutes, path))
    ensures DecideAsWritten(session, path) == Decide(session, path)
  {
  }

  /** A concrete instance: an admin session on "/admin". */
  lemma AsWrittenAdminExample(u: User)
    requires u.role == ADMIN
    ensures DecideAsWritten(Some(Session(Some(u), "a", "r")), "/admin") == RedirectSignin("/admin")
  {
    assert AdminRoutes[0] <= "/admin";
  }

  /** With the intended rule, admins reach admin pages and other signed-in
      users are sent to the unauthorized page. */
  lemma AdminPagesForAdminsOnly(session: Option<Session>, path: string)
    requires SignedIn(session) && StartsWithAny(AdminRoutes, path)
    ensures IsAdmin(session) ==> Decide(session, path) == Next
    ensures !IsAdmin(session) ==> Decide(session, path) == RedirectUnauthorized
  {
    AdminPathsAreNotAuthPaths(path);
  }

  /** Matching is by prefix, so a longer path counts as protected. */
  lemma PrefixMatchIsLoose()
    ensures StartsWithAny(ProtectedRoutes, "/profileX")
    ensures DecideAsWritten(None, "/profileX") == RedirectSignin("/profileX")
    ensures Decide(None, "/profileX") == RedirectSignin("/profileX")
  {
    assert ProtectedRoutes[1] <= "/profileX";
  }
}
