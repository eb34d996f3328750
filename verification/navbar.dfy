/** The navigation bar's dashboard link (frontend/src/components/Navbar.js)
    and the page the login screen sends a signed-in user to
    (frontend/src/components/Login.js). */
module Navbar {
  import opened Common
  import opened Schema
  import opened Tokens
  import opened AuthContext
  import opened ProtectedRoute
  import AuthRoutes

  /** `getDashboardPath`. */
  function DashboardPath(user: Option<ClientUser>): (p: string)
    ensures user.None? ==> p == "/"
    ensures user.Some? && user.value.userType == "user" ==>
              p == (if user.value.role == "system_admin" then "/admin" else "/dashboard")
    ensures user.Some? && user.value.userType != "user" ==> p == "/store"
  {
    if user.None? then "/"
    else if user.value.userType == "user" then
      if user.value.role == "system_admin" then "/admin" else "/dashboard"
    else "/store"
  }

  /** The login screen's redirect once a user is signed in. */
  function LoginRedirect(user: ClientUser): (p: string)
    ensures p == "/admin" || p == "/dashboard" || p == "/store"
    ensures p == "/admin" <==> user.userType == "user" && user.role == "system_admin"
    ensures p == "/store" <==> user.userType != "user"
  {
    if user.userType == "user" then
      if user.role == "system_admin" then "/admin" else "/dashboard"
    else "/store"
  }

  /** The link and the redirect lead to the same page. */
  lemma NavbarAgreesWithLogin(user: ClientUser)
    ensures DashboardPath(Some(user)) == LoginRedirect(user)
  {
  }

  /** The link opens the page it names for every loaded session whose user
      names its kind: a store, or a `user` whose role is `system_admin` or
      `normal_user` (the only roles signup and the administrator assign). A
      signup reply names no kind; see `SignupSessionTakenForStore`. */
  lemma DashboardPathPassesGuard(s: AuthState)
    requires !s.loading && s.isAuthenticated && s.user.Some?
    requires s.user.value.userType == "user" ==> s.user.value.role in {"system_admin", "normal_user"}
    ensures RouteRole(DashboardPath(s.user)).Some?
    ensures Guard(s, RouteRole(DashboardPath(s.user))) == Children
  {
  }

  /** The claims a server token shows the client. */
  function PayloadOf(token: Jwt): (p: Payload)
    ensures p.id == token.claims.id && p.kind == token.claims.kind && p.exp == token.expiresAt
    ensures p.role == (if token.claims.role.Some? then Some(RoleName(token.claims.role.value)) else None)
  {
    Payload(token.claims.id, token.claims.email,
            if token.claims.role.Some? then Some(RoleName(token.claims.role.value)) else None,
            token.claims.kind, token.expiresAt)
  }

  /** A reload within 24 hours of signing in restores the session from the
      stored token, and the navigation link then opens its dashboard: the
      administrator's, the user's or the store's as the session's row says. */
  lemma RestoredSessionOpensDashboard(stored: string, decode: string -> Option<Payload>, nowMs: int,
                                      u: User, st: Store, asStore: bool, key: string, issued: int)
    requires u.role != StoreOwner
    requires stored != ""
    requires decode(stored) == Some(PayloadOf(if asStore then Sign(StoreClaims(st), key, issued)
                                                   else Sign(UserClaims(u), key, issued)))
    requires nowMs < (issued + TokenLifetime) * 1000
    ensures var s := Reduce(InitialState(Some(stored)), RestoreAction(Some(stored), decode, nowMs));
            && s.isAuthenticated
            && DashboardPath(s.user) == (if asStore then "/store"
                                         else if u.role == SystemAdmin then "/admin" else "/dashboard")
            && Guard(s, RouteRole(DashboardPath(s.user))) == Children
  {
    var s := Reduce(InitialState(Some(stored)), RestoreAction(Some(stored), decode, nowMs));
    RestoreEndsLoading(Some(stored), decode, nowMs);
    DashboardPathPassesGuard(s);
  }

  /** The reply's `user` object as `login` and `signup` store it. A reply
      without `userType` leaves the field `undefined`, which is not `"user"`;
      it is written `""` here. */
  function ClientUserOf(reply: AuthRoutes.Session): (u: ClientUser)
    ensures u.id == reply.user.id && u.name == Some(reply.user.name) && u.email == reply.user.email
    ensures u.role == RoleName(reply.user.role)
    ensures u.userType == "user" <==> reply.userType == Some("user")
  {
    ClientUser(reply.user.id, Some(reply.user.name), reply.user.email, RoleName(reply.user.role),
               if reply.userType.Some? then reply.userType.value else "")
  }

  /** The state after `login` or `signup` has dispatched for a successful reply
      carrying `token`. */
  function SignedIn(before: AuthState, reply: AuthRoutes.Session, token: string, fallback: string): (s: AuthState)
    ensures s == AuthState(true, Some(ClientUserOf(reply)), Some(token), false, None)
  {
    SignInSettles(before, Success((ClientUserOf(reply), token)), fallback);
    ReduceAll(before, SignInActions(Success((ClientUserOf(reply), token)), fallback))
  }

  /** As written, a fresh signup is taken for a store session. The signup reply
      is a `normal_user` account with no `userType`, so the link points at
      `/store`; the `/dashboard` page the signup screen navigates to sends the
      visitor to `/login`; the login screen forwards a signed-in visitor to
      `/store`; and the store owner's page renders for the normal user. */
  lemma SignupSessionTakenForStore(before: AuthState, reply: AuthRoutes.Session, token: string)
    requires reply.userType.None? && reply.user.role == NormalUser
    ensures var s := SignedIn(before, reply, token, "Signup failed");
            && DashboardPath(s.user) == "/store"
            && Guard(s, RouteRole("/dashboard")) == RedirectTo("/login")
            && LoginRedirect(s.user.value) == "/store"
            && Guard(s, RouteRole("/store")) == Children
  {
  }

  /** A reply that names its kind, as the login reply does and the signup
      reply evidently should (`userType: "user"`), opens the dashboard of its
      account: the administrator's, the user's or the store's. */
  lemma TypedReplyOpensDashboard(before: AuthState, reply: AuthRoutes.Session, token: string, fallback: string)
    requires (reply.userType == Some("user") && reply.user.role != StoreOwner) || reply.userType == Some("store")
    ensures var s := SignedIn(before, reply, token, fallback);
            && DashboardPath(s.user) == (if reply.userType == Some("store") then "/store"
                                         else if reply.user.role == SystemAdmin then "/admin" else "/dashboard")
            && LoginRedirect(s.user.value) == DashboardPath(s.user)
            && Guard(s, RouteRole(DashboardPath(s.user))) == Children
  {
    DashboardPathPassesGuard(SignedIn(before, reply, token, fallback));
  }
}
