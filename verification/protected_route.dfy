/** The client-side route guard (frontend/src/components/ProtectedRoute.js)
    and the role each guarded page asks for (frontend/src/App.js). */
module ProtectedRoute {
  import opened Common
  import opened AuthContext

  /** What the guard renders. */
  datatype View = LoadingPlaceholder | RedirectTo(path: string) | Children

  /** The role the guard compares: the user's own for a `user` session,
      `store_owner` for anything else. */
  function EffectiveRole(user: Option<ClientUser>): (role: string)
    ensures user.None? ==> role == "store_owner"
    ensures role == "store_owner" || (user.Some? && role == user.value.role)
    ensures user.Some? && user.value.userType == "user" ==> role == user.value.role
  {
    if user.Some? && user.value.userType == "user" then user.value.role else "store_owner"
  }

  /** `ProtectedRoute`: wait while loading, send a signed-out visitor to the
      login page, and render the page only for the exact required role. */
  function Guard(s: AuthState, requiredRole: Option<string>): (v: View)
    ensures s.loading ==> v == LoadingPlaceholder
    ensures !s.loading && !s.isAuthenticated ==> v == RedirectTo("/login")
    ensures v == Children <==> && !s.loading && s.isAuthenticated
                               && (requiredRole.None? || requiredRole.value == ""
                                   || requiredRole.value == EffectiveRole(s.user))
    ensures v.RedirectTo? ==> v.path == "/login"
  {
    if s.loading then LoadingPlaceholder
    else if !s.isAuthenticated then RedirectTo("/login")
    else if requiredRole.Some? && requiredRole.value != "" && EffectiveRole(s.user) != requiredRole.value then
      RedirectTo("/login")
    else Children
  }

  /** The guarded routes and the role each requires. */
  function RouteRole(path: string): (r: Option<string>)
    ensures r.Some? <==> path in {"/admin", "/dashboard", "/store"}
  {
    if path == "/admin" then Some("system_admin")
    else if path == "/dashboard" then Some("normal_user")
    else if path == "/store" then Some("store_owner")
    else None
  }

  /** There is no hierarchy: a signed-in, loaded session opens at most one of
      the three dashboards, and exactly the one its effective role names. */
  lemma DashboardsExclusive(s: AuthState, p: string, q: string)
    requires !s.loading && s.isAuthenticated
    requires RouteRole(p).Some? && RouteRole(q).Some?
    ensures Guard(s, RouteRole(p)) == Children <==> RouteRole(p).value == EffectiveRole(s.user)
    ensures Guard(s, RouteRole(p)) == Children && Guard(s, RouteRole(q)) == Children ==> p == q
  {
  }
}
