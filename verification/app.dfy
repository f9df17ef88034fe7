/** The top-level view choice: the login page without a session, otherwise the route table. */
module App {
  import opened Wrappers
  import opened Roles
  import opened AuthContext
  import ProtectedRoute

  datatype Screen =
    | LoginPage
    | Dashboard(role: Option<Role>)
    | Products
    | Stock
    | Suppliers
    | Reports
    | Users
    | Settings
    | AccessDenied
    | RedirectToLogin
    | NoMatch

  /** The role list guarding the accounts page. */
  const UsersPageRoles: seq<Role> := [SuperAdmin]

  /** The paths that ask for nothing beyond a session. */
  const SessionOnlyPaths: set<string> := {"/", "/products", "/stock", "/suppliers", "/reports", "/settings"}

  function View(s: AuthState, path: string): (v: Screen)
    ensures s.token.None? ==> v == LoginPage
    ensures s.token.Some? && path == "/" ==> v == Dashboard(s.role)
    ensures v == Users <==> s.token.Some? && s.role == Some(SuperAdmin) && path == "/users"
    ensures v == AccessDenied <==> s.token.Some? && s.role != Some(SuperAdmin) && path == "/users"
    ensures v == NoMatch <==> s.token.Some? && path !in SessionOnlyPaths && path != "/users"
    ensures v != RedirectToLogin
  {
    if s.token.None? then LoginPage
    else if path == "/" then Dashboard(s.role)
    else if path == "/products" then Products
    else if path == "/stock" then Stock
    else if path == "/suppliers" then Suppliers
    else if path == "/reports" then Reports
    else if path == "/users" then
      match ProtectedRoute.Decide(s, Some(UsersPageRoles))
      case RedirectToLogin => RedirectToLogin
      case AccessDenied => AccessDenied
      case RenderChildren => Users
    else if path == "/settings" then Settings
    else NoMatch
  }

  /** Every session-only path shows its page to any session, whatever the role. */
  lemma SessionOnlyPathsOpen(s: AuthState, path: string)
    requires s.token.Some? && path in SessionOnlyPaths
    ensures View(s, path) !in {LoginPage, AccessDenied, RedirectToLogin, NoMatch, Users}
  {
  }
}
