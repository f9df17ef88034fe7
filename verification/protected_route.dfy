/** The route wrapper that demands a session and, optionally, one of a list of roles. */
module ProtectedRoute {
  import opened Wrappers
  import opened Roles
  import opened AuthContext

  datatype Gate = RedirectToLogin | AccessDenied | RenderChildren

  /** The caller's role is on the list; a null role is on no list. */
  predicate RoleListed(role: Option<Role>, roles: seq<Role>) {
    role.Some? && role.value in roles
  }

  /** No token sends to the login page before any role is looked at; a listed or unrestricted role renders. */
  function Decide(s: AuthState, roles: Option<seq<Role>>): (g: Gate)
    ensures s.token.None? ==> g == RedirectToLogin
    ensures g == AccessDenied <==> s.token.Some? && roles.Some? && !RoleListed(s.role, roles.value)
    ensures g == RenderChildren <==> s.token.Some? && (roles.None? || RoleListed(s.role, roles.value))
  {
    if s.token.None? then RedirectToLogin
    else if roles.Some? && !RoleListed(s.role, roles.value) then AccessDenied
    else RenderChildren
  }
}
