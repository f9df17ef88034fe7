/**
 * The two protected routers: the account routes and the settings routes.
 * Both run every request through the token guard and then through an
 * allow-list that holds SUPER_ADMIN alone, before any route is matched.
 */
module Routes {
  import opened Wrappers
  import opened Roles
  import opened Tokens
  import Http

  datatype Verb = Get | Post | Patch | Delete

  /** A request as a router sees it: the path below its mount point, split at '/', and the bearer token if any. */
  datatype Request = Request(verb: Verb, path: seq<string>, bearer: Option<Token>)

  datatype GuardResult = Unauthenticated | Forbidden | Admitted(subject: UserId, role: Role)

  /**
   * The guard pair: a missing or expired token is unauthenticated, a live
   * token whose role is outside `allow` is forbidden.
   */
  function Guard(bearer: Option<Token>, allow: set<Role>, nowMs: nat): (g: GuardResult)
    ensures g == Unauthenticated <==> bearer.None? || !Live(bearer.value, nowMs)
    ensures g.Admitted? <==> bearer.Some? && Live(bearer.value, nowMs) && bearer.value.role in allow
    ensures g.Admitted? ==> g.subject == bearer.value.subject && g.role == bearer.value.role
  {
    match bearer
    case None => Unauthenticated
    case Some(t) =>
      if !Live(t, nowMs) then Unauthenticated
      else if t.role !in allow then Forbidden
      else Admitted(t.subject, t.role)
  }

  /** What a router does with a request: refuse it, find no route, or run a handler for the admitted caller. */
  datatype Dispatch<H> = Refused(status: int) | NoRoute | Handle(handler: H, caller: UserId)

  /** Runs the guard, then the route table, as a router-level middleware does. */
  function Route<H>(g: GuardResult, matched: Option<H>): (d: Dispatch<H>)
    ensures d.Refused? <==> !g.Admitted?
    ensures d == Refused(Http.Unauthorized) <==> g == Unauthenticated
    ensures d.Handle? <==> g.Admitted? && matched.Some?
    ensures d.Handle? ==> d.handler == matched.value && d.caller == g.subject
  {
    match g
    case Unauthenticated => Refused(Http.Unauthorized)
    case Forbidden => Refused(Http.Forbidden)
    case Admitted(subject, _) =>
      match matched
      case None => NoRoute
      case Some(h) => Handle(h, subject)
  }

  /* ---------------- account routes ---------------- */

  const UserRoutesAllow: set<Role> := {SuperAdmin}

  datatype UserHandler = CreateUser | GetUsers | DisableUser(id: UserId) | EnableUser(id: UserId) | DeleteUser(id: UserId)

  /** The account route table; `:id` matches one non-empty segment. */
  function MatchUserRoute(verb: Verb, path: seq<string>): (r: Option<UserHandler>)
    ensures r == Some(CreateUser) <==> verb == Post && path == []
    ensures r == Some(GetUsers) <==> verb == Get && path == []
    ensures (r.Some? && r.value.DisableUser?) <==> verb == Patch && |path| == 2 && path[0] != "" && path[1] == "disable"
    ensures (r.Some? && r.value.EnableUser?) <==> verb == Patch && |path| == 2 && path[0] != "" && path[1] == "enable"
    ensures (r.Some? && r.value.DeleteUser?) <==> verb == Delete && |path| == 1 && path[0] != ""
    ensures r.Some? && !r.value.CreateUser? && !r.value.GetUsers? ==> r.value.id == path[0]
  {
    if path == [] then
      if verb == Post then Some(CreateUser)
      else if verb == Get then Some(GetUsers)
      else None
    else if |path| == 2 && path[0] != "" && verb == Patch && path[1] == "disable" then Some(DisableUser(path[0]))
    else if |path| == 2 && path[0] != "" && verb == Patch && path[1] == "enable" then Some(EnableUser(path[0]))
    else if |path| == 1 && path[0] != "" && verb == Delete then Some(DeleteUser(path[0]))
    else None
  }

  function DispatchUsers(req: Request, nowMs: nat): (d: Dispatch<UserHandler>)
    ensures d.Handle? ==> req.bearer.Some? && Live(req.bearer.value, nowMs) && req.bearer.value.role == SuperAdmin
    ensures req.bearer.Some? && Live(req.bearer.value, nowMs) && req.bearer.value.role != SuperAdmin
            ==> d == Refused(Http.Forbidden)
    ensures (req.bearer.None? || !Live(req.bearer.value, nowMs)) ==> d == Refused(Http.Unauthorized)
  {
    Route(Guard(req.bearer, UserRoutesAllow, nowMs), MatchUserRoute(req.verb, req.path))
  }

  /** No route updates an account: PATCH on a bare id finds nothing, whoever asks. */
  lemma NoAccountUpdateRoute(id: UserId, bearer: Option<Token>, nowMs: nat)
    ensures MatchUserRoute(Patch, [id]) == None
    ensures !DispatchUsers(Request(Patch, [id], bearer), nowMs).Handle?
  {
  }

  /** An admitted super-admin reaches every route in the table. */
  lemma SuperAdminReachesUserRoutes(req: Request, nowMs: nat)
    requires req.bearer.Some? && Live(req.bearer.value, nowMs) && req.bearer.value.role == SuperAdmin
    requires MatchUserRoute(req.verb, req.path).Some?
    ensures DispatchUsers(req, nowMs) == Handle(MatchUserRoute(req.verb, req.path).value, req.bearer.value.subject)
  {
  }

  /* ---------------- settings routes ---------------- */

  const SettingsRoutesAllow: set<Role> := {SuperAdmin}

  datatype SettingsHandler = GetSessionTimeout | UpdateSessionTimeout

  /** The settings route table: one path, read with GET and written with POST. */
  function MatchSettingsRoute(verb: Verb, path: seq<string>): (r: Option<SettingsHandler>)
    ensures r == Some(GetSessionTimeout) <==> verb == Get && path == ["session-timeout"]
    ensures r == Some(UpdateSessionTimeout) <==> verb == Post && path == ["session-timeout"]
    ensures r.Some? ==> path == ["session-timeout"]
  {
    if path == ["session-timeout"] then
      if verb == Get then Some(GetSessionTimeout)
      else if verb == Post then Some(UpdateSessionTimeout)
      else None
    else None
  }

  function DispatchSettings(req: Request, nowMs: nat): (d: Dispatch<SettingsHandler>)
    ensures d.Handle? ==> req.bearer.Some? && Live(req.bearer.value, nowMs) && req.bearer.value.role == SuperAdmin
    ensures req.bearer.Some? && Live(req.bearer.value, nowMs) && req.bearer.value.role != SuperAdmin
            ==> d == Refused(Http.Forbidden)
    ensures (req.bearer.None? || !Live(req.bearer.value, nowMs)) ==> d == Refused(Http.Unauthorized)
  {
    Route(Guard(req.bearer, SettingsRoutesAllow, nowMs), MatchSettingsRoute(req.verb, req.path))
  }

  /** An expired token is refused as unauthenticated even when its role is on the allow-list. */
  lemma ExpiredSuperAdminRefused(t: Token, verb: Verb, path: seq<string>, nowMs: nat)
    requires t.role == SuperAdmin && nowMs / MsPerSecond >= t.expiresAt
    ensures DispatchUsers(Request(verb, path, Some(t)), nowMs) == Refused(Http.Unauthorized)
    ensures DispatchSettings(Request(verb, path, Some(t)), nowMs) == Refused(Http.Unauthorized)
  {
  }
}
