/**
 * How the server's token lifetime and the client's session window relate.
 * The server signs tokens for the configured timeout; the client keeps its
 * own eight-hour window, written over the fifteen-minute one the login page
 * stores first. The two are never derived from each other, and for every
 * timeout there is an instant at which they disagree.
 */
module SessionLifetime {
  import opened Wrappers
  import opened Roles
  import opened Crypto
  import opened Tokens
  import opened UserModel
  import opened Http
  import opened SettingsController
  import opened AuthController
  import AuthContext
  import LoginPage
  import Routes

  /** Adding whole seconds to an instant adds them to its whole-second count. */
  lemma {:induction false} SecondsShift(a: nat, k: nat)
    ensures (a + k * MsPerSecond) / MsPerSecond == a / MsPerSecond + k
  {
    var q := a / MsPerSecond;
    var r := a % MsPerSecond;
    assert a == q * MsPerSecond + r;
    assert a + k * MsPerSecond == (q + k) * MsPerSecond + r;
  }

  /** The client believes it is logged in at `at`, restoring from storage `st`. */
  predicate ClientIn(st: AuthContext.Storage, at: int) {
    AuthContext.Restore(st, at).0.token.Some?
  }

  /**
   * For a timeout of at most eight hours the client still shows a session when
   * the token is already refused: at the instant the token's lifetime ends.
   */
  lemma ClientOutlivesToken(t: Token, role: Role, st: AuthContext.Storage, nowMs: nat, minutes: nat)
    requires t == Issue(t.subject, t.role, nowMs, minutes)
    requires minutes * MsPerMinute <= AuthContext.ClientLifetimeMs
    ensures var p := LoginPage.Submit(LoginPage.PageState(AuthContext.Anonymous, st, false, None), LoginPage.Accepted(t, role), nowMs);
            var at := nowMs + minutes * MsPerMinute;
            ClientIn(p.storage, at) && !Live(t, at)
  {
    SecondsShift(nowMs, minutes * SecondsPerMinute);
  }

  /**
   * For a timeout over eight hours the client has already dropped the session
   * while the token would still be accepted: one millisecond after its window.
   */
  lemma TokenOutlivesClient(t: Token, role: Role, st: AuthContext.Storage, nowMs: nat, minutes: nat)
    requires t == Issue(t.subject, t.role, nowMs, minutes)
    requires minutes * MsPerMinute > AuthContext.ClientLifetimeMs
    ensures var p := LoginPage.Submit(LoginPage.PageState(AuthContext.Anonymous, st, false, None), LoginPage.Accepted(t, role), nowMs);
            var at := nowMs + AuthContext.ClientLifetimeMs + 1;
            !ClientIn(p.storage, at) && Live(t, at)
  {
    var at := nowMs + AuthContext.ClientLifetimeMs + 1;
    SecondsShift(nowMs + 1, AuthContext.ClientLifetimeMs / MsPerSecond);
    assert at / MsPerSecond <= nowMs / MsPerSecond + AuthContext.ClientLifetimeMs / MsPerSecond + 1;
  }

  /**
   * Whatever the stored timeout, a successful login followed by the login
   * page's submit leaves the client and the server disagreeing at some instant.
   * A timeout too large for the signing library issues no token at all.
   */
  lemma WindowsAlwaysDiverge(users: Directory, settings: Store, username: string, password: string,
                             nowMs: nat, st: AuthContext.Storage)
    requires UniqueUsernames(users) && Valid(settings)
    requires Login(users, settings, username, password, nowMs) != InvalidCredentials
    ensures var r := Login(users, settings, username, password, nowMs);
            Issued(r) <==> SessionMinutes(settings) < ExponentThreshold
    ensures var r := Login(users, settings, username, password, nowMs);
            Issued(r) ==>
              var p := LoginPage.Submit(LoginPage.PageState(AuthContext.Anonymous, st, false, None),
                                        LoginPage.Accepted(r.body.token, r.body.role), nowMs);
              exists at: nat :: ClientIn(p.storage, at) != Live(r.body.token, at)
  {
    var r := Login(users, settings, username, password, nowMs);
    if Issued(r) {
      var t := r.body.token;
      var minutes: nat := SessionMinutes(settings);
      assert t == Issue(t.subject, t.role, nowMs, minutes);
      var p := LoginPage.Submit(LoginPage.PageState(AuthContext.Anonymous, st, false, None), LoginPage.Accepted(t, r.body.role), nowMs);
      if minutes * MsPerMinute <= AuthContext.ClientLifetimeMs {
        ClientOutlivesToken(t, r.body.role, st, nowMs, minutes);
        var at: nat := nowMs + minutes * MsPerMinute;
        assert ClientIn(p.storage, at) != Live(t, at);
      } else {
        TokenOutlivesClient(t, r.body.role, st, nowMs, minutes);
        var at: nat := nowMs + AuthContext.ClientLifetimeMs + 1;
        assert ClientIn(p.storage, at) != Live(t, at);
      }
    }
  }

  /**
   * An end-to-end run: a super-admin logs in under the default
   * timeout, reads 15 with that token, sets 60, and logs in again; the second
   * token lives 60 minutes and the first keeps its original expiry. The later
   * instant is at least a second short of fifteen minutes, since the token's
   * issue time is rounded down to the second.
   */
  lemma EndToEnd(nowMs: nat, laterMs: nat)
    requires nowMs <= laterMs && laterMs + MsPerSecond <= nowMs + 15 * MsPerMinute
    ensures var users := map["root" := User("admin", Hash("admin123"), SuperAdmin, true, EmptyProfile)];
            var settings: Store := map[];
            var first := Login(users, settings, "admin", "admin123", nowMs);
            var (read, s1) := GetSessionTimeout(settings);
            var (written, s2) := UpdateSessionTimeout(s1, Some(60));
            var second := Login(users, s2, "admin", "admin123", laterMs);
            && first.Response? && first.body.Credentials? && first.body.role == SuperAdmin
            && first.body.token.expiresAt == nowMs / MsPerSecond + 15 * SecondsPerMinute
            && Routes.DispatchSettings(Routes.Request(Routes.Get, ["session-timeout"], Some(first.body.token)), laterMs)
               == Routes.Handle(Routes.GetSessionTimeout, "root")
            && read == Ok(Timeout(15))
            && written == Ok(Timeout(60))
            && second.body.token.expiresAt == laterMs / MsPerSecond + 60 * SecondsPerMinute
  {
    var users := map["root" := User("admin", Hash("admin123"), SuperAdmin, true, EmptyProfile)];
    var settings: Store := map[];
    assert Authenticates(users, "root", "admin", "admin123");
    var first := Login(users, settings, "admin", "admin123", nowMs);
    assert first.body.token.subject == "root";
    SecondsShift(nowMs, 15 * SecondsPerMinute - 1);
    assert laterMs / MsPerSecond <= (nowMs + (15 * SecondsPerMinute - 1) * MsPerSecond) / MsPerSecond;
    assert Live(first.body.token, laterMs);
    assert first.body.role == SuperAdmin;
    var (read, s1) := GetSessionTimeout(settings);
    var (written, s2) := UpdateSessionTimeout(s1, Some(60));
    assert written == Ok(Timeout(60));
    var second := Login(users, s2, "admin", "admin123", laterMs);
    assert second.body.token.expiresAt == laterMs / MsPerSecond + 60 * SecondsPerMinute;
  }
}
