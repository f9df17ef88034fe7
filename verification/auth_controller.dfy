/** The credential issuer: login and password change. */
module AuthController {
  import opened Wrappers
  import opened Roles
  import opened Crypto
  import opened Tokens
  import opened UserModel
  import opened Http
  import opened SettingsController

  /** The one answer every login failure gets. */
  const InvalidCredentials: Response := Fail(Unauthorized, "Invalid credentials")

  /** Account `id` is active, holds `username`, and `password` matches its digest. */
  ghost predicate Authenticates(users: Directory, id: UserId, username: string, password: string) {
    id in users && users[id].username == username && users[id].isActive && Matches(password, users[id].password)
  }

  /** The lookup by username restricted to active accounts; the unique index makes the answer unique. */
  function FindActive(users: Directory, username: string): (r: Option<UserId>)
    requires UniqueUsernames(users)
    ensures r.Some? <==> exists id :: id in users && users[id].username == username && users[id].isActive
    ensures r.Some? ==> r.value in users && users[r.value].username == username && users[r.value].isActive
  {
    if exists id :: id in users && users[id].username == username && users[id].isActive then
      var id :| id in users && users[id].username == username && users[id].isActive;
      Some(id)
    else
      None
  }

  /** A login answer that carries a token. */
  predicate Issued(r: Response) {
    r.Response? && r.status == OK && r.body.Credentials?
  }

  /**
   * POST /auth/login. The token is valid for the stored session timeout, or
   * the default when no timeout record exists; nothing is written. A timeout
   * the signing library cannot read makes the handler throw after the
   * password check.
   */
  function Login(users: Directory, settings: Store, username: string, password: string, nowMs: nat): (r: Response)
    requires UniqueUsernames(users)
    ensures r == InvalidCredentials || r.Thrown? || Issued(r)
    ensures r != InvalidCredentials <==> exists id :: Authenticates(users, id, username, password)
    ensures r.Thrown? <==> (exists id :: Authenticates(users, id, username, password)) && !SpanParses(SessionMinutes(settings))
    ensures Issued(r) ==>
              exists id :: && Authenticates(users, id, username, password)
                           && r.body.token.subject == id
                           && r.body.token.role == users[id].role
                           && r.body.role == users[id].role
    ensures Issued(r) ==>
              r.body.token.expiresAt == nowMs / MsPerSecond + SessionMinutes(settings) * SecondsPerMinute
  {
    match FindActive(users, username)
    case None => InvalidCredentials
    case Some(id) =>
      var u := users[id];
      if !Matches(password, u.password) then
        InvalidCredentials
      else
        var minutes := if SessionTimeoutKey in settings then settings[SessionTimeoutKey] else DefaultTimeout;
        assert Authenticates(users, id, username, password);
        if !SpanParses(minutes) then Thrown
        else Ok(Credentials(Issue(id, u.role, nowMs, minutes), u.role))
  }

  /**
   * An unknown username, a disabled account and a wrong password all get the
   * same answer: the caller cannot tell which one happened.
   */
  lemma LoginFailuresIndistinguishable(users: Directory, settings: Store, username: string, password: string, nowMs: nat)
    requires UniqueUsernames(users)
    ensures !UsernameTaken(users, username) ==> Login(users, settings, username, password, nowMs) == InvalidCredentials
    ensures (exists id :: id in users && users[id].username == username && !users[id].isActive)
            ==> Login(users, settings, username, password, nowMs) == InvalidCredentials
    ensures (exists id :: id in users && users[id].username == username && !Matches(password, users[id].password))
            ==> Login(users, settings, username, password, nowMs) == InvalidCredentials
  {
  }

  /**
   * The lifetime a login issues for is the value a settings read answers, but
   * login does not create the record; when it throws, that value is one the
   * signing library cannot read.
   */
  lemma LoginUsesTimeoutGetAnswers(users: Directory, settings: Store, username: string, password: string, nowMs: nat)
    requires UniqueUsernames(users)
    requires Login(users, settings, username, password, nowMs) != InvalidCredentials
    ensures var r := Login(users, settings, username, password, nowMs);
            Issued(r) ==> GetSessionTimeout(settings).0
                          == Ok(Timeout((r.body.token.expiresAt - nowMs / MsPerSecond) / SecondsPerMinute))
    ensures var r := Login(users, settings, username, password, nowMs);
            r.Thrown? ==> !SpanParses(GetSessionTimeout(settings).0.body.minutes)
  {
  }

  /**
   * A timeout update changes the lifetime of tokens issued afterwards; a token
   * issued before is a value and keeps its expiry. An accepted timeout of
   * 10^21 minutes or more makes every later login of that account throw.
   */
  lemma LoginAfterTimeoutUpdate(users: Directory, settings: Store, username: string, password: string, t: int, nowMs: nat)
    requires UniqueUsernames(users) && t >= 1
    requires Login(users, settings, username, password, nowMs) != InvalidCredentials
    ensures var s1 := UpdateSessionTimeout(settings, Some(t)).1;
            var r := Login(users, s1, username, password, nowMs);
            && (t < ExponentThreshold ==> Issued(r) && r.body.token.expiresAt == nowMs / MsPerSecond + t * SecondsPerMinute)
            && (t >= ExponentThreshold ==> r.Thrown?)
  {
  }

  /**
   * POST /auth/change-password for the authenticated account `caller`. Empty
   * fields are refused before any lookup; on success only that account's
   * digest changes.
   */
  function ChangePassword(users: Directory, caller: UserId, current: Option<string>, next: Option<string>): (r: (Response, Directory))
    ensures r.0 == Fail(BadRequest, "All fields required") <==> !Truthy(current) || !Truthy(next)
    ensures r.0 == Fail(NotFound, "User not found") <==> Truthy(current) && Truthy(next) && caller !in users
    ensures r.0 == Fail(BadRequest, "Current password incorrect")
            <==> Truthy(current) && Truthy(next) && caller in users && !Matches(current.value, users[caller].password)
    ensures r.0 == Ok(Msg("Password changed successfully"))
            <==> Truthy(current) && Truthy(next) && caller in users && Matches(current.value, users[caller].password)
    ensures r.0 != Ok(Msg("Password changed successfully")) ==> r.1 == users
    ensures r.0 == Ok(Msg("Password changed successfully")) ==>
              && caller in users
              && r.1 == users[caller := users[caller].(password := Hash(next.value))]
    ensures UniqueUsernames(users) ==> UniqueUsernames(r.1)
  {
    if !Truthy(current) || !Truthy(next) then
      (Fail(BadRequest, "All fields required"), users)
    else if caller !in users then
      (Fail(NotFound, "User not found"), users)
    else if !Matches(current.value, users[caller].password) then
      (Fail(BadRequest, "Current password incorrect"), users)
    else
      (Ok(Msg("Password changed successfully")), users[caller := users[caller].(password := Hash(next.value))])
  }

  /**
   * After a successful change, an active account logs in with the new
   * password, and with the old one exactly when the two share bcrypt's
   * 72-byte key stream.
   */
  lemma LoginAfterPasswordChange(users: Directory, settings: Store, caller: UserId, current: string, next: string, nowMs: nat)
    requires UniqueUsernames(users)
    requires caller in users && users[caller].isActive
    requires ChangePassword(users, caller, Some(current), Some(next)).0 == Ok(Msg("Password changed successfully"))
    ensures var users' := ChangePassword(users, caller, Some(current), Some(next)).1;
            && Login(users', settings, users[caller].username, next, nowMs) != InvalidCredentials
            && (Login(users', settings, users[caller].username, current, nowMs) != InvalidCredentials
                <==> Crypto.Key(current) == Crypto.Key(next))
  {
    var users' := ChangePassword(users, caller, Some(current), Some(next)).1;
    assert Authenticates(users', caller, users[caller].username, next);
    Crypto.MatchesIffSameKey(current, next);
    if Crypto.Key(current) == Crypto.Key(next) {
      assert Authenticates(users', caller, users[caller].username, current);
    }
  }
}
