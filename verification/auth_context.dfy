/**
 * The browser-side session: an in-memory (token, role) pair and the
 * persisted `auth` record in local storage, with restore, login and logout.
 */
module AuthContext {
  import opened Wrappers
  import opened Roles
  import opened Tokens

  /** The persisted record; `expiresAt` is in milliseconds since the epoch. */
  datatype SessionRecord = SessionRecord(token: Token, role: Role, expiresAt: int)

  /** Local storage: the `auth` record, and every other key the session logic never touches. */
  datatype Storage = Storage(auth: Option<SessionRecord>, other: map<string, string>)

  /** The context's state; both halves start out null. */
  datatype AuthState = AuthState(token: Option<Token>, role: Option<Role>)

  const Anonymous: AuthState := AuthState(None, None)

  /** The client's own session window: eight hours, in milliseconds. */
  const ClientLifetimeMs: int := 8 * 60 * 60 * 1000

  /** Storage with the `auth` record removed. */
  function Cleared(st: Storage): (r: Storage)
    ensures r.auth.None? && r.other == st.other
  {
    st.(auth := None)
  }

  /**
   * The restore step run once on load, starting from the anonymous state. A
   * record whose expiry is already past is discarded; a record whose expiry
   * equals the current instant still counts.
   */
  function Restore(st: Storage, nowMs: int): (r: (AuthState, Storage))
    ensures st.auth.None? ==> r == (Anonymous, st)
    ensures st.auth.Some? && nowMs > st.auth.value.expiresAt ==> r == (Anonymous, Cleared(st))
    ensures st.auth.Some? && nowMs <= st.auth.value.expiresAt
            ==> r == (AuthState(Some(st.auth.value.token), Some(st.auth.value.role)), st)
    ensures r.0.token.Some? <==> st.auth.Some? && nowMs <= st.auth.value.expiresAt
    ensures r.1.other == st.other
  {
    match st.auth
    case None => (Anonymous, st)
    case Some(saved) =>
      if nowMs > saved.expiresAt then (Anonymous, Cleared(st))
      else (AuthState(Some(saved.token), Some(saved.role)), st)
  }

  /**
   * `login(t, r)`: persists `{t, r, now + 8h}` and adopts (t, r). The window
   * is the client's own and owes nothing to the token's real expiry.
   */
  function Login(st: Storage, t: Token, role: Role, nowMs: int): (r: (AuthState, Storage))
    ensures r.0 == AuthState(Some(t), Some(role))
    ensures r.1.auth == Some(SessionRecord(t, role, nowMs + ClientLifetimeMs))
    ensures r.1.other == st.other
  {
    (AuthState(Some(t), Some(role)), st.(auth := Some(SessionRecord(t, role, nowMs + ClientLifetimeMs))))
  }

  /** `logout()`: drops the record and nulls the state, whatever it was. */
  function Logout(st: Storage): (r: (AuthState, Storage))
    ensures r.0 == Anonymous && r.1.auth.None? && r.1.other == st.other
  {
    (Anonymous, Cleared(st))
  }

  /** Logging out twice is logging out once. */
  lemma LogoutIdempotent(st: Storage)
    ensures Logout(Logout(st).1) == Logout(st)
  {
  }

  /** A record written by login at `t0` restores the same session at any instant up to `t0 + 8h`, and none after. */
  lemma LoginRestoreRoundTrip(st: Storage, t: Token, role: Role, t0: int, now: int)
    ensures now <= t0 + ClientLifetimeMs ==> Restore(Login(st, t, role, t0).1, now) == Login(st, t, role, t0)
    ensures now > t0 + ClientLifetimeMs ==> Restore(Login(st, t, role, t0).1, now).0 == Anonymous
  {
  }

  /** After logout, a reload restores nothing. */
  lemma LogoutThenRestore(st: Storage, now: int)
    ensures Restore(Logout(st).1, now) == (Anonymous, Logout(st).1)
  {
  }
}
