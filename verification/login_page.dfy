/**
 * The login page's submit sequence, as the list of effects it performs in
 * order and the state those effects leave behind.
 */
module LoginPage {
  import opened Wrappers
  import opened Roles
  import opened Tokens
  import opened AuthContext
  import ApiClient

  /**
   * How the login request settled: the token and role answered, or a failure,
   * with the response status when there was a response.
   */
  datatype LoginReply = Accepted(token: Token, role: Role) | Failed(status: Option<int>)

  /** A failure as the shared client's response interceptor sees it. */
  function FailureOutcome(status: Option<int>): (o: ApiClient.Outcome<()>)
    ensures o == ApiClient.ErrorStatus(401) <==> status == Some(401)
  {
    match status
    case Some(s) => ApiClient.ErrorStatus(s)
    case None => ApiClient.NetworkError
  }

  datatype Effect =
    | SetLoading(on: bool)
    | WriteRecord(rec: SessionRecord)
    | ContextLogin(token: Token, role: Role)
    | Intercept(outcome: ApiClient.Outcome<()>)
    | ReportFailure

  /** The window the page itself writes before handing over to the context: fifteen minutes, in milliseconds. */
  const PageLifetimeMs: int := 15 * 60 * 1000

  /**
   * What the page holds: the shared session state, local storage, the button's
   * loading flag, and the location the browser has been sent to, if any.
   */
  datatype PageState = PageState(auth: AuthState, storage: Storage, loading: bool, location: Option<string>)

  /**
   * The effects of one submit, in the order they happen. A failed request
   * passes the shared response interceptor before the page's own handler.
   */
  function SubmitEffects(reply: LoginReply, nowMs: int): (e: seq<Effect>)
    ensures |e| >= 4 && e[0] == SetLoading(true) && e[|e| - 1] == SetLoading(false)
    ensures forall i :: 1 <= i < |e| - 1 ==> !e[i].SetLoading?
    ensures reply.Failed? ==> forall i :: 0 <= i < |e| ==> !e[i].WriteRecord? && !e[i].ContextLogin?
    ensures reply.Failed? ==> e[1] == Intercept(FailureOutcome(reply.status)) && e[2] == ReportFailure
    ensures reply.Accepted? ==>
              && e[1] == WriteRecord(SessionRecord(reply.token, reply.role, nowMs + PageLifetimeMs))
              && e[2] == ContextLogin(reply.token, reply.role)
              && forall i :: 0 <= i < |e| ==> !e[i].Intercept?
  {
    match reply
    case Accepted(t, r) =>
      [SetLoading(true), WriteRecord(SessionRecord(t, r, nowMs + PageLifetimeMs)), ContextLogin(t, r), SetLoading(false)]
    case Failed(status) =>
      [SetLoading(true), Intercept(FailureOutcome(status)), ReportFailure, SetLoading(false)]
  }

  /** One effect applied to the page state. */
  function Step(p: PageState, e: Effect, nowMs: int): PageState {
    match e
    case SetLoading(on) => p.(loading := on)
    case WriteRecord(rec) => p.(storage := p.storage.(auth := Some(rec)))
    case ContextLogin(t, r) =>
      var (s, st) := AuthContext.Login(p.storage, t, r, nowMs);
      p.(auth := s, storage := st)
    case Intercept(o) =>
      var i := ApiClient.OnResponse(p.storage, o);
      p.(storage := i.storage, location := if i.redirect.Some? then i.redirect else p.location)
    case ReportFailure => p
  }

  /** A run of effects applied in order; keys other than `auth` survive any run. */
  function Run(p: PageState, es: seq<Effect>, nowMs: int): (r: PageState)
    ensures r.storage.other == p.storage.other
    ensures (forall i :: 0 <= i < |es| ==> !es[i].SetLoading?) ==> r.loading == p.loading
    ensures (forall i :: 0 <= i < |es| ==> !es[i].WriteRecord? && !es[i].ContextLogin?) ==> r.auth == p.auth
    ensures (forall i :: 0 <= i < |es| ==> !es[i].WriteRecord? && !es[i].ContextLogin? && !es[i].Intercept?)
            ==> r.storage == p.storage
    ensures (forall i :: 0 <= i < |es| ==> !es[i].Intercept?) ==> r.location == p.location
    decreases |es|
  {
    if es == [] then p else Run(Step(p, es[0], nowMs), es[1..], nowMs)
  }

  /**
   * The submit handler: the whole effect sequence, run. A 401 answer (the
   * server's single "Invalid credentials" reply) reaches the shared
   * interceptor, which drops any stored record and sends the browser to the
   * login page; other failures touch neither storage nor location.
   */
  function Submit(p: PageState, reply: LoginReply, nowMs: int): (r: PageState)
    ensures !r.loading
    ensures r.storage.other == p.storage.other
    ensures reply.Failed? ==> r.auth == p.auth
    ensures reply == Failed(Some(401)) ==> r.storage == Cleared(p.storage) && r.location == Some(ApiClient.LoginPath)
    ensures reply.Failed? && reply != Failed(Some(401)) ==> r.storage == p.storage && r.location == p.location
    ensures reply.Accepted? ==>
              && r.auth == AuthState(Some(reply.token), Some(reply.role))
              && r.storage.auth == Some(SessionRecord(reply.token, reply.role, nowMs + ClientLifetimeMs))
              && r.location == p.location
  {
    var es := SubmitEffects(reply, nowMs);
    var p1 := Step(p, es[0], nowMs);
    var p2 := Step(p1, es[1], nowMs);
    var p3 := Step(p2, es[2], nowMs);
    assert es == [es[0], es[1], es[2], SetLoading(false)];
    assert Run(p, es, nowMs) == Run(p3, [SetLoading(false)], nowMs) by {
      assert es[1..][1..] == [es[2], SetLoading(false)];
      assert es[1..][1..][1..] == [SetLoading(false)];
      assert Run(p, es, nowMs) == Run(p1, es[1..], nowMs);
      assert Run(p1, es[1..], nowMs) == Run(p2, es[1..][1..], nowMs);
      assert Run(p2, es[1..][1..], nowMs) == Run(p3, es[1..][1..][1..], nowMs);
    }
    Run(p, es, nowMs)
  }

  /** After a rejected login the reload the redirect causes finds no stored session. */
  lemma RejectedLoginLeavesNoSession(p: PageState, nowMs: int, laterMs: int)
    ensures var r := Submit(p, Failed(Some(401)), nowMs);
            r.location == Some(ApiClient.LoginPath) && Restore(r.storage, laterMs).0 == Anonymous
  {
  }

  /**
   * While the request is out the flag is up; right after the page's own write
   * the stored window is fifteen minutes; the context's login then replaces
   * it with eight hours.
   */
  lemma SubmitOverwritesPageRecord(p: PageState, t: Token, role: Role, nowMs: int)
    ensures Run(p, SubmitEffects(Accepted(t, role), nowMs)[..1], nowMs).loading
    ensures Run(p, SubmitEffects(Accepted(t, role), nowMs)[..2], nowMs).storage.auth
            == Some(SessionRecord(t, role, nowMs + PageLifetimeMs))
    ensures Submit(p, Accepted(t, role), nowMs).storage.auth.value.expiresAt
            == Run(p, SubmitEffects(Accepted(t, role), nowMs)[..2], nowMs).storage.auth.value.expiresAt
               - PageLifetimeMs + ClientLifetimeMs
  {
    var es := SubmitEffects(Accepted(t, role), nowMs);
    assert es[..1] == [SetLoading(true)];
    assert es[..2] == [SetLoading(true), WriteRecord(SessionRecord(t, role, nowMs + PageLifetimeMs))];
  }
}
