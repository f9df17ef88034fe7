/**
 * The HTTP client's two interceptors: one attaches the persisted token to
 * every request, the other tears the session down on a 401.
 */
module ApiClient {
  import opened Wrappers
  import opened Tokens
  import opened AuthContext
  import Routes

  /** An outgoing request; `authorization` is the `Bearer <token>` header if set. */
  datatype RequestConfig = RequestConfig(verb: Routes.Verb, path: seq<string>, authorization: Option<Token>)

  /** The request interceptor: with a stored record its token becomes the bearer, otherwise the config is passed on unchanged. */
  function AttachBearer(st: Storage, c: RequestConfig): (r: RequestConfig)
    ensures r.verb == c.verb && r.path == c.path
    ensures st.auth.Some? ==> r.authorization == Some(st.auth.value.token)
    ensures st.auth.None? ==> r == c
  {
    match st.auth
    case None => c
    case Some(parsed) => c.(authorization := Some(parsed.token))
  }

  /** How a request settled: a response, an error response with a status, or an error with none (network failure). */
  datatype Outcome<T> = Fulfilled(value: T) | ErrorStatus(status: int) | NetworkError

  /** What the response interceptor leaves behind. */
  datatype Intercepted<T> = Intercepted(storage: Storage, redirect: Option<string>, delivered: Outcome<T>)

  const LoginPath: string := "/login"

  /**
   * The response interceptor. Responses pass through; every error is still
   * rejected to the caller; a 401 first drops the record and sends the
   * browser to the login page.
   */
  function OnResponse<T>(st: Storage, o: Outcome<T>): (r: Intercepted<T>)
    ensures r.delivered == o
    ensures r.storage.other == st.other
    ensures o == ErrorStatus(401) ==> r.storage.auth.None? && r.redirect == Some(LoginPath)
    ensures o != ErrorStatus(401) ==> r.storage == st && r.redirect.None?
  {
    if o.ErrorStatus? && o.status == 401 then Intercepted(Cleared(st), Some(LoginPath), o)
    else Intercepted(st, None, o)
  }

  /** The redirect reloads the application, and the reload restores an anonymous session. */
  lemma UnauthorizedEndsSession<T>(st: Storage, now: int)
    ensures Restore(OnResponse<T>(st, ErrorStatus(401)).storage, now).0 == Anonymous
  {
  }

  /** After a 401, further requests go out without a bearer (unless the caller set one itself). */
  lemma UnauthorizedStopsBearer<T>(st: Storage, c: RequestConfig)
    ensures AttachBearer(OnResponse<T>(st, ErrorStatus(401)).storage, c) == c
  {
  }
}
