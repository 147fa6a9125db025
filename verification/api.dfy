/**
 * The HTTP client's interceptors: the request side attaches the stored
 * token, the response side reacts to a 401 by dropping the stored token and
 * sending the browser to the login page (a full page load).
 */
module Api {
  import opened Wrappers
  import Http
  import AuthContext

  /** A request as the interceptor sees it, headers already merged with the
      client's defaults. */
  datatype RequestConfig = RequestConfig(verb: string, url: string, headers: map<string, string>)

  /** The request interceptor. */
  function AttachBearer(stored: Option<string>, cfg: RequestConfig): (r: RequestConfig)
    ensures AuthContext.Truthy(stored) ==>
      && r.headers.Keys == cfg.headers.Keys + {"Authorization"}
      && r.headers["Authorization"] == AuthContext.Bearer(stored.value)
      && (forall h :: h in cfg.headers && h != "Authorization" ==> r.headers[h] == cfg.headers[h])
      && r.verb == cfg.verb && r.url == cfg.url
    ensures !AuthContext.Truthy(stored) ==> r == cfg
  {
    if AuthContext.Truthy(stored) then
      cfg.(headers := cfg.headers["Authorization" := AuthContext.Bearer(stored.value)])
    else cfg
  }

  datatype Intercepted<T> = Intercepted(stored: Option<string>, redirectedToLogin: bool, outcome: Result<T, Http.Failure>)

  /** The response interceptor. */
  function OnResponse<T>(stored: Option<string>, outcome: Result<T, Http.Failure>): (r: Intercepted<T>)
    ensures r.outcome == outcome
    ensures r.redirectedToLogin <==> outcome.Err? && outcome.error.HasStatus(401)
    ensures r.redirectedToLogin ==> r.stored == None
    ensures !r.redirectedToLogin ==> r.stored == stored
  {
    match outcome
    case Ok(_) => Intercepted(stored, false, outcome)
    case Err(e) =>
      if e.HasStatus(401) then Intercepted(None, true, outcome)
      else Intercepted(stored, false, outcome)
  }

  /** While signed in, every request carries the session's own header. */
  lemma SignedInRequestsCarryToken(s: AuthContext.Session, decode: AuthContext.Decoder, cfg: RequestConfig)
    requires AuthContext.Consistent(s, decode) && AuthContext.IsAuthenticated(s) && s.stored == s.token
    ensures AttachBearer(s.stored, cfg).headers["Authorization"] == s.header.value
  {
  }

  /** A 401 reloads the app on the login page with nothing stored, so it
      starts signed out. */
  lemma RejectionSignsOut<T>(s: AuthContext.Session, failure: Http.Failure, decode: AuthContext.Decoder, now: int)
    requires failure.HasStatus(401)
    ensures
      var r := OnResponse<T>(s.stored, Err(failure));
      && r.redirectedToLogin
      && !AuthContext.IsAuthenticated(AuthContext.Init(AuthContext.Start(r.stored), decode, now))
  {
  }
}
