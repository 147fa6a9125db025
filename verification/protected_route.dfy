/** The route guard in front of every page that needs a session. */
module ProtectedRoute {
  import AuthContext

  datatype View = LoadingPlaceholder | Outlet | RedirectToLogin

  /** The guard reads only `token` and `loading`. */
  function Guard(token: Wrappers.Option<string>, loading: bool): (v: View)
    ensures loading ==> v == LoadingPlaceholder
    ensures !loading ==> (v == Outlet <==> AuthContext.Truthy(token))
    ensures !loading ==> (v == RedirectToLogin <==> !AuthContext.Truthy(token))
  {
    if loading then LoadingPlaceholder
    else if AuthContext.Truthy(token) then Outlet else RedirectToLogin
  }

  function GuardSession(s: AuthContext.Session): View {
    Guard(s.token, s.loading)
  }

  /** Once the start-up effect has run, the guard lets through exactly the
      authenticated sessions. */
  lemma GuardAfterStartUp(stored: Wrappers.Option<string>, decode: AuthContext.Decoder, now: int)
    ensures
      var s := AuthContext.Init(AuthContext.Start(stored), decode, now);
      && (GuardSession(s) == Outlet <==> AuthContext.IsAuthenticated(s))
      && (GuardSession(s) == RedirectToLogin <==> !AuthContext.IsAuthenticated(s))
  {
  }

  /** Login and logout keep the guard in line with authentication. */
  lemma GuardFollowsLoginAndLogout(s: AuthContext.Session, response: Wrappers.Result<AuthContext.LoginData, Http.Failure>,
                                   decode: AuthContext.Decoder)
    requires !s.loading
    ensures
      var r := AuthContext.Login(s, response, decode).session;
      GuardSession(r) == Outlet <==> AuthContext.IsAuthenticated(r)
    ensures GuardSession(AuthContext.Logout(s)) == RedirectToLogin
  {
  }

  import Wrappers
  import Http
}
