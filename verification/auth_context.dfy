/**
 * The authentication context: the session the single-page app keeps in
 * memory, the token it persists in local storage, and the default
 * `Authorization` header of the HTTP client.
 *
 * Decoding a token is a library call and stays abstract: `decode` maps a
 * token to its claims or to the message of the error it throws. The clock is
 * the parameter `now`, in milliseconds.
 */
module AuthContext {
  import opened Wrappers
  import Http

  /** The decoded payload of a token. A token without `exp` gives
      `undefined * 1000 < now`, which is false: such a token never expires. */
  datatype Claims = Claims(sub: Option<string>, exp: Option<int>)

  type Decoder = string -> Result<Claims, string>

  /** The body of a successful `POST /login`. */
  datatype LoginData = LoginData(accessToken: Option<string>, tokenType: Option<string>)

  /** `stored` is `localStorage['access_token']`, `header` the HTTP client's
      default `Authorization` header. */
  datatype Session = Session(
    stored: Option<string>,
    token: Option<string>,
    user: Option<Claims>,
    header: Option<string>,
    loading: bool)

  /** JavaScript truthiness of a possibly missing string. */
  predicate Truthy(s: Option<string>) {
    s.Some? && s.value != ""
  }

  function Bearer(token: string): string {
    "Bearer " + token
  }

  predicate Expired(c: Claims, now: int) {
    c.exp.Some? && c.exp.value * 1000 < now
  }

  /** `isAuthenticated`: both the token and the user are present. */
  predicate IsAuthenticated(s: Session) {
    Truthy(s.token) && s.user.Some?
  }

  /** The provider's first render: the token is read from storage, nobody
      is decoded yet and the app is loading. */
  function Start(stored: Option<string>): (s: Session)
    ensures s.token == s.stored == stored && s.user == None && s.header == None && s.loading
  {
    Session(stored, stored, None, None, true)
  }

  /** `logout`: storage, token, user and header all cleared. */
  function Logout(s: Session): (r: Session)
    ensures r.stored == None && r.token == None && r.user == None && r.header == None
    ensures r.loading == s.loading
    ensures !IsAuthenticated(r)
  {
    s.(stored := None, token := None, user := None, header := None)
  }

  /** The effect that runs on mount and whenever `token` changes. */
  function Init(s: Session, decode: Decoder, now: int): (r: Session)
    ensures !r.loading
    ensures !Truthy(s.token) ==> r == s.(loading := false)
    ensures Truthy(s.token) && (decode(s.token.value).Err? || Expired(decode(s.token.value).value, now))
            ==> r == Logout(s).(loading := false)
    ensures Truthy(s.token) && decode(s.token.value).Ok? && !Expired(decode(s.token.value).value, now)
            ==> r == s.(user := Some(decode(s.token.value).value), header := Some(Bearer(s.token.value)), loading := false)
  {
    if Truthy(s.token) then
      match decode(s.token.value)
      case Err(_) => Logout(s).(loading := false)
      case Ok(c) =>
        if Expired(c, now) then Logout(s).(loading := false)
        else s.(user := Some(c), header := Some(Bearer(s.token.value)), loading := false)
    else s.(loading := false)
  }

  datatype LoginResult = LoginResult(session: Session, outcome: Result<LoginData, Http.Failure>)

  /** The state `login` leaves after any failure, whatever was there before. */
  function Cleared(s: Session): Session {
    Logout(s)
  }

  /** `login`, given the server's answer to `POST /login`. The token must be
      present and decodable; any failure clears the session and is rethrown. */
  function Login(s: Session, response: Result<LoginData, Http.Failure>, decode: Decoder): (r: LoginResult)
    ensures r.outcome.Ok? <==>
      && response.Ok? && Truthy(response.value.accessToken)
      && decode(response.value.accessToken.value).Ok?
    ensures r.outcome.Ok? ==>
      var t := response.value.accessToken.value;
      && r.outcome.value == response.value
      && r.session == s.(stored := Some(t), token := Some(t),
                         user := Some(decode(t).value), header := Some(Bearer(t)))
    ensures r.outcome.Err? ==> r.session == Cleared(s)
    ensures response.Err? ==> r.outcome == response
    ensures response.Ok? && !Truthy(response.value.accessToken) ==>
      r.outcome == Err(Http.RequestError(None, "No access token received from server"))
  {
    match response
    case Err(e) => LoginResult(Cleared(s), Err(e))
    case Ok(data) =>
      if !Truthy(data.accessToken) then
        LoginResult(Cleared(s), Err(Http.RequestError(None, "No access token received from server")))
      else
        var t := data.accessToken.value;
        match decode(t)
        case Err(msg) => LoginResult(Cleared(s), Err(Http.RequestError(None, msg)))
        case Ok(c) =>
          LoginResult(s.(stored := Some(t), token := Some(t), user := Some(c), header := Some(Bearer(t))), Ok(data))
  }

  /** `signup`: the account is created first, and only then does `login` run. */
  function Signup(s: Session, created: Result<(), Http.Failure>, loginResponse: Result<LoginData, Http.Failure>, decode: Decoder): (r: LoginResult)
    ensures created.Err? ==> r == LoginResult(s, Err(created.error))
    ensures created.Ok? ==> r == Login(s, loginResponse, decode)
  {
    match created
    case Err(e) => LoginResult(s, Err(e))
    case Ok(_) => Login(s, loginResponse, decode)
  }

  // ---------------------------------------------------------------------------
  // Properties of the lifecycle

  /** The user, when present, is the decoding of the token, and the header
      carries that token. */
  predicate Consistent(s: Session, decode: Decoder) {
    s.user.Some? ==>
      && s.token.Some? && decode(s.token.value) == Ok(s.user.value)
      && s.header == Some(Bearer(s.token.value))
  }

  /** A session is never half populated by login: either token, storage,
      user and header all hold the new token, or none of them is set. */
  lemma LoginAllOrNothing(s: Session, response: Result<LoginData, Http.Failure>, decode: Decoder)
    ensures
      var r := Login(s, response, decode).session;
      || (r.stored == None && r.token == None && r.user == None && r.header == None)
      || (Truthy(r.token) && r.stored == r.token && r.user.Some? && r.header == Some(Bearer(r.token.value)))
    ensures Consistent(Login(s, response, decode).session, decode)
  {
  }

  /** Every step of the lifecycle keeps the user tied to the token. */
  lemma LifecycleKeepsConsistent(s: Session, decode: Decoder, now: int,
                                 created: Result<(), Http.Failure>, response: Result<LoginData, Http.Failure>)
    requires Consistent(s, decode)
    ensures Consistent(Init(s, decode, now), decode)
    ensures Consistent(Logout(s), decode)
    ensures Consistent(Signup(s, created, response, decode).session, decode)
  {
  }

  /** A token that is missing, undecodable or expired at start-up leaves the
      app signed out with storage cleared; a good one signs the user in. */
  lemma StartUp(stored: Option<string>, decode: Decoder, now: int)
    ensures
      var r := Init(Start(stored), decode, now);
      && !r.loading
      && (IsAuthenticated(r) <==>
           Truthy(stored) && decode(stored.value).Ok? && !Expired(decode(stored.value).value, now))
      && (Truthy(stored) && !IsAuthenticated(r) ==> r.stored == None && r.token == None)
  {
  }

  /** Logging out and reloading comes back signed out and not loading. */
  lemma LogoutThenReload(s: Session, decode: Decoder, now: int)
    ensures
      var r := Init(Start(Logout(s).stored), decode, now);
      !IsAuthenticated(r) && !r.loading
  {
  }

  /** The effect re-runs when it clears the token; the second run changes nothing. */
  lemma InitSettles(s: Session, decode: Decoder, now: int)
    ensures Init(Init(s, decode, now), decode, now) == Init(s, decode, now)
  {
  }

  /** Logging out twice is logging out once. */
  lemma LogoutIdempotent(s: Session)
    ensures Logout(Logout(s)) == Logout(s)
  {
  }

  /** A successful login changes the token, so the effect runs on it: a
      token still valid at `now` stays, one already expired is dropped. */
  lemma LoginThenEffect(s: Session, response: Result<LoginData, Http.Failure>, decode: Decoder, now: int)
    requires !s.loading
    requires Login(s, response, decode).outcome.Ok?
    ensures
      var r := Login(s, response, decode).session;
      var c := decode(response.value.accessToken.value).value;
      && (!Expired(c, now) ==> Init(r, decode, now) == r)
      && (Expired(c, now) ==> Init(r, decode, now) == Logout(r))
  {
  }
}
