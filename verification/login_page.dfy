/**
 * The login/signup page: client-side checks of the signup fields, the
 * translation of a failure into one line of text, and the page's loading
 * and mode flags around a submission.
 */
module LoginPage {
  import opened Wrappers
  import Text
  import Http
  import AuthContext

  datatype Form = Form(username: string, email: string, password: string)

  datatype PageState = PageState(isLogin: bool, error: string, loading: bool, navigatedHome: bool)

  const Initial: PageState := PageState(true, "", false, false)

  /** The first signup field that is empty after trimming, in the order
      username, email, password. */
  function SignupProblem(f: Form): (r: Option<string>)
    ensures r == None <==> !Text.AllSpace(f.username) && !Text.AllSpace(f.email) && !Text.AllSpace(f.password)
    ensures Text.AllSpace(f.username) ==> r == Some("Username is required")
    ensures !Text.AllSpace(f.username) && Text.AllSpace(f.email) ==> r == Some("Email is required")
    ensures !Text.AllSpace(f.username) && !Text.AllSpace(f.email) && Text.AllSpace(f.password)
            ==> r == Some("Password is required")
  {
    Text.TrimEmptyIffBlank(f.username);
    Text.TrimEmptyIffBlank(f.email);
    Text.TrimEmptyIffBlank(f.password);
    if Text.Trim(f.username) == "" then Some("Username is required")
    else if Text.Trim(f.email) == "" then Some("Email is required")
    else if Text.Trim(f.password) == "" then Some("Password is required")
    else None
  }

  /** `d.msg || d`, then string conversion inside `join`. */
  function ItemText(item: Http.DetailItem): string {
    match item
    case TextItem(t) => t
    case ObjectItem(msg) => if msg != "" then msg else "[object Object]"
  }

  function ItemTexts(items: seq<Http.DetailItem>): (r: seq<string>)
    ensures |r| == |items|
    ensures forall i :: 0 <= i < |items| ==> r[i] == ItemText(items[i])
  {
    seq(|items|, i requires 0 <= i < |items| => ItemText(items[i]))
  }

  const GenericError: string := "An error occurred. Please try again."
  const InvalidFormat: string := "Invalid email or password format. Please check your input."
  const InvalidCredentials: string := "Invalid email or password."
  const BadRequest: string := "Bad request. Please check your input."

  /** `err.response?.status` is one of the three codes handled first. */
  predicate StatusHandled(err: Http.Failure) {
    err.HasStatus(422) || err.HasStatus(401) || err.HasStatus(400)
  }

  /** `err.response?.data`, when the failure carries a response. */
  function ServerData(err: Http.Failure): Option<Http.ErrorData> {
    if err.RequestError? && err.response.Some? then Some(err.response.value.data) else None
  }

  /** `err.response?.data?.detail` is truthy. */
  predicate HasDetail(err: Http.Failure) {
    ServerData(err).Some? && ServerData(err).value.detail.Truthy()
  }

  /** `err.response?.data?.message` is truthy. */
  predicate HasServerMessage(err: Http.Failure) {
    ServerData(err).Some? && ServerData(err).value.message != ""
  }

  /** The message shown for a failure: the status codes first, then the
      server's `detail`, the server's `message`, the error's own message, a
      thrown string, and the generic text. */
  function ErrorMessage(err: Http.Failure): (r: string)
    ensures err.HasStatus(422) ==> r == InvalidFormat
    ensures err.HasStatus(401) ==> r == InvalidCredentials
    ensures err.HasStatus(400) ==> r == BadRequest
    ensures !StatusHandled(err) && HasDetail(err) && ServerData(err).value.detail.ListDetail? ==>
      r == Text.Join(ItemTexts(ServerData(err).value.detail.items), ", ")
    ensures !StatusHandled(err) && HasDetail(err) && ServerData(err).value.detail.TextDetail? ==>
      r == ServerData(err).value.detail.text
    ensures !StatusHandled(err) && !HasDetail(err) && HasServerMessage(err) ==> r == ServerData(err).value.message
    ensures err.RequestError? && !StatusHandled(err) && !HasDetail(err) && !HasServerMessage(err) && err.message != "" ==>
      r == err.message
    ensures err.ThrownString? ==> r == err.text
    ensures err.RequestError? && !StatusHandled(err) && !HasDetail(err) && !HasServerMessage(err) && err.message == "" ==>
      r == GenericError
  {
    if err.HasStatus(422) then InvalidFormat
    else if err.HasStatus(401) then InvalidCredentials
    else if err.HasStatus(400) then BadRequest
    else if err.RequestError? && err.response.Some? && err.response.value.data.detail.Truthy() then
      match err.response.value.data.detail
      case ListDetail(items) => Text.Join(ItemTexts(items), ", ")
      case TextDetail(t) => t
    else if err.RequestError? && err.response.Some? && err.response.value.data.message != "" then
      err.response.value.data.message
    else if err.RequestError? && err.message != "" then err.message
    else if err.ThrownString? then err.text
    else GenericError
  }

  /** A status of 422, 401 or 400 alone decides the message: neither the
      body of the response nor the error's own message matters. */
  lemma HandledStatusIgnoresBody(status: int, d1: Http.ErrorData, m1: string, d2: Http.ErrorData, m2: string)
    requires status == 422 || status == 401 || status == 400
    ensures ErrorMessage(Http.RequestError(Some(Http.ErrorResponse(status, d1)), m1))
         == ErrorMessage(Http.RequestError(Some(Http.ErrorResponse(status, d2)), m2))
    ensures ErrorMessage(Http.RequestError(Some(Http.ErrorResponse(status, d1)), m1))
         in {InvalidFormat, InvalidCredentials, BadRequest}
  {
  }

  /** An error the page throws itself reaches the user verbatim. */
  lemma OwnErrorsShownVerbatim(msg: string)
    requires msg != ""
    ensures ErrorMessage(Http.RequestError(None, msg)) == msg
  {
  }

  /** The message is empty only when the server sent a `detail` list whose
      entries render to nothing, or a thrown empty string; otherwise the
      user always sees some text. */
  lemma EmptyMessageOnlyFromDetailList(err: Http.Failure)
    requires ErrorMessage(err) == ""
    ensures || (err.RequestError? && err.response.Some? && err.response.value.data.detail.ListDetail?)
            || err == Http.ThrownString("")
  {
  }

  /** A server detail beats the server message and the error's own message
      whenever the status is not one of the three handled first. */
  lemma DetailBeatsMessages(status: int, t: string, serverMsg: string, ownMsg: string)
    requires status != 422 && status != 401 && status != 400 && t != ""
    ensures ErrorMessage(Http.RequestError(Some(Http.ErrorResponse(status, Http.ErrorData(Http.TextDetail(t), serverMsg))), ownMsg)) == t
  {
  }

  /** `setError('')` and `setLoading(true)` before the request. */
  function BeginSubmit(p: PageState): (r: PageState)
    ensures r.loading && r.error == "" && r.isLogin == p.isLogin
  {
    p.(error := "", loading := true)
  }

  /** What the page does with the value `login`/`signup` resolved to (`None`
      is a falsy value) or the error they threw; `loading` ends false. */
  function Settle(p: PageState, outcome: Result<Option<AuthContext.LoginData>, Http.Failure>): (r: PageState)
    ensures !r.loading
    ensures r.navigatedHome <==> p.navigatedHome || (outcome.Ok? && outcome.value.Some?)
    ensures outcome.Err? ==> r.error == ErrorMessage(outcome.error) && r.isLogin == p.isLogin
    ensures p.isLogin && outcome == Ok(None) ==> r.error == "Login failed - no data returned"
    ensures !p.isLogin && outcome == Ok(None) ==> r.isLogin && r.error == "Account created successfully! Please login."
  {
    match outcome
    case Err(e) => p.(error := ErrorMessage(e), loading := false)
    case Ok(Some(_)) => p.(navigatedHome := true, loading := false)
    case Ok(None) =>
      if p.isLogin then
        p.(error := ErrorMessage(Http.RequestError(None, "Login failed - no data returned")), loading := false)
      else
        p.(isLogin := true, error := "Account created successfully! Please login.", loading := false)
  }

  /** What the page sees of the context's result: the returned data is an
      object, hence truthy. */
  function Resolved(r: AuthContext.LoginResult): Result<Option<AuthContext.LoginData>, Http.Failure> {
    match r.outcome
    case Ok(d) => Ok(Some(d))
    case Err(e) => Err(e)
  }

  datatype Submitted = Submitted(page: PageState, session: AuthContext.Session)

  /** `handleSubmit`, from the click to the settled page and session. In
      signup mode an empty field stops the submission before any request. */
  function Submit(p: PageState, f: Form, s: AuthContext.Session,
                  created: Result<(), Http.Failure>, loginResponse: Result<AuthContext.LoginData, Http.Failure>,
                  decode: AuthContext.Decoder): (r: Submitted)
    ensures !r.page.loading
    ensures p.isLogin ==> r.session == AuthContext.Login(s, loginResponse, decode).session
    ensures !p.isLogin && SignupProblem(f).Some? ==> r.session == s && r.page.error == SignupProblem(f).value
    ensures !p.isLogin && SignupProblem(f).None? ==> r.session == AuthContext.Signup(s, created, loginResponse, decode).session
  {
    var q := BeginSubmit(p);
    if p.isLogin then
      var lr := AuthContext.Login(s, loginResponse, decode);
      Submitted(Settle(q, Resolved(lr)), lr.session)
    else
      match SignupProblem(f)
      case Some(msg) =>
        assert msg != "";
        OwnErrorsShownVerbatim(msg);
        Submitted(Settle(q, Err(Http.RequestError(None, msg))), s)
      case None =>
        var lr := AuthContext.Signup(s, created, loginResponse, decode);
        Submitted(Settle(q, Resolved(lr)), lr.session)
  }

  /** An empty signup field means no request is made: the outcome does not
      depend on anything the server could answer. */
  lemma InvalidSignupSendsNothing(p: PageState, f: Form, s: AuthContext.Session,
                                  c1: Result<(), Http.Failure>, l1: Result<AuthContext.LoginData, Http.Failure>,
                                  c2: Result<(), Http.Failure>, l2: Result<AuthContext.LoginData, Http.Failure>,
                                  decode: AuthContext.Decoder)
    requires !p.isLogin && SignupProblem(f).Some?
    ensures Submit(p, f, s, c1, l1, decode) == Submit(p, f, s, c2, l2, decode)
  {
  }

  /** With the real context the "no data" branches never run: a submission
      reaches the home page exactly when the context's call succeeded, the
      user is then signed in, and the mode never flips. */
  lemma ContextAlwaysReturnsData(p: PageState, f: Form, s: AuthContext.Session,
                                 created: Result<(), Http.Failure>, loginResponse: Result<AuthContext.LoginData, Http.Failure>,
                                 decode: AuthContext.Decoder)
    ensures
      var r := Submit(p, f, s, created, loginResponse, decode);
      var called := if p.isLogin then AuthContext.Login(s, loginResponse, decode).outcome.Ok?
                    else SignupProblem(f).None? && AuthContext.Signup(s, created, loginResponse, decode).outcome.Ok?;
      && (r.page.navigatedHome <==> p.navigatedHome || called)
      && (r.page.navigatedHome && !p.navigatedHome ==> AuthContext.IsAuthenticated(r.session))
      && r.page.isLogin == p.isLogin
  {
    var r := Submit(p, f, s, created, loginResponse, decode);
    if p.isLogin {
      var lr := AuthContext.Login(s, loginResponse, decode);
      assert Resolved(lr).Ok? ==> Resolved(lr).value.Some?;
      assert r.page == Settle(BeginSubmit(p), Resolved(lr));
    } else if SignupProblem(f).None? {
      var lr := AuthContext.Signup(s, created, loginResponse, decode);
      assert Resolved(lr).Ok? ==> Resolved(lr).value.Some?;
      assert r.page == Settle(BeginSubmit(p), Resolved(lr));
    }
  }

  /** The mode switch: ignored while a submission is in flight, otherwise it
      flips the mode and clears the error. */
  function ToggleMode(p: PageState): (r: PageState)
    ensures p.loading ==> r == p
    ensures !p.loading ==> r.isLogin == !p.isLogin && r.error == "" && r.loading == p.loading
  {
    if p.loading then p else p.(isLogin := !p.isLogin, error := "")
  }
}
