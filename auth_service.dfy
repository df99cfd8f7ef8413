/** `AuthService`, the TypeScript session authenticator: fetch the login page for a CSRF
 *  token, post the credentials, check that a members' page shows a signed-in member, and
 *  sign in again once when a GET finds the session expired.
 *
 *  Each operation is first stated as a step function from the session before to its
 *  result and the session after; the class's methods are proved to perform those steps,
 *  and the lemmas state what the steps promise. */
module Auth {
  import opened Options
  import opened Text
  import opened Markup
  import opened Http

  /** `fetchLoginPage`: GET `/login` and store its CSRF token, or `null` when it has none,
   *  in which case the step throws after the store. */
  function FetchLoginPageStep(server: Server, s: Session): (Outcome, Session) {
    var (resp, s1) := Exchange(server, s, Get("/login"));
    match GetOutcome(resp)
    case Err(e) => (Fail(FetchLoginPageFailed(e)), s1)
    case Ok(page) =>
      var token := CsrfTokenOf(page);
      (if token.None? then Fail(FetchLoginPageFailed(NoCsrfToken)) else Pass, s1.(csrfToken := token))
  }

  /** The login form: `URLSearchParams` writes a `null` token as the text "null". */
  function LoginForm(token: Option<string>, username: string, password: string): seq<(string, string)> {
    [("_token", token.GetOr("null")), ("username", username), ("password", password), ("remember", "on")]
  }

  /** Why a login answered with an error status and no cookie failed: the page's
   *  `.alert-danger` or `.error` text when the body is text and has one, else the status;
   *  a body that is not a string (`null` included) is reported with the status. */
  function Rejection(status: int, page: Page): (f: Failure)
    ensures page.body.Text? && Trim(page.alertText) != [] ==> f == Rejected(Trim(page.alertText))
    ensures page.body.Text? && Trim(page.alertText) == [] && Trim(page.errorText) != [] ==> f == Rejected(Trim(page.errorText))
    ensures page.body.Text? && Trim(page.alertText) == [] && Trim(page.errorText) == [] ==> f == RejectedStatus(status)
    ensures !page.body.Text? ==> f == RejectedData(status)
  {
    if page.body.Text? then
      var message := FirstText([page.alertText, page.errorText]);
      var trimmed := [Trim(page.alertText), Trim(page.errorText)];
      assert TrimAll([page.alertText, page.errorText]) == trimmed;
      assert trimmed[1..] == [Trim(page.errorText)] && [Trim(page.errorText)][1..] == [];
      assert message == if trimmed[0] != [] then trimmed[0] else FirstNonEmpty([Trim(page.errorText)]);
      assert FirstNonEmpty([Trim(page.errorText)]) == if Trim(page.errorText) != [] then Trim(page.errorText) else [];
      if message != [] then Rejected(message) else RejectedStatus(status)
    else RejectedData(status)
  }

  /** `submitLogin`: POST the form to `/login`, accepting every status; fail only when
   *  there is no response, or when the status is 400 or more and the jar holds no cookie. */
  function SubmitLoginStep(server: Server, username: string, password: string, s: Session): (Outcome, Session) {
    var (resp, s1) := Exchange(server, s, Post("/login", LoginForm(s.csrfToken, username, password)));
    match resp
    case NoResponse => (Fail(SubmissionFailed(Network)), s1)
    case Reply(status, page, cookies) =>
      if status >= 400 && cookies == 0 then (Fail(SubmissionFailed(Rejection(status, page))), s1)
      else (Pass, s1)
  }

  /** `verifyAuthentication`: GET `/bookings` and set the flag from the page. */
  function VerifyStep(server: Server, s: Session): (Outcome, Session) {
    var (resp, s1) := Exchange(server, s, Get("/bookings"));
    match GetOutcome(resp)
    case Err(e) => (Fail(VerificationFailed(e)), s1)
    case Ok(page) =>
      var ok := LoggedInPage(page);
      (if ok then Pass else Fail(VerificationFailed(NotVerified([]))), s1.(authenticated := ok))
  }

  /** `login`: the three steps in order, stopping at the first that throws. Nothing here
   *  resets the flag when a step fails. */
  function LoginStep(server: Server, username: string, password: string, s: Session): (Outcome, Session) {
    var (o1, s1) := FetchLoginPageStep(server, s);
    if o1.Fail? then (o1, s1)
    else
      var (o2, s2) := SubmitLoginStep(server, username, password, s1);
      if o2.Fail? then (o2, s2)
      else VerifyStep(server, s2)
  }

  /** `get`: refuse without a session; otherwise GET `url`, and when the answer is 401 or
   *  403 clear the flag, sign in again and repeat the GET once. */
  function GetStep(server: Server, username: string, password: string, s: Session, url: string): (Result<Page>, Session) {
    if !s.authenticated then (Err(NotAuthenticated), s)
    else
      var (resp, s1) := Exchange(server, s, Get(url));
      match GetOutcome(resp)
      case Ok(page) => (Ok(page), s1)
      case Err(e) =>
        if !Expired(e) then (Err(e), s1)
        else RetryStep(server, username, password, s1, url)
  }

  /** The second half of `get` after a 401 or 403: clear the flag, sign in, then GET `url`
   *  once more. */
  function RetryStep(server: Server, username: string, password: string, s: Session, url: string): (Result<Page>, Session) {
    var (o, s1) := LoginStep(server, username, password, s.(authenticated := false));
    if o.Fail? then (Err(o.error), s1)
    else
      var (retry, s2) := Exchange(server, s1, Get(url));
      (GetOutcome(retry), s2)
  }

  class AuthService {
    const server: Server
    const username: string
    const password: string
    var isAuthenticated: bool
    var csrfToken: Option<string>
    var sent: seq<Request>

    function State(): Session
      reads this
    {
      Session(isAuthenticated, csrfToken, sent)
    }

    constructor(server: Server, username: string, password: string)
      ensures this.server == server && this.username == username && this.password == password
      ensures State() == Session(false, None, [])
    {
      this.server := server;
      this.username := username;
      this.password := password;
      isAuthenticated := false;
      csrfToken := None;
      sent := [];
    }

    method Send(req: Request) returns (resp: Response)
      modifies this
      ensures (resp, State()) == Exchange(server, old(State()), req)
    {
      resp := server(|sent|);
      sent := sent + [req];
    }

    method FetchLoginPage() returns (o: Outcome)
      modifies this
      ensures (o, State()) == FetchLoginPageStep(server, old(State()))
    {
      var resp := Send(Http.Get("/login"));
      var page := GetOutcome(resp);
      if page.Err? {
        return Fail(FetchLoginPageFailed(page.error));
      }
      csrfToken := CsrfTokenOf(page.value);
      if csrfToken.None? {
        return Fail(FetchLoginPageFailed(NoCsrfToken));
      }
      return Pass;
    }

    method SubmitLogin() returns (o: Outcome)
      modifies this
      ensures (o, State()) == SubmitLoginStep(server, username, password, old(State()))
    {
      var resp := Send(Post("/login", LoginForm(csrfToken, username, password)));
      if resp.NoResponse? {
        return Fail(SubmissionFailed(Network));
      }
      if resp.status >= 400 && resp.cookies == 0 {
        return Fail(SubmissionFailed(Rejection(resp.status, resp.page)));
      }
      return Pass;
    }

    method VerifyAuthentication() returns (o: Outcome)
      modifies this
      ensures (o, State()) == VerifyStep(server, old(State()))
    {
      var resp := Send(Http.Get("/bookings"));
      var page := GetOutcome(resp);
      if page.Err? {
        return Fail(VerificationFailed(page.error));
      }
      isAuthenticated := LoggedInPage(page.value);
      if !isAuthenticated {
        return Fail(VerificationFailed(NotVerified([])));
      }
      return Pass;
    }

    method Login() returns (o: Outcome)
      modifies this
      ensures (o, State()) == LoginStep(server, username, password, old(State()))
    {
      o := FetchLoginPage();
      if o.Fail? {
        return;
      }
      o := SubmitLogin();
      if o.Fail? {
        return;
      }
      o := VerifyAuthentication();
    }

    method Get(url: string) returns (r: Result<Page>)
      modifies this
      ensures (r, State()) == GetStep(server, username, password, old(State()), url)
    {
      if !isAuthenticated {
        return Err(NotAuthenticated);
      }
      var resp := Send(Http.Get(url));
      r := GetOutcome(resp);
      if r.Err? && Expired(r.error) {
        isAuthenticated := false;
        var o := Login();
        if o.Fail? {
          return Err(o.error);
        }
        resp := Send(Http.Get(url));
        r := GetOutcome(resp);
      }
    }

    /** `getClient`: the client, or a throw without any request when signed out. */
    method GetClient() returns (o: Outcome)
      ensures o.Pass? <==> isAuthenticated
      ensures o.Fail? ==> o.error == NotAuthenticated
    {
      if !isAuthenticated {
        return Fail(NotAuthenticated);
      }
      return Pass;
    }

    method IsLoggedIn() returns (b: bool)
      ensures b == isAuthenticated
    {
      return isAuthenticated;
    }
  }

  /** The status/cookie rule: a login POST with a response fails exactly when its status is
   *  400 or more and no cookie was set, for the reason `Rejection` reads off the page; the
   *  POST goes to `/login` with the four fields. */
  lemma SubmitRule(server: Server, username: string, password: string, s: Session)
    ensures var (o, s') := SubmitLoginStep(server, username, password, s);
            var resp := server(|s.sent|);
            && s' == s.(sent := s.sent + [Post("/login", LoginForm(s.csrfToken, username, password))])
            && (o.Fail? <==> resp.NoResponse? || (resp.status >= 400 && resp.cookies == 0))
            && (resp.NoResponse? ==> o == Fail(SubmissionFailed(Network)))
            && (resp.Reply? && o.Fail? ==> o.error == SubmissionFailed(Rejection(resp.status, resp.page)))
  {
  }

  /** Verification sets the flag to what the page shows and fails exactly when the flag is
   *  false; a GET that fails leaves the flag alone. */
  lemma VerifySetsFlag(server: Server, s: Session)
    ensures var (o, s') := VerifyStep(server, s);
            var r := GetOutcome(server(|s.sent|));
            && s'.sent == s.sent + [Get("/bookings")] && s'.csrfToken == s.csrfToken
            && (r.Ok? ==> s'.authenticated == LoggedInPage(r.value) && (o.Pass? <==> s'.authenticated))
            && (r.Err? ==> s'.authenticated == s.authenticated && o == Fail(VerificationFailed(r.error)))
  {
  }

  /** Login sends GET `/login`, then POST `/login`, then GET `/bookings`, stopping at the
   *  first step that fails; it succeeds only after all three, signed in with a token. */
  lemma LoginOrder(server: Server, username: string, password: string, s: Session)
    ensures var (o, s') := LoginStep(server, username, password, s);
            var n := |s.sent|;
            && |s.sent| < |s'.sent| <= |s.sent| + 3 && s'.sent[..n] == s.sent
            && s'.sent[n] == Get("/login")
            && (|s'.sent| > n + 1 ==> s'.sent[n + 1].Post? && s'.sent[n + 1].path == "/login")
            && (|s'.sent| > n + 2 ==> s'.sent[n + 2] == Get("/bookings"))
            && (|s'.sent| == n + 1 <==> o.Fail? && o.error.FetchLoginPageFailed?)
            && (|s'.sent| == n + 2 <==> o.Fail? && o.error.SubmissionFailed?)
            && (o.Pass? ==> |s'.sent| == n + 3 && s'.authenticated && s'.csrfToken.Some?)
  {
    var (o1, s1) := FetchLoginPageStep(server, s);
    if o1.Pass? {
      var (o2, s2) := SubmitLoginStep(server, username, password, s1);
      if o2.Pass? {
        var (o3, s3) := VerifyStep(server, s2);
        assert s3.sent == s.sent + [Get("/login"), Post("/login", LoginForm(s1.csrfToken, username, password)), Get("/bookings")];
      }
    }
  }

  /** A signed-out `get` sends nothing and throws. A signed-in `get` sends the GET first;
   *  any failure but a 401 or 403 is rethrown at once, leaving the session as it was.
   *  After a 401 or 403 what follows is one `RetryStep`: GET `/login`, POST `/login` and
   *  GET `/bookings`, stopping at the first failure; it repeats the GET only after a login
   *  that succeeded, as the fifth and last request, returns the answer to that repeat, and
   *  the session ends signed in exactly then. A `get` that returns a page leaves the
   *  session signed in. */
  lemma GetRetriesOnce(server: Server, username: string, password: string, s: Session, url: string)
    ensures var (r, s') := GetStep(server, username, password, s, url);
            var n := |s.sent|;
            var first := GetOutcome(server(n));
            && (!s.authenticated ==> r == Err(NotAuthenticated) && s' == s)
            && (s.authenticated ==>
                  && n < |s'.sent| <= n + 5 && s'.sent[..n] == s.sent && s'.sent[n] == Get(url)
                  && (first.Ok? || !Expired(first.error) ==> r == first && s' == s.(sent := s.sent + [Get(url)]))
                  && (first.Err? && Expired(first.error) ==>
                        && (r, s') == RetryStep(server, username, password, s.(sent := s.sent + [Get(url)]), url)
                        && (s'.authenticated <==> |s'.sent| == n + 5)
                        && |s'.sent| > n + 1 && s'.sent[n + 1] == Get("/login")
                        && (|s'.sent| > n + 2 ==> s'.sent[n + 2].Post? && s'.sent[n + 2].path == "/login")
                        && (|s'.sent| > n + 3 ==> s'.sent[n + 3] == Get("/bookings")))
                  && (|s'.sent| == n + 5 <==> first.Err? && Expired(first.error) && LoginStep(server, username, password, s.(authenticated := false, sent := s.sent + [Get(url)])).0.Pass?)
                  && (|s'.sent| == n + 5 ==> s'.sent[n + 4] == Get(url) && r == GetOutcome(server(n + 4)))
                  && (r.Ok? ==> s'.authenticated))
  {
    if s.authenticated {
      var (resp, s1) := Exchange(server, s, Get(url));
      var first := GetOutcome(resp);
      if first.Err? && Expired(first.error) {
        RetryAfterLogin(server, username, password, s1, url);
        assert GetStep(server, username, password, s, url) == RetryStep(server, username, password, s1, url);
        var s' := RetryStep(server, username, password, s1, url).1;
        var n := |s.sent|;
        assert s'.sent[..n + 1] == s1.sent;
        assert s'.sent[n] == s'.sent[..n + 1][n] == Get(url);
        assert s'.sent[..n] == s'.sent[..n + 1][..n] == s.sent;
      } else {
        assert GetStep(server, username, password, s, url) == (first, s1);
      }
    }
  }

  /** The retry sends GET `/login`, POST `/login` and GET `/bookings`, stopping at the first
   *  step that fails, and then repeats the GET only when the login succeeded, returning the
   *  answer to that repeat. It ends signed in exactly when the login succeeded. */
  lemma RetryAfterLogin(server: Server, username: string, password: string, s: Session, url: string)
    ensures var (r, s') := RetryStep(server, username, password, s, url);
            var (o, s1) := LoginStep(server, username, password, s.(authenticated := false));
            var n := |s.sent|;
            && n < |s'.sent| <= n + 4 && s'.sent[..n] == s.sent
            && s'.sent[n] == Get("/login")
            && (|s'.sent| > n + 1 ==> s'.sent[n + 1].Post? && s'.sent[n + 1].path == "/login")
            && (|s'.sent| > n + 2 ==> s'.sent[n + 2] == Get("/bookings"))
            && (o.Fail? ==> r == Err(o.error) && s' == s1 && !s'.authenticated && |s'.sent| <= n + 3)
            && (o.Pass? ==> |s'.sent| == n + 4 && s'.sent[n + 3] == Get(url) && s'.authenticated
                            && r == GetOutcome(server(n + 3)))
  {
    var s0 := s.(authenticated := false);
    LoginOrder(server, username, password, s0);
    LoginFromSignedOut(server, username, password, s0);
    var (o, s1) := LoginStep(server, username, password, s0);
    if o.Pass? {
      var s2 := s1.(sent := s1.sent + [Get(url)]);
      assert s2.sent[..|s1.sent|] == s1.sent;
      assert s2.sent[..|s.sent|] == s1.sent[..|s.sent|];
    }
  }

  /** A login that starts signed out ends signed in exactly when it succeeds: nothing but
   *  a verification page showing a session sets the flag. */
  lemma LoginFromSignedOut(server: Server, username: string, password: string, s: Session)
    requires !s.authenticated
    ensures var (o, s') := LoginStep(server, username, password, s);
            s'.authenticated <==> o.Pass?
  {
    FetchKeepsFlag(server, s);
    var (o1, s1) := FetchLoginPageStep(server, s);
    if o1.Pass? {
      var (o2, s2) := SubmitLoginStep(server, username, password, s1);
      if o2.Pass? {
        VerifySetsFlag(server, s2);
      }
    }
  }

  /** Fetching the login page keeps the flag; it sets the token to what the page holds,
   *  which is `null` exactly when the fetch fails for want of a token. */
  lemma FetchKeepsFlag(server: Server, s: Session)
    ensures var (o, s') := FetchLoginPageStep(server, s);
            var r := GetOutcome(server(|s.sent|));
            && s'.authenticated == s.authenticated && s'.sent == s.sent + [Get("/login")]
            && (r.Ok? ==> s'.csrfToken == CsrfTokenOf(r.value) && (o.Pass? <==> s'.csrfToken.Some?))
            && (r.Err? ==> s'.csrfToken == s.csrfToken && o == Fail(FetchLoginPageFailed(r.error)))
  {
  }
}
