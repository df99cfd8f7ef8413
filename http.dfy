/** The HTTP side of both authenticators, reduced to what their logic depends on. The
 *  server is an oracle: the response to the n-th request of a session is `server(n)`,
 *  whatever the request. Cookies, redirects and headers are the client library's business;
 *  a response carries the page the selectors see and the number of cookies the jar holds
 *  once it has arrived. */
module Http {
  import opened Options
  import opened Text
  import opened Markup

  datatype Request =
    | Get(path: string)
    | Post(path: string, form: seq<(string, string)>)

  datatype Response =
    | Reply(status: int, page: Page, cookies: nat)
    | NoResponse   // the request failed without a response (network error, timeout)

  type Server = nat -> Response

  /** Why an operation threw. Each wrapper stands for the prefix its step adds to the
   *  message of the error it caught. */
  datatype Failure =
    | Network                         // no response at all
    | Status(code: int)               // a GET answered outside 200..399
    | NotAuthenticated                // "Not authenticated. Call login() first."
    | NoCsrfToken                     // "Could not extract CSRF token from login page"
    | NoFieldNames                    // "Could not determine login field names ..."
    | Rejected(message: string)       // the login page's own error text
    | RejectedStatus(code: int)       // "Login failed with status N"
    | RejectedData(code: int)         // "Login failed with status N: <data>"
    | BodyNotText                     // the TypeError of calling `substring` on a body that is not a string
    | NotVerified(message: string)    // the verification page's error text, or "" for none
    | FetchLoginPageFailed(cause: Failure)
    | SubmissionFailed(cause: Failure)
    | VerificationFailed(cause: Failure)

  datatype Outcome = Pass | Fail(error: Failure)

  datatype Result<T> = Ok(value: T) | Err(error: Failure)

  /** What the authenticators keep between calls, and every request sent so far. */
  datatype Session = Session(authenticated: bool, csrfToken: Option<string>, sent: seq<Request>)

  /** Sends `req`: the server answers the request's position, and the request is logged. */
  function Exchange(server: Server, s: Session, req: Request): (Response, Session) {
    (server(|s.sent|), s.(sent := s.sent + [req]))
  }

  /** An axios GET with the client's `validateStatus`: only 200..399 resolve. */
  function GetOutcome(resp: Response): (r: Result<Page>)
    ensures r.Ok? <==> resp.Reply? && 200 <= resp.status < 400
    ensures r.Ok? ==> r.value == resp.page
    ensures r.Err? && resp.Reply? ==> r.error == Status(resp.status)
    ensures resp.NoResponse? ==> r == Err(Network)
  {
    match resp
    case NoResponse => Err(Network)
    case Reply(status, page, _) => if 200 <= status < 400 then Ok(page) else Err(Status(status))
  }

  /** The session has expired: the request was answered 401 or 403. */
  predicate Expired(e: Failure) {
    e == Status(401) || e == Status(403)
  }

  /** The CSRF token: the first non-empty of the `_token` input, the `csrf-token` meta tag
   *  and the `X-CSRF-TOKEN` meta tag. */
  function CsrfTokenOf(page: Page): (t: Option<string>)
    ensures t.None? <==> page.tokenInput == [] && page.csrfMeta == [] && page.xCsrfMeta == []
    ensures t.Some? ==> t.value != []
    ensures page.tokenInput != [] ==> t == Some(page.tokenInput)
    ensures page.tokenInput == [] && page.csrfMeta != [] ==> t == Some(page.csrfMeta)
    ensures page.tokenInput == [] && page.csrfMeta == [] && page.xCsrfMeta != [] ==> t == Some(page.xCsrfMeta)
  {
    if page.tokenInput != [] then Some(page.tokenInput)
    else if page.csrfMeta != [] then Some(page.csrfMeta)
    else if page.xCsrfMeta != [] then Some(page.xCsrfMeta)
    else None
  }

  /** A page seen by a signed-in member: a logout link or form, and no login form or
   *  password input. */
  predicate LoggedInPage(page: Page) {
    (page.logoutLink || page.logoutForm) && !(page.loginForm || page.passwordInput)
  }

  /** `a.text().trim() || b.text().trim() || ...`: the first non-empty trimmed text, or "". */
  function FirstText(texts: seq<string>): string {
    FirstNonEmpty(TrimAll(texts))
  }

  function TrimAll(texts: seq<string>): (ts: seq<string>)
    ensures |ts| == |texts| && forall i :: 0 <= i < |texts| ==> ts[i] == Trim(texts[i])
  {
    if texts == [] then [] else [Trim(texts[0])] + TrimAll(texts[1..])
  }

  /** `a || b || ...` over strings: the first non-empty one, or "". */
  function FirstNonEmpty(ts: seq<string>): string {
    if ts == [] then []
    else if ts[0] != [] then ts[0]
    else FirstNonEmpty(ts[1..])
  }

  /** The string chosen is empty only when all are; otherwise it is the first non-empty one. */
  lemma {:induction false} FirstNonEmptyIsFirst(ts: seq<string>)
    ensures var r := FirstNonEmpty(ts);
            && (r == [] <==> forall i :: 0 <= i < |ts| ==> ts[i] == [])
            && (r != [] ==> exists i :: 0 <= i < |ts| && r == ts[i] && forall j :: 0 <= j < i ==> ts[j] == [])
  {
    if ts != [] && ts[0] == [] {
      var rest := ts[1..];
      FirstNonEmptyIsFirst(rest);
      var r := FirstNonEmpty(rest);
      if r != [] {
        var i :| 0 <= i < |rest| && r == rest[i] && forall j :: 0 <= j < i ==> rest[j] == [];
        forall j | 0 <= j < i + 1
          ensures ts[j] == []
        {
          if j > 0 {
            assert ts[j] == rest[j - 1];
          }
        }
        assert r == ts[i + 1];
      } else {
        forall j | 0 <= j < |ts|
          ensures ts[j] == []
        {
          if j > 0 {
            assert ts[j] == rest[j - 1];
          }
        }
      }
    }
  }
}
