/** `RevSportAuthenticator`, the JavaScript prototype of the session authenticator. It
 *  differs from the TypeScript service in four ways: it reads the form's action and the
 *  login field names from the login page; it does not fail a login POST for its status
 *  or its cookies, only when an error status comes with a body that is neither a string
 *  nor `null` (logging that body throws); it reports the verification page's error text;
 *  and a failed login always leaves it signed out. */
module RevSportAuth {
  import opened Options
  import opened Text
  import opened Markup
  import opened Http

  /** What `fetchLoginPage` returns. */
  datatype LoginPageData = LoginPageData(csrfToken: string, formAction: string, formFields: seq<FormField>)

  /** The action of a `method="POST"` form, else of a `method="post"` form, else `/login`. */
  function FormActionOf(page: Page): (a: string)
    ensures a != []
    ensures page.postFormAction != [] ==> a == page.postFormAction
    ensures page.postFormAction == [] && page.lowerPostFormAction != [] ==> a == page.lowerPostFormAction
    ensures page.postFormAction == [] && page.lowerPostFormAction == [] ==> a == "/login"
  {
    if page.postFormAction != [] then page.postFormAction
    else if page.lowerPostFormAction != [] then page.lowerPostFormAction
    else "/login"
  }

  /** `fetchLoginPage`: GET `/login`; store the CSRF token only once one has been found. */
  function FetchLoginPageStep(server: Server, s: Session): (Result<LoginPageData>, Session) {
    var (resp, s1) := Exchange(server, s, Get("/login"));
    match GetOutcome(resp)
    case Err(e) => (Err(FetchLoginPageFailed(e)), s1)
    case Ok(page) =>
      match CsrfTokenOf(page)
      case None => (Err(FetchLoginPageFailed(NoCsrfToken)), s1)
      case Some(token) =>
        (Ok(LoginPageData(token, FormActionOf(page), page.formFields)), s1.(csrfToken := Some(token)))
  }

  /** The lower-cased name, id or placeholder of `field` contains one of `candidates`. */
  predicate FieldMatches(field: FormField, candidates: seq<string>) {
    exists c :: c in candidates &&
      (Contains(ToLower(field.name), c) || Contains(ToLower(field.id), c) || Contains(ToLower(field.placeholder), c))
  }

  /** `findFieldName`: the name of the first field, in form order, that matches one of the
   *  candidates, or `null` when none does. */
  function FindFieldName(fields: seq<FormField>, candidates: seq<string>): Option<string> {
    if fields == [] then None
    else if FieldMatches(fields[0], candidates) then Some(fields[0].name)
    else FindFieldName(fields[1..], candidates)
  }

  /** The field name found is that of the first matching field, and there is one exactly
   *  when some field matches. The name may be empty: a field can match by its id or
   *  placeholder alone. */
  lemma {:induction false} FindFieldNameIsFirstMatch(fields: seq<FormField>, candidates: seq<string>)
    ensures var r := FindFieldName(fields, candidates);
            && (r.None? <==> forall i :: 0 <= i < |fields| ==> !FieldMatches(fields[i], candidates))
            && (r.Some? ==> exists i :: 0 <= i < |fields| && FieldMatches(fields[i], candidates)
                                        && r.value == fields[i].name
                                        && forall j :: 0 <= j < i ==> !FieldMatches(fields[j], candidates))
  {
    if fields != [] && !FieldMatches(fields[0], candidates) {
      FindFieldNameIsFirstMatch(fields[1..], candidates);
      var r := FindFieldName(fields[1..], candidates);
      assert forall i :: 0 < i < |fields| ==> fields[i] == fields[1..][i - 1];
      if r.Some? {
        var i :| 0 <= i < |fields[1..]| && FieldMatches(fields[1..][i], candidates)
                 && r.value == fields[1..][i].name
                 && forall j :: 0 <= j < i ==> !FieldMatches(fields[1..][j], candidates);
        assert FieldMatches(fields[i + 1], candidates) && r.value == fields[i + 1].name;
      }
    }
  }

  /** A property key that names an array index: the canonical numeral of an integer below
   *  2^32 - 1. An object lists such keys first, in ascending order, before its other keys. */
  predicate IsIndexKey(k: string) {
    AllDigits(k) && NatToDecimal(DecimalValue(k)) == k && DecimalValue(k) < 0xFFFF_FFFF
  }

  /** Where a new index key goes: after the leading index keys of smaller value. */
  function IndexSlot(form: seq<(string, string)>, key: string): (i: nat)
    requires IsIndexKey(key)
    ensures i <= |form|
    ensures forall j :: 0 <= j < i ==> IsIndexKey(form[j].0) && DecimalValue(form[j].0) < DecimalValue(key)
    ensures i < |form| ==> !IsIndexKey(form[i].0) || DecimalValue(key) <= DecimalValue(form[i].0)
  {
    if form == [] || !IsIndexKey(form[0].0) || DecimalValue(key) <= DecimalValue(form[0].0) then 0
    else 1 + IndexSlot(form[1..], key)
  }

  /** The order in which an object lists its keys: index keys first, ascending, then the
   *  others (in the order they were created). */
  predicate PropertyOrder(keys: seq<string>) {
    forall i, j :: 0 <= i < j < |keys| ==> ListedBefore(keys[i], keys[j])
  }

  /** `a` may come before `b`: when `b` is an index key, so is `a`, and it is smaller. */
  predicate ListedBefore(a: string, b: string) {
    IsIndexKey(b) ==> IsIndexKey(a) && DecimalValue(a) < DecimalValue(b)
  }

  /** Sets `key` in a JavaScript object literal: a key already present keeps its place and
   *  takes the new value; a new index key goes into its slot among the index keys, and any
   *  other new key goes at the end. */
  function SetField(form: seq<(string, string)>, key: string, value: string): seq<(string, string)> {
    if key in Keys(form) then Replace(form, key, value)
    else
      var i := if IsIndexKey(key) then IndexSlot(form, key) else |form|;
      form[..i] + [(key, value)] + form[i..]
  }

  /** What setting a key does to the object: the keys are the old ones and the new one, an
   *  old key stays in place, a new one goes where its kind puts it, and only `key`'s value
   *  changes. */
  lemma SetFieldSets(form: seq<(string, string)>, key: string, value: string)
    ensures var r := SetField(form, key, value);
            && (key in Keys(form) ==> Keys(r) == Keys(form))
            && (forall k :: k in Keys(r) <==> k in Keys(form) || k == key)
            && (key !in Keys(form) && !IsIndexKey(key) ==> r == form + [(key, value)])
            && (key !in Keys(form) && IsIndexKey(key) ==>
                  r == form[..IndexSlot(form, key)] + [(key, value)] + form[IndexSlot(form, key)..])
            && Lookup(r, key) == Some(value)
            && (forall k :: k != key ==> Lookup(r, k) == Lookup(form, k))
  {
    if key !in Keys(form) {
      var i := if IsIndexKey(key) then IndexSlot(form, key) else |form|;
      LookupInsert(form, i, key, value);
      assert form[..|form|] == form && form[|form|..] == [];
    }
  }

  /** Gives the first entry under `key` the new value, in place. */
  function Replace(form: seq<(string, string)>, key: string, value: string): (r: seq<(string, string)>)
    requires key in Keys(form)
    ensures Keys(r) == Keys(form)
    ensures Lookup(r, key) == Some(value)
    ensures forall k :: k != key ==> Lookup(r, k) == Lookup(form, k)
  {
    if form[0].0 == key then [(key, value)] + form[1..]
    else [form[0]] + Replace(form[1..], key, value)
  }

  function Keys(form: seq<(string, string)>): (ks: seq<string>)
    ensures |ks| == |form|
  {
    if form == [] then [] else [form[0].0] + Keys(form[1..])
  }

  lemma {:induction false} KeysIndex(form: seq<(string, string)>)
    ensures |Keys(form)| == |form| && forall i :: 0 <= i < |form| ==> Keys(form)[i] == form[i].0
  {
    if form != [] {
      KeysIndex(form[1..]);
    }
  }

  /** The value `URLSearchParams` sends for `key`. */
  function Lookup(form: seq<(string, string)>, key: string): Option<string> {
    if form == [] then None
    else if form[0].0 == key then Some(form[0].1)
    else Lookup(form[1..], key)
  }

  lemma {:induction false} KeysAppend(a: seq<(string, string)>, b: seq<(string, string)>)
    ensures Keys(a + b) == Keys(a) + Keys(b)
  {
    if a == [] {
      assert a + b == b;
    } else {
      KeysAppend(a[1..], b);
      assert (a + b)[0] == a[0] && (a + b)[1..] == a[1..] + b;
      calc {
        Keys(a + b);
        [a[0].0] + Keys(a[1..] + b);
        [a[0].0] + (Keys(a[1..]) + Keys(b));
        ([a[0].0] + Keys(a[1..])) + Keys(b);
      }
    }
  }

  lemma {:induction false} LookupAppend(a: seq<(string, string)>, b: seq<(string, string)>, k: string)
    ensures Lookup(a + b, k) == if k in Keys(a) then Lookup(a, k) else Lookup(b, k)
  {
    if a == [] {
      assert a + b == b;
    } else {
      LookupAppend(a[1..], b, k);
      assert (a + b)[0] == a[0] && (a + b)[1..] == a[1..] + b;
    }
  }

  /** A key not yet present, inserted anywhere, is found with its value and hides nothing. */
  lemma LookupInsert(form: seq<(string, string)>, i: nat, key: string, value: string)
    requires i <= |form| && key !in Keys(form)
    ensures var r := form[..i] + [(key, value)] + form[i..];
            && Keys(r) == Keys(form)[..i] + [key] + Keys(form)[i..]
            && Lookup(r, key) == Some(value) && forall k :: k != key ==> Lookup(r, k) == Lookup(form, k)
  {
    KeysIndex(form[..i]);
    assert form == form[..i] + form[i..];
    KeysAppend(form[..i], form[i..]);
    KeysAppend(form[..i], [(key, value)]);
    KeysAppend(form[..i] + [(key, value)], form[i..]);
    assert Keys([(key, value)]) == [key];
    forall k
      ensures Lookup(form[..i] + [(key, value)] + form[i..], k) == if k == key then Some(value) else Lookup(form, k)
    {
      LookupAppend(form[..i], form[i..], k);
      LookupAppend(form[..i], [(key, value)], k);
      LookupAppend(form[..i] + [(key, value)], form[i..], k);
    }
  }

  /** The login payload, `{_token, [emailField]: username, [passwordField]: password,
   *  remember: 'on'}`, built in that order. */
  function LoginPayload(token: string, emailField: string, username: string, passwordField: string, password: string): seq<(string, string)> {
    SetField(SetField(SetField(SetField([], "_token", token), emailField, username), passwordField, password), "remember", "on")
  }

  /** The email field names, then the password field names, the submission looks for. */
  const EmailCandidates: seq<string> := ["email", "username", "user"]
  const PasswordCandidates: seq<string> := ["password", "pass", "pwd"]

  /** `submitLogin`: find the field names, or fail before sending anything; then POST the
   *  payload to the form's action. Any status is accepted, but an error status makes the
   *  logging call `substring` on the body, which throws unless the body is a string or
   *  `null`. */
  function SubmitLoginStep(server: Server, username: string, password: string, s: Session, data: LoginPageData): (Outcome, Session) {
    var emailField := FindFieldName(data.formFields, EmailCandidates);
    var passwordField := FindFieldName(data.formFields, PasswordCandidates);
    if emailField.None? || emailField.value == [] || passwordField.None? || passwordField.value == [] then
      (Fail(SubmissionFailed(NoFieldNames)), s)
    else
      var payload := LoginPayload(s.csrfToken.GetOr("null"), emailField.value, username, passwordField.value, password);
      var (resp, s1) := Exchange(server, s, Post(data.formAction, payload));
      if resp.NoResponse? then (Fail(SubmissionFailed(Network)), s1)
      else if resp.status >= 400 && resp.page.body.Data? then (Fail(SubmissionFailed(BodyNotText)), s1)
      else (Pass, s1)
  }

  /** `verifyAuthentication`: GET `/bookings` and set the flag from the page; when it is
   *  false, fail with the page's first error text ("" when it has none). */
  function VerifyStep(server: Server, s: Session): (Outcome, Session) {
    var (resp, s1) := Exchange(server, s, Get("/bookings"));
    match GetOutcome(resp)
    case Err(e) => (Fail(VerificationFailed(e)), s1)
    case Ok(page) =>
      var ok := LoggedInPage(page);
      var message := FirstText([page.alertText, page.errorText, page.errorClassText]);
      (if ok then Pass else Fail(VerificationFailed(NotVerified(message))), s1.(authenticated := ok))
  }

  /** The three steps in order, stopping at the first that throws. */
  function LoginSteps(server: Server, username: string, password: string, s: Session): (Outcome, Session) {
    var (data, s1) := FetchLoginPageStep(server, s);
    if data.Err? then (Fail(data.error), s1)
    else
      var (o2, s2) := SubmitLoginStep(server, username, password, s1, data.value);
      if o2.Fail? then (o2, s2)
      else VerifyStep(server, s2)
  }

  /** `login`: the steps, and when one throws, the flag cleared before the rethrow. */
  function LoginStep(server: Server, username: string, password: string, s: Session): (Outcome, Session) {
    var (o, s1) := LoginSteps(server, username, password, s);
    if o.Fail? then (o, s1.(authenticated := false)) else (o, s1)
  }

  /** `get`: refuse without a session; otherwise GET `url`, and when the answer is 401 or
   *  403 sign in again and repeat the GET once. */
  function GetStep(server: Server, username: string, password: string, s: Session, url: string): (Result<Page>, Session) {
    if !s.authenticated then (Err(NotAuthenticated), s)
    else
      var (resp, s1) := Exchange(server, s, Get(url));
      match GetOutcome(resp)
      case Ok(page) => (Ok(page), s1)
      case Err(e) =>
        if !Expired(e) then (Err(e), s1)
        else RetryStep(server, username, password, s1, url)
  }

  /** The second half of `get` after a 401 or 403: sign in, then GET `url` once more. */
  function RetryStep(server: Server, username: string, password: string, s: Session, url: string): (Result<Page>, Session) {
    var (o, s1) := LoginStep(server, username, password, s);
    if o.Fail? then (Err(o.error), s1)
    else
      var (retry, s2) := Exchange(server, s1, Get(url));
      (GetOutcome(retry), s2)
  }

  class RevSportAuthenticator {
    const server: Server
    const username: string
    const password: string
    var isAuthenticated: bool
    var csrfToken: Option<string>
    var sent: seq<Request>

    function State(): Session
      reads this
    {
      Session(isAuthenticated, csrfToken, sent)
    }

    constructor(server: Server, username: string, password: string)
      ensures this.server == server && this.username == username && this.password == password
      ensures State() == Session(false, None, [])
    {
      this.server := server;
      this.username := username;
      this.password := password;
      isAuthenticated := false;
      csrfToken := None;
      sent := [];
    }

    method Send(req: Request) returns (resp: Response)
      modifies this
      ensures (resp, State()) == Exchange(server, old(State()), req)
    {
      resp := server(|sent|);
      sent := sent + [req];
    }

    method FetchLoginPage() returns (r: Result<LoginPageData>)
      modifies this
      ensures (r, State()) == FetchLoginPageStep(server, old(State()))
    {
      var resp := Send(Http.Get("/login"));
      var page := GetOutcome(resp);
      if page.Err? {
        return Err(FetchLoginPageFailed(page.error));
      }
      var token := CsrfTokenOf(page.value);
      if token.None? {
        return Err(FetchLoginPageFailed(NoCsrfToken));
      }
      csrfToken := token;
      var formAction := FormActionOf(page.value);
      return Ok(LoginPageData(token.value, formAction, page.value.formFields));
    }

    method SubmitLogin(data: LoginPageData) returns (o: Outcome)
      modifies this
      ensures (o, State()) == SubmitLoginStep(server, username, password, old(State()), data)
    {
      var emailField := FindFieldName(data.formFields, EmailCandidates);
      var passwordField := FindFieldName(data.formFields, PasswordCandidates);
      if emailField.None? || emailField.value == [] || passwordField.None? || passwordField.value == [] {
        return Fail(SubmissionFailed(NoFieldNames));
      }
      var payload := LoginPayload(csrfToken.GetOr("null"), emailField.value, username, passwordField.value, password);
      var resp := Send(Post(data.formAction, payload));
      if resp.NoResponse? {
        return Fail(SubmissionFailed(Network));
      }
      if resp.status >= 400 && resp.page.body.Data? {
        return Fail(SubmissionFailed(BodyNotText));
      }
      return Pass;
    }

    method VerifyAuthentication() returns (o: Outcome)
      modifies this
      ensures (o, State()) == VerifyStep(server, old(State()))
    {
      var resp := Send(Http.Get("/bookings"));
      var page := GetOutcome(resp);
      if page.Err? {
        return Fail(VerificationFailed(page.error));
      }
      isAuthenticated := LoggedInPage(page.value);
      if !isAuthenticated {
        var message := FirstText([page.value.alertText, page.value.errorText, page.value.errorClassText]);
        return Fail(VerificationFailed(NotVerified(message)));
      }
      return Pass;
    }

    method Login() returns (o: Outcome)
      modifies this
      ensures (o, State()) == LoginStep(server, username, password, old(State()))
    {
      var data := FetchLoginPage();
      if data.Err? {
        o := Fail(data.error);
      } else {
        o := SubmitLogin(data.value);
        if o.Pass? {
          o := VerifyAuthentication();
        }
      }
      if o.Fail? {
        isAuthenticated := false;
      }
    }

    method Get(url: string) returns (r: Result<Page>)
      modifies this
      ensures (r, State()) == GetStep(server, username, password, old(State()), url)
    {
      if !isAuthenticated {
        return Err(NotAuthenticated);
      }
      var resp := Send(Http.Get(url));
      r := GetOutcome(resp);
      if r.Err? && Expired(r.error) {
        var o := Login();
        if o.Fail? {
          return Err(o.error);
        }
        resp := Send(Http.Get(url));
        r := GetOutcome(resp);
      }
    }

    method IsLoggedIn() returns (b: bool)
      ensures b == isAuthenticated
    {
      return isAuthenticated;
    }
  }

  /** A fetch that finds no token fails without touching the stored token; one that finds
   *  a token stores it and reports it with the form's action and fields. */
  lemma FetchStoresTokenOnlyOnSuccess(server: Server, s: Session)
    ensures var (r, s') := FetchLoginPageStep(server, s);
            var page := GetOutcome(server(|s.sent|));
            && s'.authenticated == s.authenticated && s'.sent == s.sent + [Get("/login")]
            && (r.Err? ==> s'.csrfToken == s.csrfToken)
            && (r.Ok? ==> page.Ok? && s'.csrfToken == Some(r.value.csrfToken) == CsrfTokenOf(page.value)
                          && r.value.formAction == FormActionOf(page.value)
                          && r.value.formFields == page.value.formFields)
            && (page.Ok? && CsrfTokenOf(page.value).None? ==> r == Err(FetchLoginPageFailed(NoCsrfToken)))
  {
  }

  /** The keys of an object literal are distinct: setting a key adds it once at most. */
  lemma SetFieldKeepsKeysDistinct(form: seq<(string, string)>, key: string, value: string)
    requires forall i, j :: 0 <= i < j < |Keys(form)| ==> Keys(form)[i] != Keys(form)[j]
    ensures var ks := Keys(SetField(form, key, value));
            && (forall i, j :: 0 <= i < j < |ks| ==> ks[i] != ks[j])
            && (forall k :: k in ks <==> k in Keys(form) || k == key)
  {
    SetFieldSets(form, key, value);
    if key !in Keys(form) {
      var i := if IsIndexKey(key) then IndexSlot(form, key) else |form|;
      assert SetField(form, key, value) == form[..i] + [(key, value)] + form[i..] by {
        assert form[..|form|] == form && form[|form|..] == [];
      }
      LookupInsert(form, i, key, value);
      InsertKeepsDistinct(Keys(form), i, key);
    }
  }

  lemma InsertKeepsDistinct(ks: seq<string>, i: nat, key: string)
    requires forall p, q :: 0 <= p < q < |ks| ==> ks[p] != ks[q]
    requires key !in ks && i <= |ks|
    ensures var r := ks[..i] + [key] + ks[i..];
            forall p, q :: 0 <= p < q < |r| ==> r[p] != r[q]
  {
    var r := ks[..i] + [key] + ks[i..];
    assert forall p :: 0 <= p < i ==> r[p] == ks[p];
    assert forall p :: i < p < |r| ==> r[p] == ks[p - 1];
  }

  /** Setting a key keeps the keys in the order an object lists them. */
  lemma SetFieldKeepsOrder(form: seq<(string, string)>, key: string, value: string)
    requires PropertyOrder(Keys(form))
    ensures PropertyOrder(Keys(SetField(form, key, value)))
  {
    SetFieldSets(form, key, value);
    var ks := Keys(form);
    if key !in ks {
      var i := if IsIndexKey(key) then IndexSlot(form, key) else |form|;
      assert SetField(form, key, value) == form[..i] + [(key, value)] + form[i..] by {
        assert form[..|form|] == form && form[|form|..] == [];
      }
      LookupInsert(form, i, key, value);
      KeysIndex(form);
      InsertKeepsOrder(ks, i, key);
    }
  }

  /** Inserting a new key where `SetField` puts it keeps index keys first and ascending. */
  lemma InsertKeepsOrder(ks: seq<string>, i: nat, key: string)
    requires PropertyOrder(ks) && key !in ks && i <= |ks|
    requires !IsIndexKey(key) ==> i == |ks|
    requires IsIndexKey(key) ==> forall j :: 0 <= j < i ==> IsIndexKey(ks[j]) && DecimalValue(ks[j]) < DecimalValue(key)
    requires IsIndexKey(key) && i < |ks| ==> !IsIndexKey(ks[i]) || DecimalValue(key) <= DecimalValue(ks[i])
    ensures PropertyOrder(ks[..i] + [key] + ks[i..])
  {
    var r := ks[..i] + [key] + ks[i..];
    forall p, q | 0 <= p < q < |r|
      ensures ListedBefore(r[p], r[q])
    {
      if p == i {
        assert r[q] == ks[q - 1];
        if IsIndexKey(ks[q - 1]) {
          assert ListedBefore(ks[i], ks[q - 1]) || i == q - 1;
          assert ks[i] != key;
        }
      } else if q == i {
        assert r[p] == ks[p];
      } else if q > i && p < i {
        assert r[p] == ks[p] && r[q] == ks[q - 1] && ListedBefore(ks[p], ks[q - 1]);
      } else if q > i {
        assert r[p] == ks[p - 1] && r[q] == ks[q - 1] && ListedBefore(ks[p - 1], ks[q - 1]);
      } else {
        assert r[p] == ks[p] && r[q] == ks[q] && ListedBefore(ks[p], ks[q]);
      }
    }
  }

  /** The payload has the four keys, each once, in the order they were written; a field
   *  name that repeats an earlier key takes that key's place. */
  lemma PayloadKeys(token: string, emailField: string, username: string, passwordField: string, password: string)
    ensures var ks := Keys(LoginPayload(token, emailField, username, passwordField, password));
            && (forall i, j :: 0 <= i < j < |ks| ==> ks[i] != ks[j])
            && (forall k :: k in ks <==> k in ["_token", emailField, passwordField, "remember"])
  {
    var p1 := SetField([], "_token", token);
    var p2 := SetField(p1, emailField, username);
    var p3 := SetField(p2, passwordField, password);
    SetFieldKeepsKeysDistinct([], "_token", token);
    SetFieldKeepsKeysDistinct(p1, emailField, username);
    SetFieldKeepsKeysDistinct(p2, passwordField, password);
    SetFieldKeepsKeysDistinct(p3, "remember", "on");
  }

  /** Each key sends the value written last under it: a later field with the same name
   *  overwrites an earlier one. */
  lemma PayloadValues(token: string, emailField: string, username: string, passwordField: string, password: string)
    ensures var p := LoginPayload(token, emailField, username, passwordField, password);
            && Lookup(p, "remember") == Some("on")
            && (passwordField != "remember" ==> Lookup(p, passwordField) == Some(password))
            && (emailField != passwordField && emailField != "remember" ==> Lookup(p, emailField) == Some(username))
            && ("_token" != emailField && "_token" != passwordField ==> Lookup(p, "_token") == Some(token))
  {
    var p1 := SetField([], "_token", token);
    SetFieldSets([], "_token", token);
    var p2 := SetField(p1, emailField, username);
    SetFieldSets(p1, emailField, username);
    var p3 := SetField(p2, passwordField, password);
    SetFieldSets(p2, passwordField, password);
    SetFieldSets(p3, "remember", "on");
  }

  /** With four distinct keys, none of them an index key, the payload is exactly the four
   *  pairs, in the order they were written. */
  lemma PayloadInOrder(token: string, emailField: string, username: string, passwordField: string, password: string)
    requires |{"_token", emailField, passwordField, "remember"}| == 4
    requires !IsIndexKey(emailField) && !IsIndexKey(passwordField)
    ensures LoginPayload(token, emailField, username, passwordField, password)
            == [("_token", token), (emailField, username), (passwordField, password), ("remember", "on")]
  {
    NamedKeysAreNotIndexes();
    var p1 := SetField([], "_token", token);
    assert p1 == [("_token", token)];
    var p2 := SetField(p1, emailField, username);
    assert emailField != "_token";
    KeysIndex(p1);
    assert p2 == [("_token", token), (emailField, username)];
    var p3 := SetField(p2, passwordField, password);
    assert passwordField !in {"_token", emailField};
    KeysIndex(p2);
    assert p3 == [("_token", token), (emailField, username), (passwordField, password)];
    KeysIndex(p3);
  }

  /** An email field named like an array index, `"0"` say, is sent first, ahead of the
   *  token. */
  lemma PayloadIndexFieldFirst(token: string, emailField: string, username: string, passwordField: string, password: string)
    requires |{"_token", emailField, passwordField, "remember"}| == 4
    requires IsIndexKey(emailField) && !IsIndexKey(passwordField)
    ensures LoginPayload(token, emailField, username, passwordField, password)
            == [(emailField, username), ("_token", token), (passwordField, password), ("remember", "on")]
  {
    NamedKeysAreNotIndexes();
    var p1 := SetField([], "_token", token);
    assert p1 == [("_token", token)];
    var p2 := SetField(p1, emailField, username);
    assert emailField != "_token";
    KeysIndex(p1);
    assert IndexSlot(p1, emailField) == 0;
    assert p2 == [(emailField, username), ("_token", token)];
    var p3 := SetField(p2, passwordField, password);
    assert passwordField !in {"_token", emailField};
    KeysIndex(p2);
    assert p3 == [(emailField, username), ("_token", token), (passwordField, password)];
    KeysIndex(p3);
  }

  /** Whatever the field names, the payload lists its keys as an object does. */
  lemma PayloadOrder(token: string, emailField: string, username: string, passwordField: string, password: string)
    ensures PropertyOrder(Keys(LoginPayload(token, emailField, username, passwordField, password)))
  {
    var p1 := SetField([], "_token", token);
    var p2 := SetField(p1, emailField, username);
    var p3 := SetField(p2, passwordField, password);
    SetFieldKeepsOrder([], "_token", token);
    SetFieldKeepsOrder(p1, emailField, username);
    SetFieldKeepsOrder(p2, passwordField, password);
    SetFieldKeepsOrder(p3, "remember", "on");
  }

  lemma NamedKeysAreNotIndexes()
    ensures !IsIndexKey("_token") && !IsIndexKey("remember")
  {
    assert !IsDigit("_token"[0]) && !IsDigit("remember"[0]);
  }

  /** Submission fails before any request when either field name is missing or empty;
   *  otherwise it POSTs the payload to the form's action, and fails only when there is no
   *  response or when a status of 400 or more comes with a body that is not text; the
   *  cookies play no part. */
  lemma SubmitStatusRule(server: Server, username: string, password: string, s: Session, data: LoginPageData)
    ensures var (o, s') := SubmitLoginStep(server, username, password, s, data);
            var emailField := FindFieldName(data.formFields, EmailCandidates);
            var passwordField := FindFieldName(data.formFields, PasswordCandidates);
            var named := emailField.Some? && emailField.value != [] && passwordField.Some? && passwordField.value != [];
            && s'.authenticated == s.authenticated && s'.csrfToken == s.csrfToken
            && (!named ==> o == Fail(SubmissionFailed(NoFieldNames)) && s' == s)
            && (named ==>
                  && s'.sent == s.sent + [Post(data.formAction,
                        LoginPayload(s.csrfToken.GetOr("null"), emailField.value, username, passwordField.value, password))]
                  && (o.Pass? <==> server(|s.sent|).Reply? && !(server(|s.sent|).status >= 400 && server(|s.sent|).page.body.Data?))
                  && (server(|s.sent|).NoResponse? ==> o == Fail(SubmissionFailed(Network)))
                  && (server(|s.sent|).Reply? && o.Fail? ==> o == Fail(SubmissionFailed(BodyNotText))))
  {
  }

  /** Verification sets the flag to what the page shows and fails exactly when it is
   *  false, with the page's first error text; a GET that fails leaves the flag alone. */
  lemma VerifySetsFlag(server: Server, s: Session)
    ensures var (o, s') := VerifyStep(server, s);
            var r := GetOutcome(server(|s.sent|));
            && s'.sent == s.sent + [Get("/bookings")] && s'.csrfToken == s.csrfToken
            && (r.Ok? ==> s'.authenticated == LoggedInPage(r.value) && (o.Pass? <==> s'.authenticated))
            && (r.Ok? && o.Fail? ==> o.error == VerificationFailed(NotVerified(FirstText([r.value.alertText, r.value.errorText, r.value.errorClassText]))))
            && (r.Err? ==> s'.authenticated == s.authenticated && o == Fail(VerificationFailed(r.error)))
  {
  }

  /** After `login` the session is signed in exactly when the login succeeded. */
  lemma LoginResetsOnFailure(server: Server, username: string, password: string, s: Session)
    ensures var (o, s') := LoginStep(server, username, password, s);
            s'.authenticated <==> o.Pass?
  {
    var (data, s1) := FetchLoginPageStep(server, s);
    if data.Ok? {
      var (o2, s2) := SubmitLoginStep(server, username, password, s1, data.value);
      if o2.Pass? {
        VerifySetsFlag(server, s2);
      }
    }
  }

  /** Submission sends at most one request, a POST, and sends it whenever it succeeds. */
  lemma SubmitSendsAtMostOnePost(server: Server, username: string, password: string, s: Session, data: LoginPageData)
    ensures var (o, s') := SubmitLoginStep(server, username, password, s, data);
            && s'.authenticated == s.authenticated && s'.csrfToken == s.csrfToken
            && (s'.sent == s.sent || (|s'.sent| == |s.sent| + 1 && s'.sent == s.sent + [s'.sent[|s.sent|]] && s'.sent[|s.sent|].Post?))
            && (o.Pass? ==> |s'.sent| == |s.sent| + 1)
  {
    SubmitStatusRule(server, username, password, s, data);
  }

  /** Login sends GET `/login`, then (when it found the field names) a POST to the form's
   *  action, then GET `/bookings`, stopping at the first step that fails. */
  lemma LoginOrder(server: Server, username: string, password: string, s: Session)
    ensures var (o, s') := LoginStep(server, username, password, s);
            var n := |s.sent|;
            && n < |s'.sent| <= n + 3
            && (|s'.sent| == n + 1 ==> s'.sent == s.sent + [Get("/login")])
            && (|s'.sent| == n + 2 ==> s'.sent == s.sent + [Get("/login"), s'.sent[n + 1]] && s'.sent[n + 1].Post?)
            && (|s'.sent| == n + 3 ==>
                  s'.sent == s.sent + [Get("/login"), s'.sent[n + 1], Get("/bookings")] && s'.sent[n + 1].Post?)
    ensures var (o, s') := LoginStep(server, username, password, s);
            var n := |s.sent|;
            && (o.Fail? && o.error.FetchLoginPageFailed? ==> |s'.sent| == n + 1)
            && (o.Pass? ==> |s'.sent| == n + 3 && s'.csrfToken.Some?)
  {
    var n := |s.sent|;
    FetchStoresTokenOnlyOnSuccess(server, s);
    var (data, s1) := FetchLoginPageStep(server, s);
    if data.Err? {
      assert LoginStep(server, username, password, s) == (Fail(data.error), s1.(authenticated := false));
    } else {
      SubmitSendsAtMostOnePost(server, username, password, s1, data.value);
      var (o2, s2) := SubmitLoginStep(server, username, password, s1, data.value);
      if s2.sent != s1.sent {
        SnocTwice(s.sent, Get("/login"), s2.sent[n + 1]);
      }
      if o2.Fail? {
        assert LoginStep(server, username, password, s) == (o2, s2.(authenticated := false));
      } else {
        VerifySetsFlag(server, s2);
        var (o3, s3) := VerifyStep(server, s2);
        SnocThrice(s.sent, Get("/login"), s2.sent[n + 1], Get("/bookings"));
        assert LoginSteps(server, username, password, s) == (o3, s3);
      }
    }
  }

  lemma SnocTwice(a: seq<Request>, x: Request, y: Request)
    ensures (a + [x]) + [y] == a + [x, y]
  {
  }

  lemma SnocThrice(a: seq<Request>, x: Request, y: Request, z: Request)
    ensures (a + [x, y]) + [z] == a + [x, y, z]
  {
  }

  /** A signed-out `get` sends nothing and throws. A signed-in `get` sends the GET first;
   *  any failure but a 401 or 403 is rethrown at once. After a 401 or 403 what follows is
   *  one `RetryStep` (which repeats the GET, as the fifth request, only after a login that
   *  succeeded, and returns the answer to that repeat), and the session ends signed in
   *  exactly when all five requests were sent. */
  lemma GetRetriesOnce(server: Server, username: string, password: string, s: Session, url: string)
    ensures var (r, s') := GetStep(server, username, password, s, url);
            var n := |s.sent|;
            var first := GetOutcome(server(n));
            && (!s.authenticated ==> r == Err(NotAuthenticated) && s' == s)
            && (s.authenticated ==>
                  && n < |s'.sent| <= n + 5 && s'.sent[..n] == s.sent && s'.sent[n] == Get(url)
                  && (first.Ok? || !Expired(first.error) ==> r == first && s' == s.(sent := s.sent + [Get(url)]))
                  && (first.Err? && Expired(first.error) ==>
                        && (r, s') == RetryStep(server, username, password, s.(sent := s.sent + [Get(url)]), url)
                        && (s'.authenticated <==> |s'.sent| == n + 5))
                  && (r.Ok? ==> s'.authenticated))
  {
    if s.authenticated {
      var (resp, s1) := Exchange(server, s, Get(url));
      var first := GetOutcome(resp);
      if first.Err? && Expired(first.error) {
        RetryAfterLogin(server, username, password, s1, url);
        assert GetStep(server, username, password, s, url) == RetryStep(server, username, password, s1, url);
        var s' := RetryStep(server, username, password, s1, url).1;
        var (o, s2) := LoginStep(server, username, password, s1);
        var n := |s.sent|;
        assert s'.sent[..n + 1] == s1.sent;
        assert s'.sent[n] == s'.sent[..n + 1][n] == Get(url);
        assert s'.sent[..n] == s'.sent[..n + 1][..n] == s.sent;

      } else {
        assert GetStep(server, username, password, s, url) == (first, s1);
      }
    }
  }

  /** The retry signs in, then repeats the GET only when the sign-in succeeded, and returns
   *  the answer to that repeat; a failed sign-in is rethrown, signed out. */
  lemma RetryAfterLogin(server: Server, username: string, password: string, s: Session, url: string)
    ensures var (r, s') := RetryStep(server, username, password, s, url);
            var (o, s1) := LoginStep(server, username, password, s);
            && |s.sent| < |s'.sent| <= |s.sent| + 4 && s'.sent[..|s.sent|] == s.sent
            && (o.Fail? ==> r == Err(o.error) && s' == s1 && !s'.authenticated && |s'.sent| <= |s.sent| + 3)
            && (o.Pass? ==> s'.sent == s1.sent + [Get(url)] && |s'.sent| == |s.sent| + 4 && s'.authenticated
                            && r == GetOutcome(server(|s1.sent|)))
  {
    LoginOrder(server, username, password, s);
    LoginResetsOnFailure(server, username, password, s);
    var (o, s1) := LoginStep(server, username, password, s);
    if o.Pass? {
      var s2 := s1.(sent := s1.sent + [Get(url)]);
      assert s2.sent[..|s.sent|] == s.sent by {
        assert s2.sent[..|s1.sent|] == s1.sent;
      }
    }
  }
}
