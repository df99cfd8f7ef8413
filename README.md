# BoatBookingsCalendar: the scrape-and-parse pipeline and the session authenticator

BoatBookingsCalendar signs in to a rowing club's RevSport booking portal and reads two
kinds of page. It reads the boat list, where each card has a free-text boat name and a
calendar link. It also reads each boat's week calendar, where each event holds a time range
and "Booked by <member>". This model covers the logic that turns those pages into data, and
the logic that keeps the session alive:

- **Boat names** (`BoatNames`). `parseBoatName` splits a name such as
  "2X RACER - Swift double/pair 70 KG (Ian Krix)" into:
  - a type (a case-sensitive `1X`/`2X`/`4X`/`8X` prefix);
  - a classification (`R` if "racer" appears anywhere, else `RT` if "RT" is a word of its own, else `T`);
  - a weight (the digits of the first `<digits> KG`);
  - a nickname (the trimmed inside of the first non-empty parenthesised group);
  - a display name (five cleanups, each removing its leftmost match only, then whitespace collapsed and trimmed).

  The TypeScript asset service and the JavaScript boat scraper hold the same function, so one
  model serves both. Every regular expression is a matcher in `Patterns`. `Search` finds the
  leftmost match, because none of the expressions is global.
- **Boat cards** (`Assets`, `BoatScraping`). `AssetService.parseAssets` loops over the cards
  and pushes one asset per card. It skips a card with an empty trimmed name, no numeric
  `/calendar/<id>`, or an asset the schema rejects. `BoatScraper.parseBoatData` does the same
  into its `boats` field, which it empties first.
- **Calendar** (`Calendar`). `parseCalendarHTML` walks the dated columns of the week grid, and
  the events of each column, keeping each event with a time range and a member name. The
  class `CalendarScraper` signs in once and fetches every boat's calendar. A failing boat is
  only logged, and each successful boat is stored under its id. `generateCalendarData` lists
  the week from its Sunday and counts the stored bookings. `formatDate` writes `YYYY-MM-DD`.
- **Authenticators** (`Http`, `Auth`, `RevSportAuth`). These are the TypeScript
  `AuthService` and its JavaScript prototype `RevSportAuthenticator`. Each is a class over
  `isAuthenticated` and `csrfToken`, and each sends its requests to a server oracle: the
  answer to the n-th request is `server(n)`, giving the status, the page as its selectors see
  it, and the number of cookies in the jar. Every request sent is logged in the session, so
  the order of a login and the single retry of `get` can be stated.

Each stateful operation is a method whose `ensures` equates its result and new state with a
step function of the old state (`LoginStep`, `GetStep`, `ScrapeAllStep`, ...). Lemmas then
state what the steps promise. Loops that build lists (`ParseAssets`, `ParseBoatData`,
`ParseCalendarHtml`, `ParseColumn`) are proved equal to a function of the input
(`AssetsFrom`, `BoatsFrom`, `GridBookings`, built on `FilterMap` and `Concat`), and the order
and count properties are proved about those functions.

The two `get` methods differ after a 401 or 403. The TypeScript `get` clears the session
flag before it signs in again (src/client/auth.ts:214). The JavaScript `get` does not
(auth/revsport-auth.js:299-304): the flag is cleared only when that login fails
(auth/revsport-auth.js:279-283). The model follows each file's code.

The two `submitLogin` methods also differ on a response with a status of 400 or more. The
TypeScript one fails when no cookie was set, with the page's error text if the body is a
string, and otherwise with the status. The JavaScript one ignores cookies and error texts.
Its only failure is a body that is neither a string nor `null`, such as parsed JSON: it
logs `body.substring(0, 500)`, and that throws. A response body is therefore one of three
kinds in the model: text, nothing, or other data.

## Model

| member | source | states |
|---|---|---|
| BoatNames.TypeOf | src/services/assetService.ts:106-107 | the type is not `Unknown` exactly when the name starts with `1`, `2`, `4` or `8` followed by an upper-case `X`; then its label is those two characters |
| BoatNames.ClassificationOf | src/services/assetService.ts:110-112 | `R` iff "racer" occurs anywhere in any case; `RT` iff no "racer" and "rt" stands as a word; `T` iff neither, so RACER takes precedence over RT |
| BoatNames.WeightOf | src/services/assetService.ts:115-116 | a weight, when there is one, is a non-empty run of digits |
| BoatNames.WeightIsFirstReading | src/services/assetService.ts:115-116 | there is a weight exactly when some place reads digits, optional whitespace, `KG` in any case; the weight is the digits of the leftmost such place |
| BoatNames.NicknameOf | src/services/assetService.ts:119-120 | the nickname has no whitespace at either end and contains no `)`; where the nickname pattern matches, it is the trimmed text strictly inside the match |
| BoatNames.NicknameIsFirstGroup | src/services/assetService.ts:119-120 | with no parenthesised group holding at least one character the nickname is `''`; otherwise it is the trimmed inside of the leftmost such group |
| BoatNames.DisplayNameOf | src/services/assetService.ts:123-130 | the display name is the words (maximal runs of non-whitespace) left by the five first-match cleanups, in order, joined by single spaces; so it has no whitespace at either end, only single plain spaces inside, and the same non-space characters in order |
| Text.CollapseTrimJoinsWords | src/services/assetService.ts:129-130 | `.replace(/\s+/g, ' ').trim()` gives the words of the text joined by single spaces |
| Text.CollapseKeepsWords | src/services/assetService.ts:129 | turning each run of whitespace into one space keeps the words and their order |
| Text.TrimKeepsWords | src/services/assetService.ts:130 | trimming keeps the words and their order |
| Text.JoinedWordsOfSpaced | src/services/assetService.ts:129-130 | a text with no whitespace at either end and only single spaces inside is its own words joined by single spaces |
| BoatNames.TypeStrippingIgnoresCase | scraper/boat-scraper.js:136-151 | a name starting with a type digit and a lower-case `x` has type `Unknown`, yet the type cleanup still removes that prefix and its separator |
| Patterns.Search | src/services/assetService.ts:106-120 | the span found is a match, and no match starts between the search start and it; nothing is found only when no position matches |
| Patterns.WeightReadingIsUnique | src/services/assetService.ts:115-116 | the weight pattern matches at a position exactly when some reading of it fits there, and every reading captures the whole digit run |
| Patterns.TimeRangeCapturesClocks | scraper/calendar-scraper.js:133-140 | both captures of a time range are one or two digits, a colon and two digits |
| Assets.CalendarIdOf | src/services/assetService.ts:53-54 | a calendar id, when there is one, is a non-empty run of digits |
| Assets.CalendarIdIsFirst | src/services/assetService.ts:53-54 | there is an id exactly when some "/calendar/" is followed by a digit; the id is the digit run after the first such "/calendar/" |
| Assets.CardToAssetFields | src/services/assetService.ts:44-74 | a card is skipped exactly when its trimmed name is empty or its link (`''` if absent) has no id; otherwise the asset has that id, the href as calendar URL, `"/bookings/" + id` as booking URL, and the details of its trimmed name |
| Assets.AssetsInCardOrder | src/services/assetService.ts:39-86 | at most one asset per card; the assets come from strictly increasing card positions, and every card that yields an accepted asset contributes it |
| Assets.ParseAssets | src/services/assetService.ts:35-89 | the card loop returns exactly the accepted assets of the cards, in card order |
| BoatScraping.BoatScraper.constructor | scraper/boat-scraper.js:23 | a new scraper holds no boats |
| BoatScraping.BoatScraper.ParseBoatData | scraper/boat-scraper.js:68-125 | afterwards `boats` is the boats of the given cards, whatever it held before, so parsing the same page twice leaves the same list |
| BoatScraping.SkippedCardLeavesBoats | scraper/boat-scraper.js:78-112 | a card with no name or no id leaves the list unchanged; any other card appends exactly its boat |
| Calendar.ParseCalendarHtml | scraper/calendar-scraper.js:102-173 | the bookings returned are those of the grid: column by column, then harness by harness, with undated columns skipped |
| Calendar.ParseColumn | scraper/calendar-scraper.js:116-169 | the inner loop keeps, in order, the booking of every harness that yields one |
| Calendar.HarnessBookingFields | scraper/calendar-scraper.js:119-160 | a harness yields a booking exactly when it has an event, its trimmed time text holds a time range, and its title leaves a member name; the booking carries the column date, the boat id, the two captures of the leftmost range, and that name |
| Calendar.TimesInLeftmost | scraper/calendar-scraper.js:133-140 | times are read exactly when the text holds a time range; they are the captures of the leftmost one, and both are clock readings |
| Calendar.MemberNameStripsPrefix | scraper/calendar-scraper.js:144-145 | the member name has no whitespace at either end; a trimmed title starting with "booked by" in any case gives its trimmed rest, and any other title gives itself trimmed |
| Calendar.GridBookingsAppend | scraper/calendar-scraper.js:107-170 | the bookings of two grids side by side are the first grid's followed by the second's |
| Calendar.GridBookingsBound | scraper/calendar-scraper.js:107-172 | a grid yields no more bookings than it has harnesses |
| Calendar.GridBookingsOrigin | scraper/calendar-scraper.js:107-160 | every booking comes from a harness of a dated column and carries its date, the boat id, two clock readings and a non-empty trimmed member name |
| Calendar.BookingShape | scraper/calendar-scraper.js:139-158 | a yielded booking has the column date, the boat id, two clock readings and a non-empty trimmed member name |
| Calendar.PadStart2 | scraper/calendar-scraper.js:278-279 | text of two or more characters is unchanged; shorter text is left-padded with `0` to exactly two |
| Calendar.FormatDateShape | scraper/calendar-scraper.js:276-281 | for a year from 0 on, a formatted date is the year's numeral, `-`, two digits worth the 1-based month, `-`, two digits worth the day |
| Calendar.FormatDateRoundTrip | scraper/calendar-scraper.js:276-281 | reading a formatted valid date back gives the same year, month and day |
| Calendar.WeekDays | scraper/calendar-scraper.js:184-189 | the loop lists exactly seven days, entry `i` being the label of day `i` |
| Calendar.KeysOf | scraper/calendar-scraper.js:197 | the keys come out each exactly once, covering the dictionary |
| Calendar.CalendarScraper.GenerateCalendarData | scraper/calendar-scraper.js:178-203 | for a clock whose zero-day `setDate` keeps the moment: seven days from the week's Sunday, the first equal to `weekStart`; `weekEnd` is six days of milliseconds later, and equals the last day when six calendar days are six days of milliseconds; `boats` is the dictionary's values in some key order; `totalBookings` is the number of their bookings |
| Calendar.ValuesAlongTotal | scraper/calendar-scraper.js:198 | summing booking counts over the values taken in a key order equals summing the count stored under each key |
| Calendar.TotalIsOrderFree | scraper/calendar-scraper.js:197-198 | every order of visiting the dictionary gives the same `totalBookings` |
| Calendar.CalendarScraper.constructor | scraper/calendar-scraper.js:15-26 | a new scraper holds the boats, a signed-out authenticator with no token and no requests, and an empty dictionary |
| Calendar.CalendarScraper.ScrapeBoatCalendar | scraper/calendar-scraper.js:75-97 | the outcome, the authenticator's session and the dictionary afterwards are those of `ScrapeBoatStep` |
| Calendar.CalendarScraper.ScrapeAllCalendars | scraper/calendar-scraper.js:41-70 | the outcome, the session and the dictionary afterwards are those of `ScrapeAllStep`: sign in once, then one `ScrapeBoatStep` per boat |
| Calendar.ScrapeBoatStores | scraper/calendar-scraper.js:75-97 | a boat fails exactly when its GET fails, and then the dictionary is unchanged; otherwise only its id is added or replaced, holding its id, names and the page's bookings |
| Calendar.ScrapeLoopEntries | scraper/calendar-scraper.js:50-61 | the loop never drops a key; each entry is either untouched or belongs to a boat, with that boat's id and names and bookings that all carry its id |
| Calendar.ScrapeLoopAddsPassed | scraper/calendar-scraper.js:50-61 | a failing boat adds nothing: every id the loop adds to the dictionary is that of a boat whose own step succeeded |
| Calendar.ScrapeLoopKeepsLastPass | scraper/calendar-scraper.js:50-61 | a failing boat does not end the loop: each boat whose step succeeded keeps, after the whole loop, the entry that step wrote, unless a later boat has the same id |
| Calendar.StepEffect | scraper/calendar-scraper.js:75-97 | inside the loop, a failing step leaves the dictionary as the earlier boats left it, and a passing one sets the boat's id and keeps every other entry |
| Calendar.RecordKeepsLastPass | scraper/calendar-scraper.js:50-61 | in any run of such steps, the entry a passing step writes survives every later step whose id differs |
| Calendar.LoginFailureStopsScrape | scraper/calendar-scraper.js:46-69 | when the login fails, the run rethrows its error, leaves the dictionary unchanged and signed out, and requests no calendar page |
| Calendar.LoginRequestsNoCalendar | auth/revsport-auth.js:258-284 | a login only appends requests, and none of them is a calendar GET |
| Calendar.CalendarPathIsCalendarRequest | scraper/calendar-scraper.js:78 | each boat's page is fetched with a GET of `/bookings/calendar/<id>` |
| Http.GetOutcome | src/client/auth.ts:30 | a GET resolves exactly on a status from 200 to 399, with the page; any other status fails with that status, and no response fails as a network error |
| Http.CsrfTokenOf | src/client/auth.ts:90-94 | the token is the `_token` input, else the `csrf-token` meta, else the `X-CSRF-TOKEN` meta, whichever is first non-empty; there is none exactly when all three are empty |
| Http.FirstNonEmptyIsFirst | auth/revsport-auth.js:236-238 | the text chosen is empty only when all are, and otherwise is the first non-empty one |
| Auth.AuthService.constructor | src/client/auth.ts:16-17 | a new service is signed out, with no token and no requests sent |
| Auth.AuthService.FetchLoginPage | src/client/auth.ts:82-107 | the outcome and new session are those of `FetchLoginPageStep` |
| Auth.AuthService.SubmitLogin | src/client/auth.ts:112-165 | the outcome and new session are those of `SubmitLoginStep` |
| Auth.AuthService.VerifyAuthentication | src/client/auth.ts:170-197 | the outcome and new session are those of `VerifyStep` |
| Auth.AuthService.Login | src/client/auth.ts:45-60 | the outcome and new session are those of `LoginStep` |
| Auth.AuthService.Get | src/client/auth.ts:202-222 | the result and new session are those of `GetStep` |
| Auth.AuthService.GetClient | src/client/auth.ts:65-70 | succeeds exactly when signed in, and otherwise fails as not authenticated |
| Auth.AuthService.IsLoggedIn | src/client/auth.ts:75-77 | returns the session flag |
| Auth.FetchKeepsFlag | src/client/auth.ts:82-107 | fetching sends GET `/login` and keeps the flag; on a page it stores the page's token, or `null`, and fails exactly when there is none; a failed GET leaves the token alone |
| Auth.Rejection | src/client/auth.ts:146-158 | for a text body, the trimmed `.alert-danger` text if non-empty, else the trimmed `.error` text if non-empty, else the status; for any other body (`null` included) a failure carrying the status |
| Auth.SubmitRule | src/client/auth.ts:112-165 | the POST goes to `/login` with `_token`, `username`, `password`, `remember=on`; it fails exactly when there is no response, or the status is 400 or more and no cookie is set; no response fails as a network error, and a rejected reply fails with the reason `Rejection` gives |
| Auth.VerifySetsFlag | src/client/auth.ts:170-197 | verification sends GET `/bookings`, sets the flag to "logout shown and no login form", and fails exactly when it is false; a failed GET leaves the flag alone |
| Auth.LoginOrder | src/client/auth.ts:45-60 | login sends GET `/login`, then POST `/login`, then GET `/bookings`, stopping at the first failing step; it succeeds only after all three, signed in and holding a token |
| Auth.GetRetriesOnce | src/client/auth.ts:202-222 | signed out, nothing is sent and the call fails; signed in, the GET goes first; any answer other than 401/403 is returned as is, leaving the session alone; after 401/403 the flag is cleared and GET `/login`, POST `/login`, GET `/bookings` follow, stopping at the first failure; the session ends signed in exactly when the GET was repeated, which happens only after a successful login, as the fifth and last request, whose answer is returned; a page returned leaves the session signed in |
| Auth.RetryAfterLogin | src/client/auth.ts:212-219 | the retry clears the flag and sends GET `/login`, POST `/login`, GET `/bookings`, stopping at the first failing step; a failed login is rethrown, signed out; after a successful one the GET is repeated once and its answer returned, signed in |
| Auth.LoginFromSignedOut | src/client/auth.ts:45-60 | a login that starts signed out ends signed in exactly when it succeeds |
| RevSportAuth.FormActionOf | auth/revsport-auth.js:90-92 | the action of a `POST` form, else of a `post` form, else `/login`; never empty |
| RevSportAuth.FindFieldNameIsFirstMatch | auth/revsport-auth.js:313-328 | there is no name exactly when no field's lower-cased name, id or placeholder contains a candidate; otherwise it is the name of the first such field in form order |
| RevSportAuth.SetFieldSets | auth/revsport-auth.js:144-149 | setting a key keeps an existing key in place with the new value; a new array-index key goes after the index keys of smaller value, any other new key at the end; the keys are the old ones and the new one, and every other key keeps its value |
| RevSportAuth.SetFieldKeepsOrder | auth/revsport-auth.js:144-149 | setting a key keeps the keys in an object's order: index keys first, ascending, then the rest |
| RevSportAuth.PayloadOrder | auth/revsport-auth.js:144-149 | whatever the field names, the payload's keys are in an object's order |
| RevSportAuth.PayloadKeys | auth/revsport-auth.js:144-149 | the payload's keys are distinct, and they are exactly `_token`, the email field, the password field and `remember` |
| RevSportAuth.PayloadValues | auth/revsport-auth.js:144-149 | `remember` is `on`, and each other key sends the value written last under it |
| RevSportAuth.PayloadInOrder | auth/revsport-auth.js:144-149 | with four distinct keys, neither field name an array index, the payload is exactly the four pairs in the order written |
| RevSportAuth.PayloadIndexFieldFirst | auth/revsport-auth.js:144-149 | an email field named like an array index (such as `0`) is sent first, ahead of `_token` |
| RevSportAuth.FetchStoresTokenOnlyOnSuccess | auth/revsport-auth.js:59-121 | a fetch that finds no token fails without touching the stored token; one that finds a token stores it and returns it with the form action and fields |
| RevSportAuth.SubmitStatusRule | auth/revsport-auth.js:126-199 | with a field name missing the submission fails and sends nothing; otherwise it POSTs the payload to the form action and fails exactly when there is no response (a network failure) or the status is 400 or more with a body that is neither text nor `null` (the throw of `substring`); cookies play no part |
| RevSportAuth.SubmitSendsAtMostOnePost | auth/revsport-auth.js:126-199 | submission sends at most one request, a POST, and sends it whenever it succeeds |
| RevSportAuth.VerifySetsFlag | auth/revsport-auth.js:204-253 | verification sets the flag to "logout shown and no login form" and fails exactly when it is false, reporting the page's first error text; the welcome text plays no part |
| RevSportAuth.LoginResetsOnFailure | auth/revsport-auth.js:258-284 | after `login` the session is signed in exactly when the login succeeded |
| RevSportAuth.LoginOrder | auth/revsport-auth.js:258-284 | login sends GET `/login`, then a POST, then GET `/bookings`, stopping at the first failing step; success needs all three and leaves a token |
| RevSportAuth.GetRetriesOnce | auth/revsport-auth.js:289-308 | signed out, nothing is sent and the call fails; signed in, the GET goes first; any answer other than 401/403 is returned as is; after 401/403 comes one retry step, and the session ends signed in exactly when all five requests were sent; a page returned leaves the session signed in |
| RevSportAuth.RetryAfterLogin | auth/revsport-auth.js:299-304 | the retry logs in; if the login fails it rethrows, signed out, after at most three requests; otherwise it repeats the GET exactly once, as the fourth request, and returns the answer to it, signed in |
| RevSportAuth.RevSportAuthenticator.constructor | auth/revsport-auth.js:14-42 | a new authenticator is signed out, with no token and no requests sent |
| RevSportAuth.RevSportAuthenticator.FetchLoginPage | auth/revsport-auth.js:59-121 | the result and new session are those of `FetchLoginPageStep` |
| RevSportAuth.RevSportAuthenticator.SubmitLogin | auth/revsport-auth.js:126-199 | the outcome and new session are those of `SubmitLoginStep` |
| RevSportAuth.RevSportAuthenticator.VerifyAuthentication | auth/revsport-auth.js:204-253 | the outcome and new session are those of `VerifyStep` |
| RevSportAuth.RevSportAuthenticator.Login | auth/revsport-auth.js:258-284 | the outcome and new session are those of `LoginStep` |
| RevSportAuth.RevSportAuthenticator.Get | auth/revsport-auth.js:289-308 | the result and new session are those of `GetStep` |
| RevSportAuth.RevSportAuthenticator.IsLoggedIn | auth/revsport-auth.js:347-349 | returns the session flag |

## Left out

- HTML parsing. Pages are given by what their selectors find: a card's name text and
  calendar link, a column's `data-date` and its harnesses, a page's token fields, form action,
  form fields, logout and login markers and error texts. Cheerio is not modelled. The body of
  a response is known only by its kind (text, nothing, other data); the text the TypeScript
  `submitLogin` puts after "Login failed with status N:" is not modelled.
- HTTP, cookies and redirects. The server is an oracle from the request's position to its
  response. The cookie count is part of the response. Headers, the cookie jar and axios are
  not modelled.
- `AssetSchema` is not part of this model. `ParseAssets` takes a predicate `valid`, which
  stands for a parse that either returns the asset unchanged or throws. A throw skips the card.
- Logging, `delay`, `new Date().toISOString()`/`toLocaleString` (the `generatedAt` fields and
  `notes`), file saving and backups, `fetchAssets`, `scrapeBoats`, and the command-line `main`
  functions.
- The per-harness and per-card `try/catch`. No step the model includes can throw, so they have
  nothing to catch.
- Calendar.CalendarScraper.GenerateCalendarData: the clock and time zone are a parameter.
  The one property of `Date` the method relies on, that `setDate(getDate() + 0)` keeps the
  moment, is its precondition `ValidClock`.
  `weekEnd` adds six days of milliseconds, `days` adds calendar days, and the two agree only
  when no daylight-saving change falls in the week, so `days[6] == weekEnd` is proved only
  under that condition.
- Calendar.CalendarScraper.GenerateCalendarData: `boats` is stated for some order of the
  dictionary's keys. JavaScript lists integer-like keys, which boat ids are, in ascending
  numeric order; the model does not pin that order, and proves instead that `totalBookings`
  does not depend on it.
- Calendar.FormatDateRoundTrip: proved for valid dates of years from 0 on. A negative year
  would be written with a leading `-`, which the reading back does not accept.
- BoatNames: the two name examples in the source's doc comments ("2X RACER - Swift
  double/pair 70 KG (Ian Krix)" and "4X - Ausrowtec coxed quad/four 90 KG Hunter") are not
  proved as concrete lemmas. Evaluating the scanners on those literals is beyond the
  verifier's budget. Each rule they illustrate is proved for all names by the members above;
  that the words keep their single spaces ("Swift double/pair") is `DisplayNameOf`'s
  statement that the display name is the remaining words joined by single spaces.
- RevSportAuth.FindFieldNameIsFirstMatch: a field that matches by id or placeholder and has
  no `name` gives `undefined` in the source. The model gives `""`, and a submission with that
  name fails, as `!emailField` does.
- RevSportAuth.VerifySetsFlag: the error text is the first non-empty of the three selectors'
  trimmed texts. The message prefixes added by each `catch` are the `Failure` wrappers rather
  than strings.
- Auth.AuthService.Login: the TypeScript `login` does not clear the flag when a step fails,
  and the model keeps that. Only the JavaScript `login` clears it.
- Auth.FetchKeepsFlag: the TypeScript `fetchLoginPage` stores `null` as the token before
  throwing when none is found. The model keeps that, and the JavaScript version keeps the old
  token.
- Auth.AuthService.GetClient: the client object is not modelled; success stands for the
  client returned.
- The display (`public/js/tv-display.js`), the server and its routes, the booking cache, the
  logger and the investigation scripts are outside this model.
