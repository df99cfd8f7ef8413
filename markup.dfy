/** What the scrapers' CSS selectors find on a page. HTML parsing is not modelled: a page
 *  is given as the results of the selectors the code runs on it. An attribute that is
 *  missing and one that is empty are both falsy to the code, and both appear here as `""`. */
module Markup {
  import opened Options

  /** One `.card.card-hover` on the bookings page. */
  datatype Card = Card(
    nameText: string,                 // text of the first `.mr-3`, untrimmed ("" if none)
    calendarHref: Option<string>)     // `href` of the first link whose href holds "/bookings/calendar/"

  /** One `.fc-timegrid-event-harness` of a calendar column. */
  datatype Harness = Harness(
    hasEvent: bool,        // it holds a `.fc-timegrid-event`
    timeText: string,      // text of its `.fc-event-time`, untrimmed
    titleText: string)     // text of its `.fc-event-title`, untrimmed

  /** One `td.fc-timegrid-col[data-date]` of the week grid. */
  datatype Column = Column(dataDate: string, harnesses: seq<Harness>)

  /** One `form input` of the login page. */
  datatype FormField = FormField(name: string, id: string, placeholder: string)

  /** The response body as the client library hands it over: a string, nothing (`null` or
   *  `undefined`), or some other value, such as parsed JSON. */
  datatype Body = Text | Nothing | Data

  datatype Page = Page(
    body: Body,
    tokenInput: string,           // value of `input[name="_token"]`
    csrfMeta: string,             // content of `meta[name="csrf-token"]`
    xCsrfMeta: string,            // content of `meta[name="X-CSRF-TOKEN"]`
    postFormAction: string,       // action of `form[method="POST"]`
    lowerPostFormAction: string,  // action of `form[method="post"]`
    formFields: seq<FormField>,
    logoutLink: bool,             // some `a[href*="logout"]`
    logoutForm: bool,             // some `form[action*="logout"]`
    loginForm: bool,              // some `form[action*="login"]`
    passwordInput: bool,          // some `input[name="password"]`
    alertText: string,            // text of `.alert-danger`
    errorText: string,            // text of `.error`
    errorClassText: string,       // text of `[class*="error"]`
    cards: seq<Card>,
    columns: seq<Column>)
}
