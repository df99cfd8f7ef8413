/** `CalendarScraper`: reads each boat's week grid into bookings, keeps them per boat in
 *  its `bookings` dictionary, and summarises the week. */
module Calendar {
  import opened Options
  import opened Text
  import opened Patterns
  import opened Markup
  import opened FilterMaps
  import opened Http
  import opened Assets
  import opened RevSportAuth

  datatype Booking = Booking(date: string, startTime: string, endTime: string, memberName: string, boatId: string)

  /** An entry of `this.bookings`. */
  datatype BoatBookings = BoatBookings(boatId: string, boatName: string, fullName: string, bookings: seq<Booking>)

  /* ---------------------------------------------------------------- the week grid */

  /** The member's name in an event title: the trimmed title without a leading "Booked by"
   *  (any case) and the whitespace after it, trimmed again. */
  function MemberNameOf(title: string): string {
    Trim(ReplaceFirst(BookedBy, Trim(title)))
  }

  /** The two captures of the leftmost time range in a time text, if it has one. */
  function TimesIn(t: string): Option<(string, string)> {
    match Find(TimeRange, t)
    case None => None
    case Some(m) =>
      match TimeRangeAt(t, m.start)
      case None => None
      case Some(spans) => Some((t[spans.0.start..spans.0.end], t[spans.1.start..spans.1.end]))
  }

  /** The booking one event harness of a column describes, or None when it is skipped: no
   *  event in it, no time range in its trimmed time text (an empty text has none), or no
   *  member name. */
  function HarnessBooking(h: Harness, date: string, boatId: string): Option<Booking> {
    if !h.hasEvent then None
    else
      match TimesIn(Trim(h.timeText))
      case None => None
      case Some(times) =>
        var member := MemberNameOf(h.titleText);
        if member == [] then None else Some(Booking(date, times.0, times.1, member, boatId))
  }

  /** What each harness of a dated column yields. */
  function Yield(date: string, boatId: string): Harness -> Option<Booking> {
    (h: Harness) => HarnessBooking(h, date, boatId)
  }

  /** The bookings of one column, in harness order; a column without a date gives none. */
  function ColumnBookings(col: Column, boatId: string): seq<Booking> {
    if col.dataDate == [] then [] else FilterMap(col.harnesses, Yield(col.dataDate, boatId))
  }

  /** The bookings of a grid: column by column, each in harness order. */
  function GridBookings(columns: seq<Column>, boatId: string): seq<Booking> {
    Concat(columns, Columns(boatId))
  }

  /** What each column of a boat's grid yields. */
  function Columns(boatId: string): Column -> seq<Booking> {
    (col: Column) => ColumnBookings(col, boatId)
  }

  function HarnessCount(columns: seq<Column>): nat {
    if columns == [] then 0
    else HarnessCount(columns[..|columns| - 1]) + |columns[|columns| - 1].harnesses|
  }

  /** `parseCalendarHTML`: the loop over the columns; a column without a date is skipped. */
  method ParseCalendarHtml(columns: seq<Column>, boatId: string) returns (bookings: seq<Booking>)
    ensures bookings == GridBookings(columns, boatId)
  {
    bookings := [];
    var i := 0;
    while i < |columns|
      invariant 0 <= i <= |columns|
      invariant bookings == GridBookings(columns[..i], boatId)
    {
      GridStep(columns, i, boatId);
      if columns[i].dataDate != [] {
        var found := ParseColumn(columns[i].harnesses, columns[i].dataDate, boatId);
        bookings := bookings + found;
      }
      i := i + 1;
    }
    assert columns[..i] == columns;
  }

  /** The inner loop of `parseCalendarHTML`, over the harnesses of a dated column: it
   *  pushes the booking of every harness that yields one. */
  method ParseColumn(harnesses: seq<Harness>, date: string, boatId: string) returns (found: seq<Booking>)
    ensures found == FilterMap(harnesses, Yield(date, boatId))
  {
    found := [];
    var j := 0;
    while j < |harnesses|
      invariant 0 <= j <= |harnesses|
      invariant found == FilterMap(harnesses[..j], Yield(date, boatId))
    {
      HarnessStep(harnesses, j, date, boatId);
      var booking := HarnessBooking(harnesses[j], date, boatId);
      if booking.Some? {
        found := found + [booking.value];
      }
      j := j + 1;
    }
    assert harnesses[..j] == harnesses;
  }

  function AsSeq(b: Option<Booking>): seq<Booking> {
    match b
    case Some(x) => [x]
    case None => []
  }

  /** One more harness pushes its booking, if it yields one. */
  lemma HarnessStep(hs: seq<Harness>, j: nat, date: string, boatId: string)
    requires j < |hs|
    ensures FilterMap(hs[..j + 1], Yield(date, boatId))
            == FilterMap(hs[..j], Yield(date, boatId)) + AsSeq(HarnessBooking(hs[j], date, boatId))
  {
    assert hs[..j + 1] == hs[..j] + [hs[j]];
    FilterMapSnoc(hs[..j], hs[j], Yield(date, boatId));
  }

  /** One more column pushes its bookings. */
  lemma GridStep(columns: seq<Column>, i: nat, boatId: string)
    requires i < |columns|
    ensures GridBookings(columns[..i + 1], boatId) == GridBookings(columns[..i], boatId) + ColumnBookings(columns[i], boatId)
  {
    assert columns[..i + 1] == columns[..i] + [columns[i]];
    ConcatSnoc(columns[..i], columns[i], Columns(boatId));
  }

  /** The grid's time range starts at `k` and its captures spell `start` and `end`. */
  ghost predicate RangeCapturedAt(t: string, k: nat, start: string, end: string) {
    match TimeRangeAt(t, k)
    case Some((first, second)) => start == t[first.start..first.end] && end == t[second.start..second.end]
    case None => false
  }

  /** Both times read from a time text are clock readings. */
  lemma TimesAreClocks(t: string)
    ensures TimesIn(t).Some? ==> IsClock(TimesIn(t).value.0) && IsClock(TimesIn(t).value.1)
  {
    if Find(TimeRange, t).Some? {
      var m := Find(TimeRange, t).value;
      assert MatchEnd(TimeRange, t, m.start).Some?;
      TimeRangeCapturesClocks(t, m.start);
    }
  }

  /** The times of a time text are the captures of its leftmost time range, and both are
   *  clock readings; there are none exactly when the text holds no time range. */
  lemma TimesInLeftmost(t: string)
    ensures TimesIn(t).Some? <==> Find(TimeRange, t).Some?
    ensures TimesIn(t).Some? ==>
              && IsClock(TimesIn(t).value.0) && IsClock(TimesIn(t).value.1)
              && exists k: nat :: && RangeCapturedAt(t, k, TimesIn(t).value.0, TimesIn(t).value.1)
                                  && forall k': nat :: k' < k ==> TimeRangeAt(t, k').None?
  {
    if Find(TimeRange, t).Some? {
      var m := Find(TimeRange, t).value;
      assert MatchEnd(TimeRange, t, m.start).Some?;
      TimeRangeCapturesClocks(t, m.start);
      forall k': nat | k' < m.start
        ensures TimeRangeAt(t, k').None?
      {
        assert MatchEnd(TimeRange, t, k').None?;
      }
      assert RangeCapturedAt(t, m.start, TimesIn(t).value.0, TimesIn(t).value.1);
    }
  }

  /** A harness yields a booking exactly when it holds an event whose trimmed time text
   *  contains a time range and whose title leaves a member name. The booking carries the
   *  column's date, the boat id, the two captures of the leftmost time range, which are
   *  clock readings, and the member name. */
  lemma HarnessBookingFields(h: Harness, date: string, boatId: string)
    ensures var r := HarnessBooking(h, date, boatId);
            var t := Trim(h.timeText);
            && (r.Some? <==> h.hasEvent && Find(TimeRange, t).Some? && MemberNameOf(h.titleText) != [])
            && (r.Some? ==>
                  && r.value.date == date && r.value.boatId == boatId
                  && r.value.memberName == MemberNameOf(h.titleText)
                  && IsClock(r.value.startTime) && IsClock(r.value.endTime)
                  && exists k: nat :: && RangeCapturedAt(t, k, r.value.startTime, r.value.endTime)
                                      && forall k': nat :: k' < k ==> TimeRangeAt(t, k').None?)
  {
    var t := Trim(h.timeText);
    TimesInLeftmost(t);
    if t == [] {
      assert Find(TimeRange, t).None?;
    }
  }

  /** The member name never has whitespace at either end. A title that starts (once
   *  trimmed) with "Booked by" in any case gives the trimmed rest; any other title gives
   *  itself, trimmed. */
  lemma MemberNameStripsPrefix(title: string)
    ensures var t, name := Trim(title), MemberNameOf(title);
            && (name == [] || (!IsSpace(name[0]) && !IsSpace(name[|name| - 1])))
            && (LiteralAtIgnoringCase(t, 0, "booked by") ==> name == Trim(t[9..]))
            && (!LiteralAtIgnoringCase(t, 0, "booked by") ==> name == t)
  {
    var t := Trim(title);
    if LiteralAtIgnoringCase(t, 0, "booked by") {
      assert MatchEnd(BookedBy, t, 0) == Some(SkipSpaces(t, 9));
      assert ReplaceFirst(BookedBy, t) == t[SkipSpaces(t, 9)..];
      TrimSkipsLeadingSpaces(t, 9);
    } else {
      assert forall k: nat :: MatchEnd(BookedBy, t, k).None?;
      assert ReplaceFirst(BookedBy, t) == t;
      TrimOfTrimmed(t);
    }
  }

  /** Splitting the grid splits its bookings: earlier columns' bookings come first. */
  lemma GridBookingsAppend(a: seq<Column>, b: seq<Column>, boatId: string)
    ensures GridBookings(a + b, boatId) == GridBookings(a, boatId) + GridBookings(b, boatId)
  {
    ConcatAppend(a, b, Columns(boatId));
  }

  /** No more bookings than harnesses. */
  lemma {:induction false} GridBookingsBound(columns: seq<Column>, boatId: string)
    ensures |GridBookings(columns, boatId)| <= HarnessCount(columns)
    decreases |columns|
  {
    if columns != [] {
      GridBookingsBound(columns[..|columns| - 1], boatId);
    }
  }

  /** Every booking of a grid comes from a harness of a column with a date, and carries
   *  that date, the boat id, two clock readings and a non-empty trimmed member name. */
  lemma GridBookingsOrigin(columns: seq<Column>, boatId: string, b: Booking)
    requires b in GridBookings(columns, boatId)
    ensures exists i, j :: && 0 <= i < |columns| && 0 <= j < |columns[i].harnesses|
                           && columns[i].dataDate != [] && b.date == columns[i].dataDate
                           && HarnessBooking(columns[i].harnesses[j], b.date, boatId) == Some(b)
    ensures b.boatId == boatId && IsClock(b.startTime) && IsClock(b.endTime)
    ensures b.memberName != [] && !IsSpace(b.memberName[0]) && !IsSpace(b.memberName[|b.memberName| - 1])
  {
    ConcatMembers(columns, Columns(boatId), b);
    var i :| 0 <= i < |columns| && b in ColumnBookings(columns[i], boatId);
    var col := columns[i];
    var f := Yield(col.dataDate, boatId);
    FilterMapMembers(col.harnesses, f, b);
    var j :| 0 <= j < |col.harnesses| && f(col.harnesses[j]) == Some(b);
    BookingShape(col.harnesses[j], col.dataDate, boatId, b);
  }

  /** What a yielded booking looks like, in the terms the grid promises. */
  lemma BookingShape(h: Harness, date: string, boatId: string, b: Booking)
    requires HarnessBooking(h, date, boatId) == Some(b)
    ensures b.date == date && b.boatId == boatId && IsClock(b.startTime) && IsClock(b.endTime)
    ensures b.memberName != [] && !IsSpace(b.memberName[0]) && !IsSpace(b.memberName[|b.memberName| - 1])
  {
    TimesAreClocks(Trim(h.timeText));
  }

  /* ---------------------------------------------------------------- dates */

  /** What `getFullYear`, `getMonth` (0 to 11) and `getDate` report for a moment. */
  datatype CivilDate = CivilDate(year: int, monthIndex: int, day: int)

  predicate ValidDate(d: CivilDate) {
    0 <= d.monthIndex < 12 && 1 <= d.day <= 31
  }

  /** `padStart(2, '0')`. */
  function PadStart2(s: string): (r: string)
    ensures |s| >= 2 ==> r == s
    ensures |s| < 2 ==> |r| == 2 && r[2 - |s|..] == s && forall i :: 0 <= i < 2 - |s| ==> r[i] == '0'
  {
    if |s| >= 2 then s else if |s| == 1 then ['0'] + s else "00"
  }

  /** `formatDate`: the year, the 1-based month and the day, the last two padded to two
   *  digits, joined by hyphens. */
  function FormatDate(d: CivilDate): string {
    IntToDecimal(d.year) + "-" + PadStart2(IntToDecimal(d.monthIndex + 1)) + "-" + PadStart2(IntToDecimal(d.day))
  }

  /** Reads `YYYY-MM-DD` back: digits, a hyphen, two digits, a hyphen, two digits. */
  function ParseDate(s: string): Option<CivilDate> {
    if |s| >= 7 && AllDigits(s[..|s| - 6]) && s[|s| - 6] == '-' && AllDigits(s[|s| - 5..|s| - 3])
       && s[|s| - 3] == '-' && AllDigits(s[|s| - 2..])
    then Some(CivilDate(DecimalValue(s[..|s| - 6]), DecimalValue(s[|s| - 5..|s| - 3]) - 1, DecimalValue(s[|s| - 2..])))
    else None
  }

  /** A number from 1 to 99 written and padded is two digits worth that number. */
  lemma TwoDigits(n: nat)
    requires 1 <= n < 100
    ensures var p := PadStart2(IntToDecimal(n));
            |p| == 2 && AllDigits(p) && DecimalValue(p) == n
  {
    var p := PadStart2(IntToDecimal(n));
    if n < 10 {
      assert p == ['0', DigitChar(n)];
      assert p[..1] == ['0'];
      assert p[..1][..0] == [];
    } else {
      assert NatToDecimal(n) == NatToDecimal(n / 10) + [DigitChar(n % 10)];
      DecimalRoundTrip(n);
    }
  }

  /** `r` is the numeral `y`, a hyphen, two digits worth the 1-based month, a hyphen and
   *  two digits worth the day of `d`. */
  predicate DateShaped(r: string, y: string, d: CivilDate) {
    && |r| == |y| + 6 && r[..|y|] == y && r[|y|] == '-' && r[|y| + 3] == '-'
    && AllDigits(r[|y| + 1..|y| + 3]) && DecimalValue(r[|y| + 1..|y| + 3]) == d.monthIndex + 1
    && AllDigits(r[|y| + 4..]) && DecimalValue(r[|y| + 4..]) == d.day
  }

  /** A valid date of a year from 0 on is written as the year's numeral, a hyphen, the
   *  month as two digits, a hyphen and the day as two digits. */
  lemma FormatDateShape(d: CivilDate)
    requires ValidDate(d) && d.year >= 0
    ensures DateShaped(FormatDate(d), NatToDecimal(d.year), d)
  {
    var y := NatToDecimal(d.year);
    var mm := PadStart2(IntToDecimal(d.monthIndex + 1));
    var dd := PadStart2(IntToDecimal(d.day));
    var r := FormatDate(d);
    assert IntToDecimal(d.year) == y;
    assert r == y + "-" + mm + "-" + dd;
    TwoDigits(d.monthIndex + 1);
    TwoDigits(d.day);
    JoinedParts(y, mm, dd);
    assert r[|y| + 1..|y| + 3] == mm && r[|y| + 4..] == dd;
  }

  lemma JoinedParts(y: string, mm: string, dd: string)
    requires |mm| == 2 && |dd| == 2
    ensures var r := y + "-" + mm + "-" + dd;
            && |r| == |y| + 6 && r[..|y|] == y && r[|y|] == '-' && r[|y| + 3] == '-'
            && r[|y| + 1..|y| + 3] == mm && r[|y| + 4..] == dd
  {
    var r := y + "-" + mm + "-" + dd;
    assert r == y + (['-'] + mm + ['-'] + dd);
  }

  /** Reading a formatted date gives the date back. */
  lemma FormatDateRoundTrip(d: CivilDate)
    requires ValidDate(d) && d.year >= 0
    ensures ParseDate(FormatDate(d)) == Some(d)
  {
    FormatDateShape(d);
    DecimalRoundTrip(d.year);
    ParseShaped(FormatDate(d), NatToDecimal(d.year), d);
  }

  /** A numeral, a hyphen, two digits, a hyphen and two digits read as the date they write. */
  lemma ParseShaped(r: string, y: string, d: CivilDate)
    requires |y| >= 1 && AllDigits(y) && DecimalValue(y) == d.year
    requires DateShaped(r, y, d)
    ensures ParseDate(r) == Some(d)
  {
    assert r[..|r| - 6] == y;
    assert r[|r| - 5..|r| - 3] == r[|y| + 1..|y| + 3];
    assert r[|r| - 2..] == r[|y| + 4..];
  }

  /* ---------------------------------------------------------------- totals */

  /** `Object.values(this.bookings).reduce((sum, boat) => sum + boat.bookings.length, 0)`. */
  function TotalBookings(boats: seq<BoatBookings>): nat {
    if boats == [] then 0
    else TotalBookings(boats[..|boats| - 1]) + |boats[|boats| - 1].bookings|
  }

  /** A visiting order of a dictionary: each of its keys exactly once. */
  predicate KeyOrder(m: map<string, BoatBookings>, keys: seq<string>) {
    multiset(keys) == multiset(m.Keys)
  }

  predicate KeysIn(m: map<string, BoatBookings>, keys: seq<string>) {
    forall i :: 0 <= i < |keys| ==> keys[i] in m
  }

  /** The dictionary's values, visited along `keys`. */
  function ValuesAlong(m: map<string, BoatBookings>, keys: seq<string>): (r: seq<BoatBookings>)
    requires KeysIn(m, keys)
    ensures |r| == |keys| && forall i :: 0 <= i < |keys| ==> r[i] == m[keys[i]]
  {
    if keys == [] then [] else ValuesAlong(m, keys[..|keys| - 1]) + [m[keys[|keys| - 1]]]
  }

  /** The bookings counted under `keys`, a key the dictionary lacks counting none. */
  function KeyTotal(m: map<string, BoatBookings>, keys: seq<string>): nat {
    SumBy(keys, CountUnder(m))
  }

  function CountUnder(m: map<string, BoatBookings>): string -> nat {
    (k: string) => if k in m then |m[k].bookings| else 0
  }

  function SumBy<T>(xs: seq<T>, f: T -> nat): nat {
    if xs == [] then 0 else SumBy(xs[..|xs| - 1], f) + f(xs[|xs| - 1])
  }

  lemma KeyOrderCovers(m: map<string, BoatBookings>, keys: seq<string>)
    requires KeyOrder(m, keys)
    ensures KeysIn(m, keys)
    ensures forall k :: k in m ==> k in keys
  {
    forall k | k in m
      ensures k in keys
    {
      assert k in multiset(m.Keys);
    }
    forall i | 0 <= i < |keys|
      ensures keys[i] in m
    {
      assert keys[i] in multiset(keys);
    }
  }

  lemma {:induction false} ValuesAlongTotal(m: map<string, BoatBookings>, keys: seq<string>)
    requires KeysIn(m, keys)
    ensures TotalBookings(ValuesAlong(m, keys)) == KeyTotal(m, keys)
    decreases |keys|
  {
    if keys != [] {
      var init := keys[..|keys| - 1];
      ValuesAlongTotal(m, init);
      assert ValuesAlong(m, keys)[..|keys| - 1] == ValuesAlong(m, init);
    }
  }

  lemma {:induction false} SumByAppend<T>(a: seq<T>, b: seq<T>, f: T -> nat)
    ensures SumBy(a + b, f) == SumBy(a, f) + SumBy(b, f)
    decreases |b|
  {
    if b == [] {
      assert a + b == a;
    } else {
      assert (a + b)[..|a + b| - 1] == a + b[..|b| - 1];
      SumByAppend(a, b[..|b| - 1], f);
    }
  }

  /** A sum does not depend on the order of its terms. */
  lemma {:induction false} SumByIgnoresOrder<T>(a: seq<T>, b: seq<T>, f: T -> nat)
    requires multiset(a) == multiset(b)
    ensures SumBy(a, f) == SumBy(b, f)
    decreases |a|
  {
    if a != [] {
      var x := a[|a| - 1];
      assert x in multiset(b);
      var i :| 0 <= i < |b| && b[i] == x;
      var rest := b[..i] + b[i + 1..];
      assert b == b[..i] + [x] + b[i + 1..];
      assert a == a[..|a| - 1] + [x];
      assert multiset(rest) == multiset(b) - multiset{x};
      assert multiset(a[..|a| - 1]) == multiset(a) - multiset{x};
      SumByIgnoresOrder(a[..|a| - 1], rest, f);
      SumByAppend(b[..i] + [x], b[i + 1..], f);
      SumByAppend(b[..i], [x], f);
      SumByAppend(b[..i], b[i + 1..], f);
      assert [x][..0] == [];
    }
  }

  /** `totalBookings` is a property of the dictionary: every visiting order gives it. */
  lemma TotalIsOrderFree(m: map<string, BoatBookings>, a: seq<string>, b: seq<string>)
    requires KeyOrder(m, a) && KeyOrder(m, b)
    ensures KeysIn(m, a) && KeysIn(m, b)
    ensures TotalBookings(ValuesAlong(m, a)) == TotalBookings(ValuesAlong(m, b))
  {
    KeyOrderCovers(m, a);
    KeyOrderCovers(m, b);
    ValuesAlongTotal(m, a);
    ValuesAlongTotal(m, b);
    SumByIgnoresOrder(a, b, CountUnder(m));
  }

  /** A clock and calendar of the local time zone, as `Date` sees them. Moments are
   *  milliseconds. `addDays(t, n)` is `setDate(getDate() + n)` on a copy of `t`: the same
   *  wall-clock time `n` calendar days later. */
  datatype Clock = Clock(now: int, dateOf: int -> CivilDate, weekdayOf: int -> int, addDays: (int, int) -> int)

  const DayMs: int := 24 * 60 * 60 * 1000

  /** What every `Date` does: `setDate(getDate() + 0)` leaves the moment where it was. */
  ghost predicate ValidClock(clock: Clock) {
    forall t :: clock.addDays(t, 0) == t
  }

  /** The week's Sunday, at the current wall-clock time. */
  function WeekStartOf(clock: Clock): int {
    clock.addDays(clock.now, -clock.weekdayOf(clock.now))
  }

  /** Six days of milliseconds after the week's start. */
  function WeekEndOf(clock: Clock): int {
    WeekStartOf(clock) + 6 * DayMs
  }

  datatype CalendarData = CalendarData(
    weekStart: string,
    weekEnd: string,
    days: seq<string>,
    boats: seq<BoatBookings>,
    totalBookings: nat)

  /* ---------------------------------------------------------------- the scraper */

  /** `scrapeBoatCalendar`: GET the boat's calendar and, when a page comes back, store its
   *  bookings under the boat's id; a failed GET is rethrown and stores nothing. */
  function ScrapeBoatStep(server: Server, username: string, password: string, s: Session,
                          boat: Asset, m: map<string, BoatBookings>): (Outcome, Session, map<string, BoatBookings>)
  {
    var (r, s1) := GetStep(server, username, password, s, CalendarPath(boat.id));
    match r
    case Err(e) => (Fail(e), s1, m)
    case Ok(page) =>
      (Pass, s1, m[boat.id := BoatBookings(boat.id, boat.displayName, boat.fullName, GridBookings(page.columns, boat.id))])
  }

  function CalendarPath(id: string): string {
    "/bookings/calendar/" + id
  }

  /** The loop of `scrapeAllCalendars`: every boat in turn, a failing one only logged. */
  function ScrapeLoop(server: Server, username: string, password: string, s: Session,
                      boats: seq<Asset>, m: map<string, BoatBookings>): (Session, map<string, BoatBookings>)
  {
    if boats == [] then (s, m)
    else
      var (s1, m1) := ScrapeLoop(server, username, password, s, boats[..|boats| - 1], m);
      var (_, s2, m2) := ScrapeBoatStep(server, username, password, s1, boats[|boats| - 1], m1);
      (s2, m2)
  }

  /** `scrapeAllCalendars`: log in once, rethrowing its failure, then run the loop. */
  function ScrapeAllStep(server: Server, username: string, password: string, s: Session,
                         boats: seq<Asset>, m: map<string, BoatBookings>): (Outcome, Session, map<string, BoatBookings>)
  {
    var (o, s1) := LoginStep(server, username, password, s);
    if o.Fail? then (o, s1, m)
    else
      var (s2, m2) := ScrapeLoop(server, username, password, s1, boats, m);
      (Pass, s2, m2)
  }

  class CalendarScraper {
    const boats: seq<Asset>
    const auth: RevSportAuthenticator
    var bookings: map<string, BoatBookings>

    constructor(boats: seq<Asset>, server: Server, username: string, password: string)
      ensures this.boats == boats && fresh(auth)
      ensures auth.server == server && auth.username == username && auth.password == password
      ensures auth.State() == Session(false, None, []) && bookings == map[]
    {
      this.boats := boats;
      auth := new RevSportAuthenticator(server, username, password);
      bookings := map[];
    }

    method ScrapeBoatCalendar(boat: Asset) returns (o: Outcome)
      modifies this, auth
      ensures (o, auth.State(), bookings)
              == ScrapeBoatStep(auth.server, auth.username, auth.password, old(auth.State()), boat, old(bookings))
    {
      var html := auth.Get(CalendarPath(boat.id));
      if html.Err? {
        return Fail(html.error);
      }
      var found := ParseCalendarHtml(html.value.columns, boat.id);
      bookings := bookings[boat.id := BoatBookings(boat.id, boat.displayName, boat.fullName, found)];
      return Pass;
    }

    /** Returns the dictionary too, as the source does, through `bookings`. */
    method ScrapeAllCalendars() returns (o: Outcome)
      modifies this, auth
      ensures (o, auth.State(), bookings)
              == ScrapeAllStep(auth.server, auth.username, auth.password, old(auth.State()), boats, old(bookings))
    {
      o := auth.Login();
      if o.Fail? {
        return;
      }
      ghost var s1, m0 := auth.State(), bookings;
      var i := 0;
      while i < |boats|
        invariant 0 <= i <= |boats|
        invariant (auth.State(), bookings) == ScrapeLoop(auth.server, auth.username, auth.password, s1, boats[..i], m0)
      {
        assert boats[..i + 1][..i] == boats[..i];
        var _ := ScrapeBoatCalendar(boats[i]);
        i := i + 1;
      }
      assert boats[..i] == boats;
    }

    /** `generateCalendarData`: the seven days of the week from its Sunday, the week's
     *  first and last day, the stored boats in some visiting order of the dictionary, and
     *  the number of bookings among them. */
    method GenerateCalendarData(clock: Clock) returns (data: CalendarData)
      requires ValidClock(clock)
      ensures var start := WeekStartOf(clock);
              && data.weekStart == FormatDate(clock.dateOf(start))
              && data.weekEnd == FormatDate(clock.dateOf(WeekEndOf(clock)))
              && |data.days| == 7
              && (forall i :: 0 <= i < 7 ==> data.days[i] == FormatDate(clock.dateOf(clock.addDays(start, i))))
              && data.days[0] == data.weekStart
              && (clock.addDays(start, 6) == WeekEndOf(clock) ==> data.days[6] == data.weekEnd)
      ensures exists keys :: KeyOrder(bookings, keys) && KeysIn(bookings, keys) && data.boats == ValuesAlong(bookings, keys)
      ensures data.totalBookings == TotalBookings(data.boats)
    {
      var start := WeekStartOf(clock);
      var days := WeekDays(DayLabels(clock, start));
      var keys := KeysOf(bookings);
      KeyOrderCovers(bookings, keys);
      var boats := ValuesAlong(bookings, keys);
      var weekStart, weekEnd := FormatDate(clock.dateOf(start)), FormatDate(clock.dateOf(WeekEndOf(clock)));
      data := CalendarData(weekStart, weekEnd, days, boats, TotalBookings(boats));
    }
  }

  /** The label of the day `i` days after `start`. */
  function DayLabels(clock: Clock, start: int): int -> string {
    (i: int) => FormatDate(clock.dateOf(clock.addDays(start, i)))
  }

  /** The loop of `generateCalendarData` that lists the week: entry `i` is the label of
   *  the day `i` days after the week's start. */
  method WeekDays(dayLabel: int -> string) returns (days: seq<string>)
    ensures |days| == 7
    ensures forall i :: 0 <= i < 7 ==> days[i] == dayLabel(i)
  {
    days := [];
    var i := 0;
    while i < 7
      invariant 0 <= i <= 7 && |days| == i
      invariant forall k :: 0 <= k < i ==> days[k] == dayLabel(k)
    {
      days := days + [dayLabel(i)];
      i := i + 1;
    }
  }

  /** The keys of a dictionary, in the order a loop happens to take them. */
  method KeysOf(m: map<string, BoatBookings>) returns (keys: seq<string>)
    ensures KeyOrder(m, keys)
  {
    keys := [];
    var rest := m.Keys;
    while rest != {}
      invariant rest <= m.Keys
      invariant multiset(keys) + multiset(rest) == multiset(m.Keys)
      decreases |rest|
    {
      var k :| k in rest;
      assert multiset(rest) == multiset(rest - {k}) + multiset{k};
      keys := keys + [k];
      rest := rest - {k};
    }
  }

  /* ---------------------------------------------------------------- scraper lemmas */

  /** A boat whose GET fails leaves the dictionary as it was; one whose GET returns a page
   *  stores, under its id and nothing else, its names and the page's bookings. */
  lemma ScrapeBoatStores(server: Server, username: string, password: string, s: Session,
                         boat: Asset, m: map<string, BoatBookings>)
    ensures var (o, s', m') := ScrapeBoatStep(server, username, password, s, boat, m);
            var (r, _) := GetStep(server, username, password, s, CalendarPath(boat.id));
            && (o.Fail? <==> r.Err?)
            && (o.Fail? ==> m' == m)
            && (o.Pass? ==> && m'.Keys == m.Keys + {boat.id}
                            && (forall k :: k in m && k != boat.id ==> m'[k] == m[k])
                            && m'[boat.id].boatId == boat.id && m'[boat.id].boatName == boat.displayName
                            && m'[boat.id].fullName == boat.fullName
                            && m'[boat.id].bookings == GridBookings(r.value.columns, boat.id))
  {
  }

  /** The session and the map the loop has reached before boat `i`. */
  function StateBefore(server: Server, username: string, password: string, s: Session,
                       boats: seq<Asset>, m: map<string, BoatBookings>, i: nat): (Session, map<string, BoatBookings>)
    requires i <= |boats|
  {
    ScrapeLoop(server, username, password, s, boats[..i], m)
  }

  /** The step the loop takes for boat `i`. */
  function StepAt(server: Server, username: string, password: string, s: Session,
                  boats: seq<Asset>, m: map<string, BoatBookings>, i: nat): (Outcome, Session, map<string, BoatBookings>)
    requires i < |boats|
  {
    var (si, mi) := StateBefore(server, username, password, s, boats, m, i);
    ScrapeBoatStep(server, username, password, si, boats[i], mi)
  }

  /** No boat after `i` has boat `i`'s id. */
  predicate LastWithId(boats: seq<Asset>, i: nat)
    requires i < |boats|
  {
    forall j :: i < j < |boats| ==> boats[j].id != boats[i].id
  }

  /** Dropping the last boat leaves the steps before it as they were. */
  lemma StepsOfPrefix(server: Server, username: string, password: string, s: Session,
                      boats: seq<Asset>, m: map<string, BoatBookings>)
    requires boats != []
    ensures forall i :: 0 <= i < |boats| - 1 ==>
              StepAt(server, username, password, s, boats[..|boats| - 1], m, i) == StepAt(server, username, password, s, boats, m, i)
  {
    forall i | 0 <= i < |boats| - 1
      ensures StepAt(server, username, password, s, boats[..|boats| - 1], m, i) == StepAt(server, username, password, s, boats, m, i)
    {
      assert boats[..|boats| - 1][..i] == boats[..i];
    }
  }

  /** The loop's map after all boats is the last boat's step applied to the map before it. */
  lemma LastStep(server: Server, username: string, password: string, s: Session,
                 boats: seq<Asset>, m: map<string, BoatBookings>)
    requires boats != []
    ensures ScrapeLoop(server, username, password, s, boats, m).1 == StepAt(server, username, password, s, boats, m, |boats| - 1).2
  {
    assert boats[..|boats| - 1] == boats[..|boats| - 1];
  }

  /** What step `i` does to the map: a failing step leaves it, a passing one sets the
   *  boat's id and nothing else. */
  lemma StepEffect(server: Server, username: string, password: string, s: Session,
                   boats: seq<Asset>, m: map<string, BoatBookings>, i: nat)
    requires i < |boats|
    ensures var mi := StateBefore(server, username, password, s, boats, m, i).1;
            var (o, _, mi') := StepAt(server, username, password, s, boats, m, i);
            && (o.Fail? ==> mi' == mi)
            && (o.Pass? ==> boats[i].id in mi' && mi' == mi[boats[i].id := mi'[boats[i].id]])
  {
    var (si, mi) := StateBefore(server, username, password, s, boats, m, i);
    ScrapeBoatStores(server, username, password, si, boats[i], mi);
  }

  /** A boat whose calendar cannot be read adds nothing: every id the loop adds comes from
   *  a boat whose own step succeeded. */
  lemma {:induction false} ScrapeLoopAddsPassed(server: Server, username: string, password: string, s: Session,
                                                boats: seq<Asset>, m: map<string, BoatBookings>)
    ensures var m' := ScrapeLoop(server, username, password, s, boats, m).1;
            forall k :: k in m' && k !in m ==>
              exists i :: 0 <= i < |boats| && boats[i].id == k && StepAt(server, username, password, s, boats, m, i).0.Pass?
    decreases |boats|
  {
    if boats != [] {
      var n := |boats| - 1;
      var init := boats[..n];
      ScrapeLoopAddsPassed(server, username, password, s, init, m);
      StepsOfPrefix(server, username, password, s, boats, m);
      LastStep(server, username, password, s, boats, m);
      var m1 := StateBefore(server, username, password, s, boats, m, n).1;
      StepEffect(server, username, password, s, boats, m, n);
      var (o, _, m2) := StepAt(server, username, password, s, boats, m, n);
      forall k | k in m2 && k !in m
        ensures exists i :: 0 <= i < |boats| && boats[i].id == k && StepAt(server, username, password, s, boats, m, i).0.Pass?
      {
        if k !in m1 {
          assert boats[n].id == k && o.Pass?;
        } else {
          var i :| 0 <= i < |init| && init[i].id == k && StepAt(server, username, password, s, init, m, i).0.Pass?;
          assert boats[i].id == k;
        }
      }
    }
  }

  /** A failing boat does not end the loop: each boat whose step succeeded keeps the entry
   *  that step wrote, unless a later boat has the same id. */
  lemma ScrapeLoopKeepsLastPass(server: Server, username: string, password: string, s: Session,
                                boats: seq<Asset>, m: map<string, BoatBookings>)
    ensures var m' := ScrapeLoop(server, username, password, s, boats, m).1;
            forall i :: 0 <= i < |boats| && StepAt(server, username, password, s, boats, m, i).0.Pass? && LastWithId(boats, i) ==>
              boats[i].id in m' && m'[boats[i].id] == StepAt(server, username, password, s, boats, m, i).2[boats[i].id]
  {
    var ms := MapsAlong(server, username, password, s, boats, m);
    var passed := PassesAlong(server, username, password, s, boats, m);
    var ids := IdsOf(boats);
    forall i | 0 <= i < |boats|
      ensures RecordedAt(ids, passed, ms, i)
    {
      StepLink(server, username, password, s, boats, m, i);
      StepEffect(server, username, password, s, boats, m, i);
    }
    assert boats[..|boats|] == boats;
    forall i | 0 <= i < |boats| && StepAt(server, username, password, s, boats, m, i).0.Pass? && LastWithId(boats, i)
      ensures var m' := ScrapeLoop(server, username, password, s, boats, m).1;
              boats[i].id in m' && m'[boats[i].id] == StepAt(server, username, password, s, boats, m, i).2[boats[i].id]
    {
      StepLink(server, username, password, s, boats, m, i);
      RecordKeepsLastPass(ids, passed, ms, i, |boats|);
    }
  }

  /** The ids of the boats, in order. */
  function IdsOf(boats: seq<Asset>): (ids: seq<string>)
    ensures |ids| == |boats| && forall i :: 0 <= i < |boats| ==> ids[i] == boats[i].id
  {
    seq(|boats|, i requires 0 <= i < |boats| => boats[i].id)
  }

  /** The map before each boat, and after the last one. */
  ghost function MapsAlong(server: Server, username: string, password: string, s: Session,
                           boats: seq<Asset>, m: map<string, BoatBookings>): (ms: seq<map<string, BoatBookings>>)
    ensures |ms| == |boats| + 1
    ensures forall i :: 0 <= i <= |boats| ==> ms[i] == StateBefore(server, username, password, s, boats, m, i).1
  {
    seq(|boats| + 1, i requires 0 <= i <= |boats| => StateBefore(server, username, password, s, boats, m, i).1)
  }

  /** Whether each boat's step succeeded. */
  ghost function PassesAlong(server: Server, username: string, password: string, s: Session,
                             boats: seq<Asset>, m: map<string, BoatBookings>): (ps: seq<bool>)
    ensures |ps| == |boats|
    ensures forall i :: 0 <= i < |boats| ==> ps[i] == StepAt(server, username, password, s, boats, m, i).0.Pass?
  {
    seq(|boats|, i requires 0 <= i < |boats| => StepAt(server, username, password, s, boats, m, i).0.Pass?)
  }

  /** The map after boat `i` is the one its step returned. */
  lemma StepLink(server: Server, username: string, password: string, s: Session,
                 boats: seq<Asset>, m: map<string, BoatBookings>, i: nat)
    requires i < |boats|
    ensures StateBefore(server, username, password, s, boats, m, i + 1).0 == StepAt(server, username, password, s, boats, m, i).1
    ensures StateBefore(server, username, password, s, boats, m, i + 1).1 == StepAt(server, username, password, s, boats, m, i).2
  {
    var b := boats[..i + 1];
    assert b[..|b| - 1] == boats[..i];
    assert b[|b| - 1] == boats[i];
  }

  /** Step `i` of a run over `ids`, with `ms[i]` the map before it: a passing step sets
   *  `ids[i]` and keeps every other key, a failing one changes nothing. */
  predicate RecordedAt(ids: seq<string>, passed: seq<bool>, ms: seq<map<string, BoatBookings>>, i: nat)
    requires i < |ids| == |passed| && |ms| == |ids| + 1
  {
    && (passed[i] ==> ids[i] in ms[i + 1] && ms[i + 1] == ms[i][ids[i] := ms[i + 1][ids[i]]])
    && (!passed[i] ==> ms[i + 1] == ms[i])
  }

  /** In a run of such steps, the entry a passing step `i` writes is still there after
   *  step `k - 1` when no step between has the same id. */
  lemma {:induction false} RecordKeepsLastPass(ids: seq<string>, passed: seq<bool>, ms: seq<map<string, BoatBookings>>,
                                               i: nat, k: nat)
    requires |ids| == |passed| && |ms| == |ids| + 1
    requires forall j :: 0 <= j < |ids| ==> RecordedAt(ids, passed, ms, j)
    requires i < k <= |ids| && passed[i]
    requires forall j :: i < j < |ids| ==> ids[j] != ids[i]
    ensures ids[i] in ms[i + 1] && ids[i] in ms[k] && ms[k][ids[i]] == ms[i + 1][ids[i]]
    decreases k
  {
    assert RecordedAt(ids, passed, ms, i);
    if k > i + 1 {
      RecordKeepsLastPass(ids, passed, ms, i, k - 1);
      assert RecordedAt(ids, passed, ms, k - 1);
    }
  }

  /** The loop never drops a key, only adds boats' ids, and every entry it writes is
   *  a boat's: its id, its names, and bookings that all carry that id. */
  lemma {:induction false} ScrapeLoopEntries(server: Server, username: string, password: string, s: Session,
                                             boats: seq<Asset>, m: map<string, BoatBookings>)
    ensures var (_, m') := ScrapeLoop(server, username, password, s, boats, m);
            && m.Keys <= m'.Keys
            && (forall k :: k in m' ==>
                  || (k in m && m'[k] == m[k])
                  || exists i :: && 0 <= i < |boats| && boats[i].id == k && m'[k].boatId == k
                                 && m'[k].boatName == boats[i].displayName && m'[k].fullName == boats[i].fullName
                                 && forall b :: b in m'[k].bookings ==> b.boatId == k)
    decreases |boats|
  {
    if boats != [] {
      var init, boat := boats[..|boats| - 1], boats[|boats| - 1];
      ScrapeLoopEntries(server, username, password, s, init, m);
      var (s1, m1) := ScrapeLoop(server, username, password, s, init, m);
      var (o, s2, m2) := ScrapeBoatStep(server, username, password, s1, boat, m1);
      ScrapeBoatStores(server, username, password, s1, boat, m1);
      forall k | k in m2
        ensures || (k in m && m2[k] == m[k])
                || exists i :: && 0 <= i < |boats| && boats[i].id == k && m2[k].boatId == k
                               && m2[k].boatName == boats[i].displayName && m2[k].fullName == boats[i].fullName
                               && forall b :: b in m2[k].bookings ==> b.boatId == k
      {
        if o.Pass? && k == boat.id {
          var (r, _) := GetStep(server, username, password, s1, CalendarPath(boat.id));
          forall b | b in m2[k].bookings
            ensures b.boatId == k
          {
            GridBookingsOrigin(r.value.columns, k, b);
          }
          assert boats[|boats| - 1] == boat;
        } else if !(k in m && m2[k] == m[k]) {
          var i :| && 0 <= i < |init| && init[i].id == k && m1[k].boatId == k
                   && m1[k].boatName == init[i].displayName && m1[k].fullName == init[i].fullName
                   && forall b :: b in m1[k].bookings ==> b.boatId == k;
          assert boats[i] == init[i];
        }
      }
    }
  }

  /** A GET of some boat's calendar page. */
  predicate CalendarRequest(r: Request) {
    r.Get? && |r.path| > 19 && r.path[..19] == "/bookings/calendar/"
  }

  /** A login that fails ends the run: the dictionary is untouched and no calendar is
   *  requested. */
  lemma LoginFailureStopsScrape(server: Server, username: string, password: string, s: Session,
                                boats: seq<Asset>, m: map<string, BoatBookings>)
    ensures var (o, s', m') := ScrapeAllStep(server, username, password, s, boats, m);
            var (lo, _) := LoginStep(server, username, password, s);
            lo.Fail? ==> && o == lo && m' == m && !s'.authenticated
                         && |s.sent| <= |s'.sent| && s'.sent[..|s.sent|] == s.sent
                         && forall i :: |s.sent| <= i < |s'.sent| ==> !CalendarRequest(s'.sent[i])
  {
    LoginResetsOnFailure(server, username, password, s);
    LoginRequestsNoCalendar(server, username, password, s);
    var (lo, s1) := LoginStep(server, username, password, s);
    if lo.Fail? {
      assert ScrapeAllStep(server, username, password, s, boats, m) == (lo, s1, m);
    }
  }

  /** The login's own requests are GET `/login`, a POST and GET `/bookings`: none of them
   *  is a calendar GET. */
  lemma LoginRequestsNoCalendar(server: Server, username: string, password: string, s: Session)
    ensures var (_, s') := LoginStep(server, username, password, s);
            && |s.sent| <= |s'.sent| && s'.sent[..|s.sent|] == s.sent
            && forall i :: |s.sent| <= i < |s'.sent| ==> !CalendarRequest(s'.sent[i])
  {
    LoginOrder(server, username, password, s);
    var (_, s') := LoginStep(server, username, password, s);
    var n := |s.sent|;
    forall i | n <= i < |s'.sent|
      ensures !CalendarRequest(s'.sent[i])
    {
      if i == n {
        assert s'.sent[i] == Get("/login");
      } else if i == n + 2 {
        assert s'.sent[i] == Get("/bookings");
      }
    }
  }

  /** Each boat's page is fetched with a calendar GET. */
  lemma CalendarPathIsCalendarRequest(id: string)
    requires id != []
    ensures CalendarRequest(Get(CalendarPath(id)))
  {
    assert CalendarPath(id)[..19] == "/bookings/calendar/";
  }
}
