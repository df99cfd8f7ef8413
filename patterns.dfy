/** The regular expressions of the boat-name, asset and calendar parsers, each written as
 *  a matcher that says where a match starting at a given position ends. None of them
 *  carries the `g` flag, so `match` and `replace` only ever use the leftmost match, which
 *  `Search` finds. Where a pattern could backtrack, the comment on its matcher says why
 *  the greedy reading is the only one that can succeed. */
module Patterns {
  import opened Options
  import opened Text

  datatype Pattern =
    | BoatType      // /^(1X|2X|4X|8X)/
    | Racer         // /RACER/i
    | RtWord        // /\bRT\b/i
    | Weight        // /(\d+)\s*KG/i, and the cleanup /\d+\s*KG/i
    | Nickname      // /\(\s*([^)]+)\s*\)/
    | TypeCleanup   // /^(1X|2X|4X|8X)\s*(-\s*)?/i
    | RacerCleanup  // /\bRACER\b\s*-?\s*/i
    | ClassCleanup  // /\b(RT|T)\b\s*-?\s*/i
    | ParenCleanup  // /\([^)]*\)/
    | CalendarId    // /\/calendar\/(\d+)/
    | TimeRange     // /(\d{1,2}:\d{2})\s*-\s*(\d{1,2}:\d{2})/
    | BookedBy      // /^Booked by\s*/i

  /** The positions `[start, end)` of a match or of a capture group. */
  datatype Span = Span(start: nat, end: nat)

  predicate IsTypeDigit(c: char) {
    c == '1' || c == '2' || c == '4' || c == '8'
  }

  /** `\s*-?\s*` (equally `\s*(-\s*)?`) from `i`. The first run of whitespace is taken
   *  whole, since a shorter run leaves a space where the hyphen would have to be. */
  function SeparatorEnd(s: string, i: nat): (j: nat)
    requires i <= |s|
    ensures i <= j <= |s|
  {
    var a := SkipSpaces(s, i);
    if a < |s| && s[a] == '-' then SkipSpaces(s, a + 1) else a
  }

  /** A clock reading of the calendar: one or two digits, a colon, two digits. */
  predicate IsClock(t: string) {
    || (|t| == 4 && IsDigit(t[0]) && t[1] == ':' && IsDigit(t[2]) && IsDigit(t[3]))
    || (|t| == 5 && IsDigit(t[0]) && IsDigit(t[1]) && t[2] == ':' && IsDigit(t[3]) && IsDigit(t[4]))
  }

  /** `\d{1,2}:\d{2}` at `k`. Two digits are taken when there are two: with only one, the
   *  colon would have to stand where the second digit is. */
  function ClockEnd(s: string, k: nat): (r: Option<nat>)
    ensures r.Some? ==> k + 4 <= r.value <= k + 5 && r.value <= |s|
  {
    if k < |s| && IsDigit(s[k]) then
      var c := if k + 1 < |s| && IsDigit(s[k + 1]) then k + 2 else k + 1;
      if c + 2 < |s| && s[c] == ':' && IsDigit(s[c + 1]) && IsDigit(s[c + 2]) then Some(c + 3) else None
    else None
  }

  /** The two capture groups of `TimeRange` when it matches at `k`. The runs of whitespace
   *  around the hyphen are taken whole: what follows each is a hyphen or a digit. */
  function TimeRangeAt(s: string, k: nat): (r: Option<(Span, Span)>)
    ensures r.Some? ==> k == r.value.0.start < r.value.0.end < r.value.1.start < r.value.1.end <= |s|
  {
    match ClockEnd(s, k)
    case None => None
    case Some(c1) =>
      var a := SkipSpaces(s, c1);
      if a < |s| && s[a] == '-' then
        var b := SkipSpaces(s, a + 1);
        match ClockEnd(s, b)
        case None => None
        case Some(c2) => Some((Span(k, c1), Span(b, c2)))
      else None
  }

  /** Both captures of a time range are clock readings. */
  lemma TimeRangeCapturesClocks(s: string, k: nat)
    ensures TimeRangeAt(s, k).Some? ==>
              var spans := TimeRangeAt(s, k).value;
              IsClock(s[spans.0.start..spans.0.end]) && IsClock(s[spans.1.start..spans.1.end])
  {
    if TimeRangeAt(s, k).Some? {
      var spans := TimeRangeAt(s, k).value;
      ClockShape(s, spans.0.start);
      ClockShape(s, spans.1.start);
    }
  }

  lemma ClockShape(s: string, k: nat)
    ensures ClockEnd(s, k).Some? ==> IsClock(s[k..ClockEnd(s, k).value])
  {
  }

  /** Where the match of `p` that starts at position `k` of `s` ends, if there is one. */
  function MatchEnd(p: Pattern, s: string, k: nat): (r: Option<nat>)
    ensures r.Some? ==> k < r.value <= |s|
  {
    match p
    case BoatType =>
      if k == 0 && |s| >= 2 && IsTypeDigit(s[0]) && s[1] == 'X' then Some(2) else None
    case Racer =>
      if LiteralAtIgnoringCase(s, k, "racer") then Some(k + 5) else None
    case RtWord =>
      if Boundary(s, k) && LiteralAtIgnoringCase(s, k, "rt") && Boundary(s, k + 2) then Some(k + 2) else None
    case Weight =>
      // A shorter digit run is followed by a digit and a shorter run of whitespace by a
      // space, and neither can begin `KG`: only the greedy reading can succeed.
      if k < |s| && IsDigit(s[k]) then
        var m := SkipSpaces(s, SkipDigits(s, k));
        if LiteralAtIgnoringCase(s, m, "kg") then Some(m + 2) else None
      else None
    case Nickname =>
      // `[^)]+` runs up to the first `)`; whatever leading whitespace `\s*` leaves it, it
      // needs one character before that `)`.
      if k < |s| && s[k] == '(' then
        (match IndexOf(s, ')', k + 1)
         case Some(c) => if c > k + 1 then Some(c + 1) else None
         case None => None)
      else None
    case TypeCleanup =>
      if k == 0 && |s| >= 2 && IsTypeDigit(s[0]) && Lower(s[1]) == 'x' then Some(SeparatorEnd(s, 2)) else None
    case RacerCleanup =>
      if Boundary(s, k) && LiteralAtIgnoringCase(s, k, "racer") && Boundary(s, k + 5) then
        Some(SeparatorEnd(s, k + 5))
      else None
    case ClassCleanup =>
      // The alternatives are tried in order, `RT` before `T`; they cannot both fit at `k`.
      if Boundary(s, k) && LiteralAtIgnoringCase(s, k, "rt") && Boundary(s, k + 2) then
        Some(SeparatorEnd(s, k + 2))
      else if Boundary(s, k) && LiteralAtIgnoringCase(s, k, "t") && Boundary(s, k + 1) then
        Some(SeparatorEnd(s, k + 1))
      else None
    case ParenCleanup =>
      if k < |s| && s[k] == '(' then
        (match IndexOf(s, ')', k + 1)
         case Some(c) => Some(c + 1)
         case None => None)
      else None
    case CalendarId =>
      if LiteralAt(s, k, "/calendar/") && k + 10 < |s| && IsDigit(s[k + 10]) then
        Some(SkipDigits(s, k + 10))
      else None
    case TimeRange =>
      (match TimeRangeAt(s, k)
       case Some((_, second)) => Some(second.end)
       case None => None)
    case BookedBy =>
      if k == 0 && LiteralAtIgnoringCase(s, 0, "booked by") then Some(SkipSpaces(s, 9)) else None
  }

  /** The leftmost match of `p` that starts at or after `i`. */
  function Search(p: Pattern, s: string, i: nat): (r: Option<Span>)
    ensures r.Some? ==> i <= r.value.start < r.value.end <= |s|
    ensures r.Some? ==> MatchEnd(p, s, r.value.start) == Some(r.value.end)
    ensures r.Some? ==> forall k :: i <= k < r.value.start ==> MatchEnd(p, s, k).None?
    ensures r.None? ==> forall k :: i <= k ==> MatchEnd(p, s, k).None?
  {
    var r := FirstMatch(Matcher(p, s), |s|, i);
    FirstMatchIsLeftmost(p, s, i, r);
    r
  }

  lemma FirstMatchIsLeftmost(p: Pattern, s: string, i: nat, r: Option<Span>)
    requires r == FirstMatch(Matcher(p, s), |s|, i)
    ensures r.Some? ==> i <= r.value.start < r.value.end <= |s|
    ensures r.Some? ==> MatchEnd(p, s, r.value.start) == Some(r.value.end)
    ensures r.Some? ==> forall k :: i <= k < r.value.start ==> MatchEnd(p, s, k).None?
    ensures r.None? ==> forall k :: i <= k ==> MatchEnd(p, s, k).None?
  {
    if r.Some? {
      assert Matcher(p, s)(r.value.start) == MatchEnd(p, s, r.value.start);
      forall k: nat | i <= k < r.value.start
        ensures MatchEnd(p, s, k).None?
      {
        assert Matcher(p, s)(k) == MatchEnd(p, s, k);
      }
    } else {
      forall k: nat | i <= k
        ensures MatchEnd(p, s, k).None?
      {
        if k < |s| {
          assert Matcher(p, s)(k) == MatchEnd(p, s, k);
        }
      }
    }
  }

  /** Where each match of `p` in `s` ends, by its start. */
  function Matcher(p: Pattern, s: string): nat -> Option<nat> {
    (k: nat) => MatchEnd(p, s, k)
  }

  /** The first start from `i` on, below `n`, at which `m` reports a match, tried one
   *  position after the other. */
  function FirstMatch(m: nat -> Option<nat>, n: nat, i: nat): (r: Option<Span>)
    ensures r.Some? ==> i <= r.value.start < n && m(r.value.start) == Some(r.value.end)
    ensures r.Some? ==> forall k: nat :: i <= k < r.value.start ==> m(k).None?
    ensures r.None? ==> forall k: nat :: i <= k < n ==> m(k).None?
    decreases n - i
  {
    if i >= n then None
    else
      match m(i)
      case Some(e) => Some(Span(i, e))
      case None => FirstMatch(m, n, i + 1)
  }

  /** `s.match(p)` for a pattern without the `g` flag. */
  function Find(p: Pattern, s: string): Option<Span> {
    Search(p, s, 0)
  }

  /** `s.replace(p, '')`: `s` without the leftmost match of `p`. */
  function ReplaceFirst(p: Pattern, s: string): string {
    match Find(p, s)
    case None => s
    case Some(m) => s[..m.start] + s[m.end..]
  }

  /** Any way of reading `(\d+)\s*KG` at `k`: digits on `[k, j)`, whitespace on `[j, m)`,
   *  then the letters `KG` in either case. */
  ghost predicate WeightReading(s: string, k: nat, j: nat, m: nat) {
    && k < j <= m
    && (forall x :: k <= x < j ==> x < |s| && IsDigit(s[x]))
    && (forall x :: j <= x < m ==> x < |s| && IsSpace(s[x]))
    && LiteralAtIgnoringCase(s, m, "kg")
  }

  /** The weight pattern matches at `k` exactly when some reading of it fits there, and
   *  that reading is unique: its digit capture is the whole digit run at `k`. */
  lemma WeightReadingIsUnique(s: string, k: nat)
    ensures MatchEnd(Weight, s, k).Some? <==> exists j, m :: WeightReading(s, k, j, m)
    ensures forall j, m :: WeightReading(s, k, j, m) ==>
              j == SkipDigits(s, k) && MatchEnd(Weight, s, k) == Some(m + 2)
  {
    forall j: nat, m: nat | WeightReading(s, k, j, m)
      ensures j == SkipDigits(s, k) && MatchEnd(Weight, s, k) == Some(m + 2)
    {
      KgIsNoDigitOrSpace(s, m);
      assert j < m ==> IsSpace(s[j]);
      SkipDigitsStopsAt(s, k, j);
      SkipSpacesStopsAt(s, j, m);
    }
    if MatchEnd(Weight, s, k).Some? {
      var d := SkipDigits(s, k);
      assert WeightReading(s, k, d, SkipSpaces(s, d));
    }
  }

  /** The `K` of `KG` ends both the digit run and the whitespace run before it. */
  lemma KgIsNoDigitOrSpace(s: string, m: nat)
    requires LiteralAtIgnoringCase(s, m, "kg")
    ensures m < |s| && !IsDigit(s[m]) && !IsSpace(s[m])
  {
    assert Lower(s[m + 0]) == "kg"[0] == 'k';
  }
}
