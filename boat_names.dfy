/** `parseBoatName`: the club's free-text boat names, such as
 *  "2X RACER - Swift double/pair 70 KG (Ian Krix)", decoded into a boat type, a
 *  classification, a weight, a nickname and a cleaned display name. The TypeScript asset
 *  service and the JavaScript boat scraper carry the same function line for line; both
 *  use this one model. */
module BoatNames {
  import opened Options
  import opened Text
  import opened Patterns

  /** `1X`, `2X`, `4X`, `8X`, or `Unknown`. */
  datatype BoatType = Single | Double | Quad | Eight | Unknown

  /** The classification letters: `R` (racer), `RT`, or `T`. */
  datatype Classification = R | RT | T

  datatype BoatDetails = BoatDetails(
    boatType: BoatType,
    classification: Classification,
    weight: Option<string>,   // the digits before `KG`, or `null`
    nickname: string,
    displayName: string)

  /** The text the source uses for a boat type. */
  function Label(t: BoatType): string {
    match t
    case Single => "1X"
    case Double => "2X"
    case Quad => "4X"
    case Eight => "8X"
    case Unknown => "Unknown"
  }

  function TypeOfDigit(c: char): (t: BoatType)
    requires IsTypeDigit(c)
    ensures t != Unknown && Label(t) == [c, 'X']
  {
    if c == '1' then Single else if c == '2' then Double else if c == '4' then Quad else Eight
  }

  /** `s` contains `lit` (lower case) somewhere, ignoring ASCII case: `/lit/i`. */
  ghost predicate ContainsIgnoringCase(s: string, lit: string) {
    exists k: nat :: LiteralAtIgnoringCase(s, k, lit)
  }

  /** `s` contains `lit` (lower case) as a whole word, ignoring ASCII case: `/\blit\b/i`. */
  ghost predicate HasWordIgnoringCase(s: string, lit: string) {
    exists k: nat :: Boundary(s, k) && LiteralAtIgnoringCase(s, k, lit) && Boundary(s, k + |lit|)
  }

  /** The type is read from an exact, case-sensitive prefix: `1X`, `2X`, `4X` or `8X`. */
  function TypeOf(name: string): (t: BoatType)
    ensures t != Unknown <==> |name| >= 2 && IsTypeDigit(name[0]) && name[1] == 'X'
    ensures t != Unknown ==> Label(t) == name[..2]
  {
    match Find(BoatType, name)
    case Some(_) => TypeOfDigit(name[0])
    case None => Unknown
  }

  /** `R` as soon as "racer" appears anywhere in any case, even inside a word; otherwise `RT`
   *  when "RT" stands as a word of its own; otherwise `T`. */
  function ClassificationOf(name: string): (c: Classification)
    ensures c == R <==> ContainsIgnoringCase(name, "racer")
    ensures c == RT <==> !ContainsIgnoringCase(name, "racer") && HasWordIgnoringCase(name, "rt")
    ensures c == T <==> !ContainsIgnoringCase(name, "racer") && !HasWordIgnoringCase(name, "rt")
  {
    FindRacer(name);
    FindRt(name);
    if Find(Racer, name).Some? then R
    else if Find(RtWord, name).Some? then RT
    else T
  }

  lemma FindRacer(name: string)
    ensures Find(Racer, name).Some? <==> ContainsIgnoringCase(name, "racer")
  {
    if ContainsIgnoringCase(name, "racer") {
      var k: nat :| LiteralAtIgnoringCase(name, k, "racer");
      assert MatchEnd(Racer, name, k).Some?;
    }
  }

  lemma FindRt(name: string)
    ensures Find(RtWord, name).Some? <==> HasWordIgnoringCase(name, "rt")
  {
    if HasWordIgnoringCase(name, "rt") {
      var k: nat :| Boundary(name, k) && LiteralAtIgnoringCase(name, k, "rt") && Boundary(name, k + 2);
      assert MatchEnd(RtWord, name, k).Some?;
    }
  }

  /** The first capture of `/(\d+)\s*KG/i`: a non-empty run of digits, or nothing. */
  function WeightOf(name: string): (w: Option<string>)
    ensures w.Some? ==> |w.value| > 0 && AllDigits(w.value)
  {
    match Find(Weight, name)
    case Some(m) => Some(name[m.start..SkipDigits(name, m.start)])
    case None => None
  }

  /** Some reading of `(\d+)\s*KG` at `k` captures exactly `w`. */
  ghost predicate WeightCapturedAt(s: string, k: nat, w: string) {
    k + |w| <= |s| && s[k..k + |w|] == w && WeightReadingEndsAt(s, k, k + |w|)
  }

  ghost predicate WeightReadingEndsAt(s: string, k: nat, j: nat) {
    exists m: nat :: WeightReading(s, k, j, m)
  }

  /** The weight is the digit run of the first place where digits, optional whitespace and
   *  `KG` (in any case) follow each other, and there is a weight exactly when there is such
   *  a place. */
  lemma WeightIsFirstReading(name: string)
    ensures WeightOf(name).None? <==> forall k: nat, j: nat, m: nat :: !WeightReading(name, k, j, m)
    ensures WeightOf(name).Some? ==>
              exists k: nat ::
                && WeightCapturedAt(name, k, WeightOf(name).value)
                && forall k': nat, j: nat, m: nat :: k' < k ==> !WeightReading(name, k', j, m)
  {
    WeightMatchIsFirstReading(name);
    if Find(Weight, name).Some? {
      var k := Find(Weight, name).value.start;
      var d := SkipDigits(name, k);
      var w := name[k..d];
      assert WeightOf(name) == Some(w);
      assert WeightReading(name, k, d, SkipSpaces(name, d));
      assert name[k..k + |w|] == w;
      assert WeightCapturedAt(name, k, w);
    }
  }

  /** The weight pattern finds the first place with a reading, and nothing when there is
   *  none; where it matches, the greedy reading fits. */
  lemma WeightMatchIsFirstReading(name: string)
    ensures Find(Weight, name).None? <==> forall k: nat, j: nat, m: nat :: !WeightReading(name, k, j, m)
    ensures Find(Weight, name).Some? ==>
              var k := Find(Weight, name).value.start;
              var d := SkipDigits(name, k);
              && WeightReading(name, k, d, SkipSpaces(name, d))
              && forall k': nat, j: nat, m: nat :: k' < k ==> !WeightReading(name, k', j, m)
  {
    forall k: nat, j: nat, m: nat | WeightReading(name, k, j, m)
      ensures Find(Weight, name).Some? && Find(Weight, name).value.start <= k
    {
      WeightReadingIsUnique(name, k);
    }
    if Find(Weight, name).Some? {
      var k := Find(Weight, name).value.start;
      var d := SkipDigits(name, k);
      WeightReadingIsUnique(name, k);
      assert WeightReading(name, k, d, SkipSpaces(name, d));
      forall k': nat, j: nat, m: nat | k' < k
        ensures !WeightReading(name, k', j, m)
      {
        WeightReadingIsUnique(name, k');
      }
    }
  }

  /** A pair of parentheses from `(` at `k` to the first `)` after it, at `c`. */
  predicate ParenGroup(s: string, k: nat, c: nat) {
    k < c < |s| && s[k] == '(' && s[c] == ')' && forall x :: k < x < c ==> s[x] != ')'
  }

  /** The trimmed text of the first parenthesised group with something between its
   *  parentheses, or `''`. Whitespace counts as something, so a group of blanks yields an
   *  empty nickname and hides any later group. */
  function NicknameOf(name: string): (n: string)
    ensures n == [] || (!IsSpace(n[0]) && !IsSpace(n[|n| - 1]))
    ensures forall x :: 0 <= x < |n| ==> n[x] != ')'
    ensures Find(Nickname, name).Some? ==>
              n == Trim(name[Find(Nickname, name).value.start + 1..Find(Nickname, name).value.end - 1])
  {
    match Find(Nickname, name)
    case Some(m) => GroupText(name, m.start + 1, m.end - 1)
    case None => []
  }

  /** The trimmed text strictly inside a group that holds no `)`. */
  function GroupText(name: string, i: nat, j: nat): (n: string)
    requires i <= j <= |name| && forall x :: i <= x < j ==> name[x] != ')'
    ensures n == Trim(name[i..j])
    ensures forall x :: 0 <= x < |n| ==> n[x] != ')'
  {
    var inner := name[i..j];
    assert forall x :: 0 <= x < |inner| ==> inner[x] == name[i + x];
    TrimKeepsAbsent(inner, ')');
    Trim(inner)
  }

  /** Where a `(` opens a group, the nickname pattern matches there exactly when the group
   *  is not empty, and the match ends just after the group. */
  lemma NicknameMatchAt(name: string, k: nat, c: nat)
    requires ParenGroup(name, k, c)
    ensures MatchEnd(Nickname, name, k) == if c > k + 1 then Some(c + 1) else None
  {
    assert IndexOf(name, ')', k + 1) == Some(c);
  }

  /** The nickname pattern matches only where a group opens. */
  lemma NicknameMatchIsGroup(name: string, k: nat)
    requires MatchEnd(Nickname, name, k).Some?
    ensures ParenGroup(name, k, MatchEnd(Nickname, name, k).value - 1)
  {
  }

  /** A group with at least one character between its parentheses. */
  predicate FilledGroup(s: string, k: nat, c: nat) {
    ParenGroup(s, k, c) && c > k + 1
  }

  /** No group of `s` has anything between its parentheses. */
  ghost predicate NoFilledGroup(s: string) {
    forall k: nat, c: nat :: !FilledGroup(s, k, c)
  }

  /** The filled group from `k` to `c` is the leftmost one. */
  ghost predicate FirstFilled(s: string, k: nat, c: nat) {
    FilledGroup(s, k, c) && forall k': nat, c': nat :: k' < k ==> !FilledGroup(s, k', c')
  }

  /** Without a filled group there is no nickname; otherwise the nickname is the trimmed
   *  inside of the leftmost filled group. */
  lemma NicknameIsFirstGroup(name: string)
    ensures NoFilledGroup(name) ==> NicknameOf(name) == []
    ensures !NoFilledGroup(name) ==>
              exists k: nat, c: nat :: FirstFilled(name, k, c) && NicknameOf(name) == Trim(name[k + 1..c])
  {
    NicknameMatchIsFirstFilled(name);
  }

  /** The nickname pattern finds the leftmost filled group, and nothing when there is none. */
  lemma NicknameMatchIsFirstFilled(name: string)
    ensures Find(Nickname, name).None? <==> NoFilledGroup(name)
    ensures Find(Nickname, name).Some? ==>
              FirstFilled(name, Find(Nickname, name).value.start, Find(Nickname, name).value.end - 1)
  {
    forall k: nat, c: nat | FilledGroup(name, k, c)
      ensures Find(Nickname, name).Some?
    {
      NicknameMatchAt(name, k, c);
    }
    if Find(Nickname, name).Some? {
      var sp := Find(Nickname, name).value;
      var k, c := sp.start, sp.end - 1;
      assert MatchEnd(Nickname, name, k) == Some(c + 1);
      NicknameMatchIsGroup(name, k);
      NicknameMatchAt(name, k, c);
      assert FilledGroup(name, k, c);
      forall k': nat, c': nat | k' < k
        ensures !FilledGroup(name, k', c')
      {
        if FilledGroup(name, k', c') {
          NicknameMatchAt(name, k', c');
        }
      }
    }
  }

  /** The five cleanups, each removing only the leftmost match of its pattern: type prefix
   *  (in any case) with a separator, the word RACER with a separator, the word RT or T with
   *  a separator, a weight, a parenthesised group. */
  function Stripped(name: string): string {
    ReplaceFirst(ParenCleanup,
      ReplaceFirst(Weight,
        ReplaceFirst(ClassCleanup,
          ReplaceFirst(RacerCleanup,
            ReplaceFirst(TypeCleanup, name)))))
  }

  /** The display name: what the cleanups leave, with every run of whitespace turned into
   *  one space and the ends trimmed, that is, the words left joined by single spaces. */
  function DisplayNameOf(name: string): (r: string)
    ensures r == [] || (!IsSpace(r[0]) && !IsSpace(r[|r| - 1]))
    ensures SingleSpaced(r)
    ensures RemoveSpaces(r) == RemoveSpaces(Stripped(name))
    ensures r == JoinWords(Words(Stripped(name)))
  {
    var s := Stripped(name);
    CollapsedAndTrimmed(s);
    CollapseTrimJoinsWords(s);
    Trim(CollapseSpaces(s))
  }

  /** The five parts of a boat name, each read from the untouched name. */
  function ParseBoatName(name: string): BoatDetails {
    BoatDetails(TypeOf(name), ClassificationOf(name), WeightOf(name), NicknameOf(name), DisplayNameOf(name))
  }

  /** Only an upper-case `X` makes a type, but the cleanup strips a lower-case one too: a
   *  name such as "2x - Hunter" has type `Unknown` and still loses its prefix. */
  lemma TypeStrippingIgnoresCase(name: string)
    requires |name| >= 2 && IsTypeDigit(name[0]) && name[1] == 'x'
    ensures TypeOf(name) == Unknown
    ensures ReplaceFirst(TypeCleanup, name) == name[SeparatorEnd(name, 2)..]
  {
    assert MatchEnd(TypeCleanup, name, 0) == Some(SeparatorEnd(name, 2));
  }
}
