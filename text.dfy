/** Characters and strings as the scrapers' JavaScript sees them: the classes `\d`, `\s`
 *  and `\w` of ECMAScript regular expressions, `String.prototype.trim`, ASCII case
 *  folding, and decimal numerals. */
module Text {
  import opened Options

  /** `\d`: an ASCII decimal digit. */
  predicate IsDigit(c: char) {
    '0' <= c <= '9'
  }

  /** `\s`, which is also what `trim()` removes: ECMAScript WhiteSpace and LineTerminator. */
  predicate IsSpace(c: char) {
    || c == '\t' || c == '\n' || c == '\U{000B}' || c == '\U{000C}' || c == '\r' || c == ' '
    || c == '\U{00A0}' || c == '\U{1680}' || '\U{2000}' <= c <= '\U{200A}'
    || c == '\U{2028}' || c == '\U{2029}' || c == '\U{202F}' || c == '\U{205F}'
    || c == '\U{3000}' || c == '\U{FEFF}'
  }

  /** `\w`: an ASCII letter, digit or underscore. */
  predicate IsWordChar(c: char) {
    'a' <= c <= 'z' || 'A' <= c <= 'Z' || IsDigit(c) || c == '_'
  }

  /** ASCII lower-casing. A regular expression with the `i` flag (and no `u` flag) never
   *  folds a non-ASCII character onto an ASCII one, so on the ASCII patterns used here it
   *  compares exactly by this function. */
  function Lower(c: char): char {
    if 'A' <= c <= 'Z' then (c as int + 32) as char else c
  }

  function ToLower(s: string): (r: string)
    ensures |r| == |s|
    ensures forall i :: 0 <= i < |s| ==> r[i] == Lower(s[i])
  {
    if s == [] then [] else [Lower(s[0])] + ToLower(s[1..])
  }

  predicate AllDigits(s: string) {
    forall i :: 0 <= i < |s| ==> IsDigit(s[i])
  }

  predicate AllSpaces(s: string) {
    forall i :: 0 <= i < |s| ==> IsSpace(s[i])
  }

  /** `s` spells `lit` from position `i` on. */
  predicate LiteralAt(s: string, i: nat, lit: string) {
    i + |lit| <= |s| && s[i..i + |lit|] == lit
  }

  /** `s` spells `lit` (written in lower case) from position `i` on, ignoring ASCII case. */
  predicate LiteralAtIgnoringCase(s: string, i: nat, lit: string) {
    i + |lit| <= |s| && forall k :: 0 <= k < |lit| ==> Lower(s[i + k]) == lit[k]
  }

  /** `String.prototype.includes`. */
  predicate Contains(s: string, part: string) {
    exists i :: 0 <= i <= |s| - |part| && LiteralAt(s, i, part)
  }

  /** The character at `p` exists and is a word character. */
  predicate WordAt(s: string, p: int) {
    0 <= p < |s| && IsWordChar(s[p])
  }

  /** `\b`: position `p` lies between a word character and a non-word character (the
   *  outside of the string counting as non-word). */
  predicate Boundary(s: string, p: int) {
    WordAt(s, p - 1) != WordAt(s, p)
  }

  /** Greedy `\s*` from `i`: the end of the run of whitespace that starts there. */
  function SkipSpaces(s: string, i: nat): (j: nat)
    requires i <= |s|
    ensures i <= j <= |s|
    ensures forall k :: i <= k < j ==> IsSpace(s[k])
    ensures j == |s| || !IsSpace(s[j])
    decreases |s| - i
  {
    if i < |s| && IsSpace(s[i]) then SkipSpaces(s, i + 1) else i
  }

  /** Greedy `\d*` from `i`: the end of the run of digits that starts there. */
  function SkipDigits(s: string, i: nat): (j: nat)
    requires i <= |s|
    ensures i <= j <= |s|
    ensures forall k :: i <= k < j ==> IsDigit(s[k])
    ensures j == |s| || !IsDigit(s[j])
    decreases |s| - i
  {
    if i < |s| && IsDigit(s[i]) then SkipDigits(s, i + 1) else i
  }

  /** A run of digits that stops where `j` is not a digit is the run `SkipDigits` finds. */
  lemma {:induction false} SkipDigitsStopsAt(s: string, i: nat, j: nat)
    requires i <= j <= |s|
    requires forall k :: i <= k < j ==> IsDigit(s[k])
    requires j == |s| || !IsDigit(s[j])
    ensures SkipDigits(s, i) == j
    decreases j - i
  {
    if i < j {
      SkipDigitsStopsAt(s, i + 1, j);
    }
  }

  /** A run of whitespace that stops where `j` is not whitespace is the run `SkipSpaces` finds. */
  lemma {:induction false} SkipSpacesStopsAt(s: string, i: nat, j: nat)
    requires i <= j <= |s|
    requires forall k :: i <= k < j ==> IsSpace(s[k])
    requires j == |s| || !IsSpace(s[j])
    ensures SkipSpaces(s, i) == j
    decreases j - i
  {
    if i < j {
      SkipSpacesStopsAt(s, i + 1, j);
    }
  }

  /** `s.indexOf(c, i)`: the first position at or after `i` holding `c`. */
  function IndexOf(s: string, c: char, i: nat): (r: Option<nat>)
    ensures r.Some? ==> i <= r.value < |s| && s[r.value] == c
    ensures r.Some? ==> forall k :: i <= k < r.value ==> s[k] != c
    ensures r.None? ==> forall k :: i <= k < |s| ==> s[k] != c
    decreases |s| - i
  {
    if i >= |s| then None
    else if s[i] == c then Some(i)
    else IndexOf(s, c, i + 1)
  }

  /** `s` without its trailing whitespace. */
  function TrimEnd(s: string): (r: string)
    ensures |r| <= |s| && r == s[..|r|]
    ensures AllSpaces(s[|r|..])
    ensures r == [] || !IsSpace(r[|r| - 1])
  {
    if s != [] && IsSpace(s[|s| - 1]) then
      var r := TrimEnd(s[..|s| - 1]);
      assert s[|r|..] == s[..|s| - 1][|r|..] + [s[|s| - 1]];
      r
    else s
  }

  /** `String.prototype.trim`: the part of `s` between its leading and its trailing
   *  whitespace. */
  function Trim(s: string): (r: string)
    ensures var i := SkipSpaces(s, 0);
            i + |r| <= |s| && r == s[i..i + |r|] && AllSpaces(s[..i]) && AllSpaces(s[i + |r|..])
    ensures r == [] || (!IsSpace(r[0]) && !IsSpace(r[|r| - 1]))
    ensures r == [] <==> AllSpaces(s)
  {
    var i := SkipSpaces(s, 0);
    var r := TrimEnd(s[i..]);
    assert s[i + |r|..] == s[i..][|r|..];
    r
  }

  /** Leading whitespace makes no difference to `trim()`. */
  lemma TrimSkipsLeadingSpaces(s: string, i: nat)
    requires i <= |s|
    ensures Trim(s[SkipSpaces(s, i)..]) == Trim(s[i..])
  {
    var j := SkipSpaces(s, i);
    var x, y := s[i..], s[j..];
    forall k | 0 <= k < j - i
      ensures IsSpace(x[k])
    {
      assert x[k] == s[i + k];
    }
    assert j - i == |x| || x[j - i] == s[j];
    SkipSpacesStopsAt(x, 0, j - i);
    SkipSpacesStopsAt(y, 0, 0);
    assert x[j - i..] == y && y[0..] == y;
    TrimIsTrimEnd(x);
    TrimIsTrimEnd(y);
  }

  lemma TrimIsTrimEnd(s: string)
    ensures Trim(s) == TrimEnd(s[SkipSpaces(s, 0)..])
  {
  }

  /** A string with no whitespace at either end is its own `trim()`. */
  lemma TrimOfTrimmed(s: string)
    requires s == [] || (!IsSpace(s[0]) && !IsSpace(s[|s| - 1]))
    ensures Trim(s) == s
  {
    if s != [] {
      SkipSpacesStopsAt(s, 0, 0);
      assert s[0..] == s;
    }
  }

  /** `s` without any whitespace character: what survives every whitespace edit. */
  function RemoveSpaces(s: string): string {
    if s == [] then []
    else (if IsSpace(s[0]) then [] else [s[0]]) + RemoveSpaces(s[1..])
  }

  lemma {:induction false} RemoveSpacesAppend(a: string, b: string)
    ensures RemoveSpaces(a + b) == RemoveSpaces(a) + RemoveSpaces(b)
    decreases |a|
  {
    if a == [] {
      assert a + b == b;
    } else {
      assert (a + b)[0] == a[0];
      assert (a + b)[1..] == a[1..] + b;
      RemoveSpacesAppend(a[1..], b);
    }
  }

  lemma {:induction false} RemoveSpacesOfSpaces(s: string)
    requires AllSpaces(s)
    ensures RemoveSpaces(s) == []
    decreases |s|
  {
    if s != [] {
      RemoveSpacesOfSpaces(s[1..]);
    }
  }

  /** Trimming removes whitespace only. */
  lemma TrimKeepsNonSpaces(s: string)
    ensures RemoveSpaces(Trim(s)) == RemoveSpaces(s)
  {
    var i := SkipSpaces(s, 0);
    var r := Trim(s);
    assert s == s[..i] + r + s[i + |r|..];
    RemoveSpacesAppend(s[..i] + r, s[i + |r|..]);
    RemoveSpacesAppend(s[..i], r);
    RemoveSpacesOfSpaces(s[..i]);
    RemoveSpacesOfSpaces(s[i + |r|..]);
  }

  /** Every whitespace character of `s` is a plain space, and no two are adjacent. */
  predicate SingleSpaced(s: string) {
    && (forall k :: 0 <= k < |s| && IsSpace(s[k]) ==> s[k] == ' ')
    && (forall k :: 0 <= k < |s| - 1 ==> !(IsSpace(s[k]) && IsSpace(s[k + 1])))
  }

  /** `s.replace(/\s+/g, ' ')`: every maximal run of whitespace becomes one space, and
   *  nothing else changes. */
  function CollapseSpaces(s: string): (r: string)
    ensures (r == []) == (s == [])
    ensures r != [] ==> (IsSpace(r[0]) <==> IsSpace(s[0]))
    ensures SingleSpaced(r)
    ensures RemoveSpaces(r) == RemoveSpaces(s)
    decreases |s|
  {
    if s == [] then []
    else if IsSpace(s[0]) then
      var j := SkipSpaces(s, 0);
      var rest := CollapseSpaces(s[j..]);
      assert s == s[..j] + s[j..];
      RemoveSpacesAppend(s[..j], s[j..]);
      RemoveSpacesOfSpaces(s[..j]);
      assert ([' '] + rest)[1..] == rest;
      [' '] + rest
    else
      var rest := CollapseSpaces(s[1..]);
      assert ([s[0]] + rest)[1..] == rest;
      [s[0]] + rest
  }

  /** A character missing from `s` is missing from its `trim()`. */
  lemma TrimKeepsAbsent(s: string, c: char)
    requires forall x :: 0 <= x < |s| ==> s[x] != c
    ensures forall x :: 0 <= x < |Trim(s)| ==> Trim(s)[x] != c
  {
    var r, i := Trim(s), SkipSpaces(s, 0);
    forall x | 0 <= x < |r|
      ensures r[x] != c
    {
      assert r[x] == s[i + x];
    }
  }

  /** Collapsing the whitespace of `s` and trimming the ends leaves a text with no
   *  whitespace at either end, no whitespace but single spaces, and the same other
   *  characters in the same order. */
  lemma CollapsedAndTrimmed(s: string)
    ensures var r := Trim(CollapseSpaces(s));
            && (r == [] || (!IsSpace(r[0]) && !IsSpace(r[|r| - 1])))
            && SingleSpaced(r)
            && RemoveSpaces(r) == RemoveSpaces(s)
  {
    var c := CollapseSpaces(s);
    assert RemoveSpaces(c) == RemoveSpaces(s);
    TrimKeepsNonSpaces(c);
    TrimKeepsSingleSpaces(c);
  }

  /** A word: a non-empty run of characters none of which is whitespace. */
  predicate IsWord(w: string) {
    w != [] && forall x :: 0 <= x < |w| ==> !IsSpace(w[x])
  }

  /** The words of `s`: its maximal runs of non-whitespace characters, in order. A
   *  character that is not whitespace extends the word that follows it when the next
   *  character is not whitespace either, and starts a word of its own otherwise. */
  function Words(s: string): (ws: seq<string>)
    ensures s != [] && !IsSpace(s[0]) ==> ws != []
    ensures forall k :: 0 <= k < |ws| ==> IsWord(ws[k])
    decreases |s|
  {
    if s == [] then []
    else if IsSpace(s[0]) then Words(s[1..])
    else
      var rest := Words(s[1..]);
      if |s| > 1 && !IsSpace(s[1]) then [[s[0]] + rest[0]] + rest[1..]
      else [[s[0]]] + rest
  }

  /** The words `ws` with one space between each two. */
  function JoinWords(ws: seq<string>): string {
    if ws == [] then []
    else if |ws| == 1 then ws[0]
    else ws[0] + " " + JoinWords(ws[1..])
  }

  /** Whitespace in front of a text does not change its words. */
  lemma {:induction false} WordsAfterSpaces(sp: string, t: string)
    requires AllSpaces(sp)
    ensures Words(sp + t) == Words(t)
    decreases |sp|
  {
    if sp == [] {
      assert sp + t == t;
    } else {
      assert (sp + t)[0] == sp[0];
      assert (sp + t)[1..] == sp[1..] + t;
      WordsAfterSpaces(sp[1..], t);
    }
  }

  /** Whitespace behind a text does not change its words. */
  lemma {:induction false} WordsBeforeSpaces(x: string, sp: string)
    requires AllSpaces(sp)
    ensures Words(x + sp) == Words(x)
    decreases |x|
  {
    if x == [] {
      assert x + sp == sp;
      assert sp + [] == sp;
      WordsAfterSpaces(sp, []);
    } else {
      assert (x + sp)[0] == x[0];
      assert (x + sp)[1..] == x[1..] + sp;
      WordsBeforeSpaces(x[1..], sp);
      if |x| == 1 {
        assert x[1..] == [];
        assert |x + sp| > 1 ==> IsSpace((x + sp)[1]);
      } else {
        assert (x + sp)[1] == x[1];
      }
    }
  }

  /** A word followed by nothing or by whitespace is the first word. */
  lemma {:induction false} WordsOfWordThen(w: string, t: string)
    requires IsWord(w)
    requires t == [] || IsSpace(t[0])
    ensures Words(w + t) == [w] + Words(t)
    decreases |w|
  {
    assert (w + t)[0] == w[0];
    assert (w + t)[1..] == w[1..] + t;
    if |w| == 1 {
      assert w[1..] + t == t;
      assert w == [w[0]];
    } else {
      assert (w + t)[1] == w[1];
      WordsOfWordThen(w[1..], t);
      assert [w[0]] + w[1..] == w;
    }
  }

  /** Trimming keeps the words. */
  lemma TrimKeepsWords(s: string)
    ensures Words(Trim(s)) == Words(s)
  {
    var i := SkipSpaces(s, 0);
    var r := Trim(s);
    assert s == s[..i] + (r + s[i + |r|..]);
    WordsAfterSpaces(s[..i], r + s[i + |r|..]);
    WordsBeforeSpaces(r, s[i + |r|..]);
  }

  /** Collapsing whitespace keeps the words. */
  lemma {:induction false} CollapseKeepsWords(s: string)
    ensures Words(CollapseSpaces(s)) == Words(s)
    decreases |s|
  {
    if s != [] {
      if IsSpace(s[0]) {
        var j := SkipSpaces(s, 0);
        CollapseKeepsWords(s[j..]);
        assert s == s[..j] + s[j..];
        WordsAfterSpaces(s[..j], s[j..]);
        WordsAfterSpaces([' '], CollapseSpaces(s[j..]));
      } else {
        var c := CollapseSpaces(s[1..]);
        CollapseKeepsWords(s[1..]);
        assert ([s[0]] + c)[1..] == c;
        assert |s| > 1 ==> s[1..][0] == s[1];
      }
    }
  }

  /** A text with no whitespace at either end and only single spaces between is its
   *  words joined by one space. */
  lemma {:induction false} JoinedWordsOfSpaced(r: string)
    requires r == [] || (!IsSpace(r[0]) && !IsSpace(r[|r| - 1]))
    requires SingleSpaced(r)
    ensures JoinWords(Words(r)) == r
    decreases |r|
  {
    if r != [] {
      var j := IndexOfSpace(r);
      var w := r[..j];
      FirstWord(r);
      if j == |r| {
        assert w == r;
        WordsOfWordThen(r, []);
        assert r + [] == r;
      } else {
        var t := r[j + 1..];
        WordsSplitAtSpace(r, j);
        SpacedAfterFirstWord(r, j);
        JoinedWordsOfSpaced(t);
        JoinWordsCons(w, Words(t));
        RejoinAtSpace(r, j);
      }
    }
  }

  /** A text is what comes before a space, that space, and what comes after it. */
  lemma RejoinAtSpace(r: string, j: nat)
    requires j < |r| && r[j] == ' '
    ensures r == r[..j] + " " + r[j + 1..]
  {
  }

  /** A word ended by whitespace is the first word; the rest come after that whitespace. */
  lemma WordsSplitAtSpace(r: string, j: nat)
    requires j < |r| && IsSpace(r[j]) && IsWord(r[..j])
    ensures Words(r) == [r[..j]] + Words(r[j + 1..])
  {
    var t := r[j + 1..];
    assert r == r[..j] + ([r[j]] + t);
    WordsOfWordThen(r[..j], [r[j]] + t);
    assert ([r[j]] + t)[1..] == t;
  }

  /** The text before the first whitespace of a text that starts with a non-space is a word. */
  lemma FirstWord(r: string)
    requires r != [] && !IsSpace(r[0])
    ensures IsWord(r[..IndexOfSpace(r)])
  {
    var w := r[..IndexOfSpace(r)];
    forall x | 0 <= x < |w|
      ensures !IsSpace(w[x])
    {
      assert w[x] == r[x];
    }
  }

  /** After the first space of a single-spaced text with no whitespace at its ends comes
   *  such a text again, and it is not empty. */
  lemma SpacedAfterFirstWord(r: string, j: nat)
    requires r != [] && !IsSpace(r[0]) && !IsSpace(r[|r| - 1])
    requires SingleSpaced(r)
    requires j < |r| && IsSpace(r[j])
    ensures var t := r[j + 1..];
            && t != [] && !IsSpace(t[0]) && !IsSpace(t[|t| - 1])
            && SingleSpaced(t)
            && r[j] == ' '
  {
    var t := r[j + 1..];
    assert j + 1 < |r|;
    assert t[0] == r[j + 1];
    assert t[|t| - 1] == r[|r| - 1];
    forall k | 0 <= k < |t| && IsSpace(t[k])
      ensures t[k] == ' '
    {
      assert t[k] == r[j + 1 + k];
    }
    forall k | 0 <= k < |t| - 1
      ensures !(IsSpace(t[k]) && IsSpace(t[k + 1]))
    {
      assert t[k] == r[j + 1 + k] && t[k + 1] == r[j + 1 + k + 1];
    }
  }

  /** Joining a word in front of some words puts one space after it. */
  lemma JoinWordsCons(w: string, ws: seq<string>)
    requires ws != []
    ensures JoinWords([w] + ws) == w + " " + JoinWords(ws)
  {
    assert ([w] + ws)[1..] == ws;
  }

  /** The index of the first whitespace character of `s`, or `|s|` when there is none. */
  function IndexOfSpace(s: string): (j: nat)
    ensures j <= |s|
    ensures forall k :: 0 <= k < j ==> !IsSpace(s[k])
    ensures j < |s| ==> IsSpace(s[j])
    decreases |s|
  {
    if s == [] || IsSpace(s[0]) then 0
    else 1 + IndexOfSpace(s[1..])
  }

  /** `s.replace(/\s+/g, ' ').trim()` is the words of `s` joined by single spaces. */
  lemma CollapseTrimJoinsWords(s: string)
    ensures Trim(CollapseSpaces(s)) == JoinWords(Words(s))
  {
    var r := Trim(CollapseSpaces(s));
    CollapsedAndTrimmed(s);
    JoinedWordsOfSpaced(r);
    TrimKeepsWords(CollapseSpaces(s));
    CollapseKeepsWords(s);
  }

  /** Trimming a text whose whitespace is single spaces keeps it so. */
  lemma TrimKeepsSingleSpaces(c: string)
    requires SingleSpaced(c)
    ensures SingleSpaced(Trim(c))
  {
    var r := Trim(c);
    var i := SkipSpaces(c, 0);
    assert r == c[i..i + |r|];
    forall x | 0 <= x < |r| && IsSpace(r[x])
      ensures r[x] == ' '
    {
      assert r[x] == c[i + x];
    }
    forall x | 0 <= x < |r| - 1
      ensures !(IsSpace(r[x]) && IsSpace(r[x + 1]))
    {
      assert r[x] == c[i + x] && r[x + 1] == c[i + x + 1];
    }
  }

  /** The decimal digit character of `d`. */
  function DigitChar(d: nat): (c: char)
    requires d < 10
    ensures IsDigit(c) && (c as int) - ('0' as int) == d
  {
    (('0' as int) + d) as char
  }

  /** `String(n)` for a natural number: its decimal numeral without leading zeros. */
  function NatToDecimal(n: nat): (r: string)
    ensures |r| >= 1 && AllDigits(r)
    ensures n >= 10 ==> r[0] != '0'
  {
    if n < 10 then [DigitChar(n)] else NatToDecimal(n / 10) + [DigitChar(n % 10)]
  }

  /** `String(n)` for any integer: a minus sign before the numeral of a negative number. */
  function IntToDecimal(n: int): string {
    if n < 0 then "-" + NatToDecimal(-n) else NatToDecimal(n)
  }

  /** The value of a string of decimal digits, read left to right. */
  function DecimalValue(s: string): nat
    requires AllDigits(s)
  {
    if s == [] then 0
    else DecimalValue(s[..|s| - 1]) * 10 + ((s[|s| - 1] as int) - ('0' as int))
  }

  /** Reading a numeral back gives the number it was written from. */
  lemma {:induction false} DecimalRoundTrip(n: nat)
    ensures DecimalValue(NatToDecimal(n)) == n
  {
    if n >= 10 {
      var r := NatToDecimal(n);
      assert r[..|r| - 1] == NatToDecimal(n / 10);
      DecimalRoundTrip(n / 10);
    }
  }
}
