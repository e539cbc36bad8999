/**
 * The fragment of JavaScript regular expressions the scraped-text normalisers use
 * (character classes, concatenation, alternation, greedy `?` and `*`, and `\b`),
 * with the backtracking engine's order of trying alternatives, `exec`'s leftmost
 * search and `String.prototype.match` with and without the `g` flag.
 */
module Regex {
  import opened Wrappers
  import opened Text

  /** A character class, without the `u` flag. */
  datatype CharClass =
    | Digit                          // \d
    | Space                          // \s, the white space of `trim`
    | Lit(c: char)                   // the character itself
    | NoCase(c: char)                // an ASCII letter under the `i` flag
    | Either(a: CharClass, b: CharClass)

  predicate InClass(cc: CharClass, x: char) {
    match cc
    case Digit => IsDigit(x)
    case Space => IsSpace(JsSpaces, x)
    case Lit(c) => x == c
    case NoCase(c) => UpperChar(x) == UpperChar(c)
    case Either(a, b) => InClass(a, x) || InClass(b, x)
  }

  datatype Re =
    | Char(cc: CharClass)
    | Cat(a: Re, b: Re)
    | Alt(a: Re, b: Re)
    | Opt(a: Re)                     // greedy `?`
    | Star(a: Re)                    // greedy `*`
    | WordBoundary                   // \b

  /** `\w` without the `u` flag. */
  predicate IsWordChar(c: char) {
    'a' <= c <= 'z' || 'A' <= c <= 'Z' || '0' <= c <= '9' || c == '_'
  }

  /** `\b` at position `i`: exactly one of the characters around it is a word character. */
  predicate AtBoundary(s: string, i: nat)
    requires i <= |s|
  {
    (i > 0 && IsWordChar(s[i - 1])) != (i < |s| && IsWordChar(s[i]))
  }

  predicate Within(es: seq<nat>, lo: nat, hi: nat) {
    forall k :: 0 <= k < |es| ==> lo <= es[k] <= hi
  }

  /**
   * Where a match of `r` that starts at `i` can end, in the order the backtracking
   * engine tries them: the first entry is the match it reports, the later ones are
   * what it falls back on when the rest of the pattern fails.
   */
  function Ends(r: Re, s: string, i: nat): (es: seq<nat>)
    requires i <= |s|
    ensures Within(es, i, |s|)
    decreases r, |s| - i, 1
  {
    match r
    case Char(cc) => if i < |s| && InClass(cc, s[i]) then [i + 1] else []
    case Cat(a, b) => CatEnds(Ends(a, s, i), b, s, i)
    case Alt(a, b) => Ends(a, s, i) + Ends(b, s, i)
    case Opt(a) => Ends(a, s, i) + [i]
    case Star(a) => StarEnds(Ends(a, s, i), a, s, i) + [i]
    case WordBoundary => if AtBoundary(s, i) then [i] else []
  }

  /** For each end of the first part, in order, the ends of `b` from there. */
  function CatEnds(es: seq<nat>, b: Re, s: string, lo: nat): (r: seq<nat>)
    requires Within(es, lo, |s|)
    ensures Within(r, lo, |s|)
    decreases b, |s| + 1, 0, |es|
  {
    if es == [] then [] else Ends(b, s, es[0]) + CatEnds(es[1..], b, s, lo)
  }

  /**
   * For each end of one more iteration that consumed something, in order, the ends
   * of further iterations from there; an iteration that matches the empty string
   * is rejected.
   */
  function StarEnds(es: seq<nat>, a: Re, s: string, i: nat): (r: seq<nat>)
    requires i <= |s| && Within(es, i, |s|)
    ensures Within(r, i, |s|)
    decreases Star(a), |s| - i, 0, |es|
  {
    if es == [] then []
    else (if es[0] > i then Ends(Star(a), s, es[0]) else []) + StarEnds(es[1..], a, s, i)
  }

  /** The language of `r`: `s[i..e]` is a match of `r` in the context of `s`. */
  ghost predicate Matches(r: Re, s: string, i: nat, e: nat)
    requires i <= e <= |s|
    decreases r, e - i
  {
    match r
    case Char(cc) => e == i + 1 && InClass(cc, s[i])
    case Cat(a, b) => exists m :: i <= m <= e && Matches(a, s, i, m) && Matches(b, s, m, e)
    case Alt(a, b) => Matches(a, s, i, e) || Matches(b, s, i, e)
    case Opt(a) => e == i || Matches(a, s, i, e)
    case Star(a) => e == i || exists m :: i < m <= e && Matches(a, s, i, m) && Matches(Star(a), s, m, e)
    case WordBoundary => e == i && AtBoundary(s, i)
  }

  lemma {:induction false} CatEndsIn(es: seq<nat>, b: Re, s: string, lo: nat, e: nat)
    requires Within(es, lo, |s|)
    ensures e in CatEnds(es, b, s, lo) <==> exists k :: 0 <= k < |es| && e in Ends(b, s, es[k])
    decreases |es|
  {
    if es != [] {
      CatEndsIn(es[1..], b, s, lo, e);
      if exists k :: 0 <= k < |es[1..]| && e in Ends(b, s, es[1..][k]) {
        var k :| 0 <= k < |es[1..]| && e in Ends(b, s, es[1..][k]);
        assert es[k + 1] == es[1..][k];
      }
      if exists k :: 0 <= k < |es| && e in Ends(b, s, es[k]) {
        var k :| 0 <= k < |es| && e in Ends(b, s, es[k]);
        if k > 0 {
          assert es[1..][k - 1] == es[k];
        }
      }
    }
  }

  lemma {:induction false} StarEndsIn(es: seq<nat>, a: Re, s: string, i: nat, e: nat)
    requires i <= |s| && Within(es, i, |s|)
    ensures e in StarEnds(es, a, s, i) <==>
      exists k :: 0 <= k < |es| && es[k] > i && e in Ends(Star(a), s, es[k])
    decreases |es|
  {
    if es != [] {
      StarEndsIn(es[1..], a, s, i, e);
      if exists k :: 0 <= k < |es[1..]| && es[1..][k] > i && e in Ends(Star(a), s, es[1..][k]) {
        var k :| 0 <= k < |es[1..]| && es[1..][k] > i && e in Ends(Star(a), s, es[1..][k]);
        assert es[k + 1] == es[1..][k];
      }
      if exists k :: 0 <= k < |es| && es[k] > i && e in Ends(Star(a), s, es[k]) {
        var k :| 0 <= k < |es| && es[k] > i && e in Ends(Star(a), s, es[k]);
        if k > 0 {
          assert es[1..][k - 1] == es[k];
        }
      }
    }
  }

  /**
   * The engine is sound and complete for this fragment: `e` is among the ends it
   * tries from `i` exactly when `s[i..e]` is a match of `r`.
   */
  lemma {:induction false} EndsIff(r: Re, s: string, i: nat, e: nat)
    requires i <= e <= |s|
    ensures e in Ends(r, s, i) <==> Matches(r, s, i, e)
    decreases r, e - i
  {
    match r
    case Char(cc) =>
    case Cat(a, b) => CatIff(a, b, s, i, e);
    case Alt(a, b) =>
      EndsIff(a, s, i, e);
      EndsIff(b, s, i, e);
    case Opt(a) =>
      EndsIff(a, s, i, e);
    case Star(a) => StarIff(a, s, i, e);
    case WordBoundary =>
  }

  lemma {:induction false} CatIff(a: Re, b: Re, s: string, i: nat, e: nat)
    requires i <= e <= |s|
    ensures e in Ends(Cat(a, b), s, i) <==> Matches(Cat(a, b), s, i, e)
    decreases Cat(a, b), e - i, 0
  {
    var es := Ends(a, s, i);
    CatEndsIn(es, b, s, i, e);
    if e in Ends(Cat(a, b), s, i) {
      var k :| 0 <= k < |es| && e in Ends(b, s, es[k]);
      var m := es[k];
      assert m <= e by {
        assert Within(Ends(b, s, m), m, |s|);
      }
      EndsIff(a, s, i, m);
      EndsIff(b, s, m, e);
    }
    if Matches(Cat(a, b), s, i, e) {
      CatSplit(a, b, s, i, e);
      var m :| i <= m <= e && Matches(a, s, i, m) && Matches(b, s, m, e);
      EndsIff(a, s, i, m);
      EndsIff(b, s, m, e);
      var k :| 0 <= k < |es| && es[k] == m;
    }
  }

  /** A match of a concatenation splits into a match of each part. */
  lemma CatSplit(a: Re, b: Re, s: string, i: nat, e: nat)
    requires i <= e <= |s| && Matches(Cat(a, b), s, i, e)
    ensures exists m :: i <= m <= e && Matches(a, s, i, m) && Matches(b, s, m, e)
  {
  }

  /** A non-empty match of a star starts with a non-empty iteration. */
  lemma StarSplit(a: Re, s: string, i: nat, e: nat)
    requires i < e <= |s| && Matches(Star(a), s, i, e)
    ensures exists m :: i < m <= e && Matches(a, s, i, m) && Matches(Star(a), s, m, e)
  {
  }

  lemma {:induction false} StarIff(a: Re, s: string, i: nat, e: nat)
    requires i <= e <= |s|
    ensures e in Ends(Star(a), s, i) <==> Matches(Star(a), s, i, e)
    decreases Star(a), e - i, 0
  {
    var es := Ends(a, s, i);
    StarEndsIn(es, a, s, i, e);
    if e in StarEnds(es, a, s, i) {
      var k :| 0 <= k < |es| && es[k] > i && e in Ends(Star(a), s, es[k]);
      var m := es[k];
      assert m <= e by {
        assert Within(Ends(Star(a), s, m), m, |s|);
      }
      EndsIff(a, s, i, m);
      StarIff(a, s, m, e);
    }
    if Matches(Star(a), s, i, e) && e != i {
      StarSplit(a, s, i, e);
      var m :| i < m <= e && Matches(a, s, i, m) && Matches(Star(a), s, m, e);
      EndsIff(a, s, i, m);
      StarIff(a, s, m, e);
      var k :| 0 <= k < |es| && es[k] == m;
    }
  }

  /**
   * `exec` from `lastIndex` `from`: the first position at or after `from` where the
   * pattern matches, with the end of the match the engine reports there.
   */
  function FirstMatch(r: Re, s: string, from: nat): (m: Option<(nat, nat)>)
    requires from <= |s|
    ensures m.Some? ==> var (p, e) := m.value;
      from <= p <= e <= |s| && Ends(r, s, p) != [] && e == Ends(r, s, p)[0] &&
      forall q :: from <= q < p ==> Ends(r, s, q) == []
    ensures m.None? ==> forall q :: from <= q <= |s| ==> Ends(r, s, q) == []
    decreases |s| - from
  {
    var es := Ends(r, s, from);
    if es != [] then Some((from, es[0]))
    else if from == |s| then None
    else FirstMatch(r, s, from + 1)
  }

  /** `s.match(r)` without the `g` flag: the first match's text, if any. */
  function MatchFirst(r: Re, s: string): Option<string> {
    match FirstMatch(r, s, 0)
    case None => None
    case Some((p, e)) => Some(s[p..e])
  }

  /**
   * `s.match(r)` with the `g` flag from `lastIndex` `from`, `null` read as no
   * matches: each match's text, the search going on where the last match ended,
   * one position further after an empty match.
   */
  function MatchAll(r: Re, s: string, from: nat): seq<string>
    requires from <= |s|
    decreases |s| - from
  {
    match FirstMatch(r, s, from)
    case None => []
    case Some((p, e)) =>
      var next := Resume(p, e);
      if next <= |s| then [s[p..e]] + MatchAll(r, s, next) else [s[p..e]]
  }

  /** Where a global search goes on after the match `[p, e)`: its end, or one further when it is empty. */
  function Resume(p: nat, e: nat): (next: nat)
    ensures next > p
  {
    if e > p then e else p + 1
  }

  /** `t` is the text of a match of `r` in `s` that starts at or after `from`. */
  ghost predicate MatchText(r: Re, s: string, from: nat, t: string) {
    exists p: nat, e: nat :: from <= p <= e <= |s| && t == s[p..e] && Matches(r, s, p, e)
  }

  lemma MatchTextWeaken(r: Re, s: string, from: nat, later: nat, t: string)
    requires from <= later && MatchText(r, s, later, t)
    ensures MatchText(r, s, from, t)
  {
  }

  /** Past the first, the `k`-th text is the `k - 1`-th of the search resumed after the first match. */
  lemma MatchAllLater(r: Re, s: string, from: nat, p: nat, e: nat, k: nat)
    requires from <= |s| && FirstMatch(r, s, from) == Some((p, e))
    requires 0 < k < |MatchAll(r, s, from)|
    ensures Resume(p, e) <= |s| && k - 1 < |MatchAll(r, s, Resume(p, e))|
    ensures MatchAll(r, s, from)[k] == MatchAll(r, s, Resume(p, e))[k - 1]
  {
  }

  /** The `k`-th text `MatchAll` reports is a match of the pattern in `s`. */
  lemma {:induction false} MatchAllAt(r: Re, s: string, from: nat, k: nat)
    requires from <= |s| && k < |MatchAll(r, s, from)|
    ensures MatchText(r, s, from, MatchAll(r, s, from)[k])
    decreases |s| - from
  {
    match FirstMatch(r, s, from)
    case None =>
      assert false;
    case Some((p, e)) =>
      if k == 0 {
        EndsIff(r, s, p, e);
        assert MatchAll(r, s, from)[0] == s[p..e] && Matches(r, s, p, e);
      } else {
        var next := Resume(p, e);
        MatchAllLater(r, s, from, p, e, k);
        MatchAllAt(r, s, next, k - 1);
        MatchTextWeaken(r, s, from, next, MatchAll(r, s, from)[k]);
      }
  }

  /** Every text `MatchAll` reports is a match of the pattern in `s`. */
  lemma MatchAllMatches(r: Re, s: string, from: nat)
    requires from <= |s|
    ensures forall k :: 0 <= k < |MatchAll(r, s, from)| ==> MatchText(r, s, from, MatchAll(r, s, from)[k])
  {
    forall k | 0 <= k < |MatchAll(r, s, from)|
      ensures MatchText(r, s, from, MatchAll(r, s, from)[k])
    {
      MatchAllAt(r, s, from, k);
    }
  }

  // ---------------------------------------------------------------------------
  // How many digits a match holds

  /** No character of the class is a digit. */
  predicate NoDigitClass(cc: CharClass) {
    match cc
    case Digit => false
    case Space => true
    case Lit(c) => !IsDigit(c)
    case NoCase(c) => !IsDigit(UpperChar(c))
    case Either(a, b) => NoDigitClass(a) && NoDigitClass(b)
  }

  lemma {:induction false} NoDigitClassSound(cc: CharClass, x: char)
    requires NoDigitClass(cc) && InClass(cc, x)
    ensures !IsDigit(x)
  {
    match cc
    case Space =>
    case Lit(c) =>
    case NoCase(c) =>
    case Either(a, b) =>
      if InClass(a, x) {
        NoDigitClassSound(a, x);
      } else {
        NoDigitClassSound(b, x);
      }
  }

  /** The number of digits every match of `r` holds, when that number is fixed. */
  function FixedDigits(r: Re): Option<nat> {
    match r
    case Char(cc) => if NoDigitClass(cc) then Some(0) else if cc.Digit? then Some(1) else None
    case Cat(a, b) =>
      if FixedDigits(a).Some? && FixedDigits(b).Some? then Some(FixedDigits(a).value + FixedDigits(b).value)
      else None
    case Alt(a, b) =>
      if FixedDigits(a).Some? && FixedDigits(a) == FixedDigits(b) then FixedDigits(a) else None
    case Opt(a) => if FixedDigits(a) == Some(0) then Some(0) else None
    case Star(a) => if FixedDigits(a) == Some(0) then Some(0) else None
    case WordBoundary => Some(0)
  }

  /** A match of a pattern with a fixed digit count holds exactly that many digits. */
  lemma {:induction false} FixedDigitsSound(r: Re, s: string, i: nat, e: nat)
    requires i <= e <= |s| && FixedDigits(r).Some? && Matches(r, s, i, e)
    ensures |Digits(s[i..e])| == FixedDigits(r).value
    decreases r, e - i
  {
    match r
    case Char(cc) =>
      assert s[i..e] == [s[i]];
      if NoDigitClass(cc) {
        NoDigitClassSound(cc, s[i]);
      }
    case Cat(a, b) =>
      CatSplit(a, b, s, i, e);
      var m :| i <= m <= e && Matches(a, s, i, m) && Matches(b, s, m, e);
      FixedDigitsSound(a, s, i, m);
      FixedDigitsSound(b, s, m, e);
      DigitsSplit(s, i, m, e);
    case Alt(a, b) =>
      if Matches(a, s, i, e) {
        FixedDigitsSound(a, s, i, e);
      } else {
        FixedDigitsSound(b, s, i, e);
      }
    case Opt(a) =>
      if e != i {
        FixedDigitsSound(a, s, i, e);
      }
    case Star(a) =>
      if e != i {
        StarSplit(a, s, i, e);
        var m :| i < m <= e && Matches(a, s, i, m) && Matches(Star(a), s, m, e);
        FixedDigitsSound(a, s, i, m);
        FixedDigitsSound(Star(a), s, m, e);
        DigitsSplit(s, i, m, e);
      }
    case WordBoundary =>
  }

  /** The digits of a stretch are those of its two halves. */
  lemma DigitsSplit(s: string, i: nat, m: nat, e: nat)
    requires i <= m <= e <= |s|
    ensures Digits(s[i..e]) == Digits(s[i..m]) + Digits(s[m..e])
  {
    assert s[i..e] == s[i..m] + s[m..e];
    DigitsConcat(s[i..m], s[m..e]);
  }

  /** After a digit-free first part, a concatenation's digits are those of its second part. */
  lemma CatAfterNoDigits(a: Re, b: Re, s: string, i: nat, e: nat)
    requires FixedDigits(a) == Some(0)
    requires i <= e <= |s| && Matches(Cat(a, b), s, i, e)
    ensures exists m :: i <= m <= e && Matches(b, s, m, e) && Digits(s[i..e]) == Digits(s[m..e])
  {
    CatSplit(a, b, s, i, e);
    var m :| i <= m <= e && Matches(a, s, i, m) && Matches(b, s, m, e);
    FixedDigitsSound(a, s, i, m);
    DigitsSplit(s, i, m, e);
  }

  /** Before a digit-free second part, a concatenation's digits are those of its first part. */
  lemma CatBeforeNoDigits(a: Re, b: Re, s: string, i: nat, e: nat)
    requires FixedDigits(b) == Some(0)
    requires i <= e <= |s| && Matches(Cat(a, b), s, i, e)
    ensures exists m :: i <= m <= e && Matches(a, s, i, m) && Digits(s[i..e]) == Digits(s[i..m])
  {
    CatSplit(a, b, s, i, e);
    var m :| i <= m <= e && Matches(a, s, i, m) && Matches(b, s, m, e);
    FixedDigitsSound(b, s, m, e);
    DigitsSplit(s, i, m, e);
  }
}
