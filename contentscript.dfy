/**
 * The scraped-text normalisers of the directory scraper: `normalizePhones` finds
 * the US phone numbers in a contact block and writes each as `(ddd) ddd-dddd`;
 * `extractState` finds the first two-letter state code standing as a word.
 */
module ContentScript {
  import opened Wrappers
  import opened Text
  import opened Regex
  import Views

  // ---------------------------------------------------------------------------
  // normalizePhones

  /** `[\s\-\.)]`: white space, a dash, a dot or a closing parenthesis. */
  const Sep1: CharClass := Either(Space, Either(Lit('-'), Either(Lit('.'), Lit(')'))))

  /** `[\s\-\.]`: white space, a dash or a dot. */
  const Sep2: CharClass := Either(Space, Either(Lit('-'), Lit('.')))

  /** `\d{n}`. */
  function DigitRun(n: nat): (r: Re)
    requires n >= 1
    ensures FixedDigits(r) == Some(n)
  {
    if n == 1 then Char(Digit) else Cat(Char(Digit), DigitRun(n - 1))
  }

  /** `(?:\+?1[\s\-\.)]*)?`: an optional country code. */
  const CountryCode: Re := Opt(Cat(Opt(Char(Lit('+'))), Cat(Char(Lit('1')), Star(Char(Sep1)))))

  /** `(?:\(?\d{3}\)?)[\s\-\.)]*\d{3}[\s\-\.]*\d{4}`: area code, exchange and line number. */
  function LocalNumber(): Re {
    Cat(Opt(Char(Lit('('))), Cat(DigitRun(3), Cat(Opt(Char(Lit(')'))),
    Cat(Star(Char(Sep1)), Cat(DigitRun(3), Cat(Star(Char(Sep2)), DigitRun(4)))))))
  }

  /** The phone pattern, used with the `g` flag. */
  function PhonePattern(): Re {
    Cat(CountryCode, LocalNumber())
  }

  /** The local part of a number always holds exactly ten digits. */
  lemma LocalNumberDigits()
    ensures FixedDigits(LocalNumber()) == Some(10)
  {
    SeparatorsNoDigits();
    var t1 := Cat(Star(Char(Sep2)), DigitRun(4));
    assert FixedDigits(t1) == Some(4);
    var t2 := Cat(Star(Char(Sep1)), Cat(DigitRun(3), t1));
    assert FixedDigits(t2) == Some(7);
    var t3 := Cat(DigitRun(3), Cat(Opt(Char(Lit(')'))), t2));
    assert FixedDigits(t3) == Some(10);
    assert LocalNumber() == Cat(Opt(Char(Lit('('))), t3);
  }

  /** Separators hold no digit. */
  lemma SeparatorsNoDigits()
    ensures FixedDigits(Star(Char(Sep1))) == Some(0)
    ensures FixedDigits(Star(Char(Sep2))) == Some(0)
  {
  }

  /** An optional `1` between digit-free parts holds no digit, or just the `1`. */
  lemma OptionalOneDigits(lead: Re, seps: Re, s: string, i: nat, e: nat)
    requires FixedDigits(lead) == Some(0) && FixedDigits(seps) == Some(0)
    requires i <= e <= |s| && Matches(Opt(Cat(lead, Cat(Char(Lit('1')), seps))), s, i, e)
    ensures Digits(s[i..e]) == "" || Digits(s[i..e]) == "1"
  {
    if e != i {
      var one := Char(Lit('1'));
      CatAfterNoDigits(lead, Cat(one, seps), s, i, e);
      var m1 :| i <= m1 <= e && Matches(Cat(one, seps), s, m1, e) && Digits(s[i..e]) == Digits(s[m1..e]);
      CatBeforeNoDigits(one, seps, s, m1, e);
      var m2 :| m1 <= m2 <= e && Matches(one, s, m1, m2) && Digits(s[m1..e]) == Digits(s[m1..m2]);
      assert s[m1..m2] == "1";
    }
  }

  /** A country code holds no digit, or just the `1`. */
  lemma CountryCodeDigits(s: string, i: nat, e: nat)
    requires i <= e <= |s| && Matches(CountryCode, s, i, e)
    ensures Digits(s[i..e]) == "" || Digits(s[i..e]) == "1"
  {
    SeparatorsNoDigits();
    OptionalOneDigits(Opt(Char(Lit('+'))), Star(Char(Sep1)), s, i, e);
  }

  /**
   * Every match of the phone pattern holds ten digits, or eleven starting with the
   * country code `1`.
   */
  lemma PhoneMatchDigits(s: string, i: nat, e: nat)
    requires i <= e <= |s| && Matches(PhonePattern(), s, i, e)
    ensures var d := Digits(s[i..e]);
      |d| == 10 || (|d| == 11 && d[0] == '1')
  {
    CatSplit(CountryCode, LocalNumber(), s, i, e);
    var m :| i <= m <= e && Matches(CountryCode, s, i, m) && Matches(LocalNumber(), s, m, e);
    CountryCodeDigits(s, i, m);
    LocalNumberDigits();
    FixedDigitsSound(LocalNumber(), s, m, e);
    DigitsSplit(s, i, m, e);
  }

  /** Ten digits as `(ddd) ddd-dddd`. */
  function UsFormat(d: string): string
    requires |d| == 10
  {
    "(" + d[..3] + ") " + d[3..6] + "-" + d[6..]
  }

  /**
   * One matched number: ten digits are shaped, eleven starting with `1` lose the
   * `1` and are shaped, and any other text is kept as matched.
   */
  function NormalizePhone(phone: string): string {
    var d := Digits(phone);
    if |d| == 10 then "(" + d[..3] + ") " + d[3..6] + "-" + d[6..]
    else if |d| == 11 && d[0] == '1' then "(" + d[1..4] + ") " + d[4..7] + "-" + d[7..]
    else phone
  }

  function NormalizeAll(phones: seq<string>): (r: seq<string>)
    ensures |r| == |phones| && forall k :: 0 <= k < |r| ==> r[k] == NormalizePhone(phones[k])
  {
    seq(|phones|, k requires 0 <= k < |phones| => NormalizePhone(phones[k]))
  }

  /** The numbers the pattern finds in `text`, in text order. */
  function PhoneMatches(text: string): seq<string> {
    MatchAll(PhonePattern(), text, 0)
  }

  /**
   * `normalizePhones(text)`: no text gives the empty string; otherwise the matched
   * numbers, each normalised, joined by `"; "` in the order they occur.
   */
  function NormalizePhones(text: string): string {
    if text == "" then "" else Join(NormalizeAll(PhoneMatches(text)), "; ")
  }

  /** The last ten digits of a number's digits. */
  function LastTen(d: string): string
    requires |d| >= 10
  {
    d[|d| - 10..]
  }

  /**
   * What `normalizePhones` writes: one piece per number found in the text, in text
   * order, each piece `(ddd) ddd-dddd` of the number's last ten digits, so the
   * branch that keeps a match as it is never applies; empty text or text with no
   * number gives the empty string.
   */
  lemma NormalizePhonesShape(text: string)
    ensures var ms := PhoneMatches(text);
      forall k :: 0 <= k < |ms| ==>
        var d := Digits(ms[k]);
        |d| >= 10 && NormalizePhone(ms[k]) == UsFormat(LastTen(d))
    ensures text != "" ==> NormalizePhones(text) == Join(NormalizeAll(PhoneMatches(text)), "; ")
    ensures text == "" || PhoneMatches(text) == [] ==> NormalizePhones(text) == ""
  {
    var ms := PhoneMatches(text);
    MatchAllMatches(PhonePattern(), text, 0);
    forall k | 0 <= k < |ms|
      ensures var d := Digits(ms[k]); |d| >= 10 && NormalizePhone(ms[k]) == UsFormat(LastTen(d))
    {
      assert MatchText(PhonePattern(), text, 0, ms[k]);
      var p: nat, e: nat :| p <= e <= |text| && ms[k] == text[p..e] && Matches(PhonePattern(), text, p, e);
      PhoneMatchDigits(text, p, e);
      NormalizeShape(ms[k]);
    }
  }

  /** For a number the pattern can match, normalising shapes its last ten digits. */
  lemma NormalizeShape(phone: string)
    requires var d := Digits(phone); |d| == 10 || (|d| == 11 && d[0] == '1')
    ensures var d := Digits(phone); |d| >= 10 && NormalizePhone(phone) == UsFormat(LastTen(d))
  {
    var d := Digits(phone);
    if |d| == 11 {
      var t := LastTen(d);
      assert t[..3] == d[1..4] && t[3..6] == d[4..7] && t[6..] == d[7..];
    } else {
      assert LastTen(d) == d;
    }
  }

  /** Each piece keeps exactly the number's last ten digits. */
  lemma UsFormatDigits(d: string)
    requires |d| == 10 && AllDigits(d)
    ensures Digits(UsFormat(d)) == d
  {
    Views.DigitsOfShape("(", "", d[..3], ") ", d[3..6], "-", d[6..]);
    assert d[..3] + d[3..6] + d[6..] == d;
  }

  /** A ten-digit number is written the same by the scraper and by the CRM's `formatPhoneNumber`. */
  lemma NormalizeAsFormatTen(phone: string)
    requires |Digits(phone)| == 10
    ensures Views.FormatPhoneNumber(phone) == NormalizePhone(phone)
  {
    assert phone != "";
  }

  /**
   * An eleven-digit number starting with `1` is written by the scraper as the CRM's
   * `formatPhoneNumber` writes it without its leading `"+1 "`.
   */
  lemma NormalizeAsFormatEleven(phone: string)
    requires var d := Digits(phone); |d| == 11 && d[0] == '1'
    ensures Views.FormatPhoneNumber(phone) == "+1 " + NormalizePhone(phone)
  {
    var d := Digits(phone);
    assert phone != "";
    var a, b, c := d[1..4], d[4..7], d[7..];
    CountryPrefix(a, b, c);
  }

  lemma CountryPrefix(a: string, b: string, c: string)
    ensures "+1 (" + a + ") " + b + "-" + c == "+1 " + ("(" + a + ") " + b + "-" + c)
  {
    assert "+1 (" == "+1 " + "(";
  }

  // ---------------------------------------------------------------------------
  // extractState

  /** The fifty state codes, in the pattern's order, ten at a time. */
  const StateCodes1: seq<string> := ["AL", "AK", "AZ", "AR", "CA", "CO", "CT", "DE", "FL", "GA"]
  const StateCodes2: seq<string> := ["HI", "ID", "IL", "IN", "IA", "KS", "KY", "LA", "ME", "MD"]
  const StateCodes3: seq<string> := ["MA", "MI", "MN", "MS", "MO", "MT", "NE", "NV", "NH", "NJ"]
  const StateCodes4: seq<string> := ["NM", "NY", "NC", "ND", "OH", "OK", "OR", "PA", "RI", "SC"]
  const StateCodes5: seq<string> := ["SD", "TN", "TX", "UT", "VT", "VA", "WA", "WV", "WI", "WY"]
  const StateCodes: seq<string> := StateCodes1 + StateCodes2 + StateCodes3 + StateCodes4 + StateCodes5

  predicate IsUpperLetter(c: char) {
    'A' <= c <= 'Z'
  }

  /** Two upper-case ASCII letters. */
  predicate IsCode(w: string) {
    |w| == 2 && IsUpperLetter(w[0]) && IsUpperLetter(w[1])
  }

  /** Every entry is a code; written recursively so that the fifty literals are checked one by one. */
  predicate AllCodes(ws: seq<string>) {
    ws == [] || (IsCode(ws[0]) && AllCodes(ws[1..]))
  }

  lemma {:induction false} AllCodesIndex(ws: seq<string>, k: int)
    requires AllCodes(ws) && 0 <= k < |ws|
    ensures IsCode(ws[k])
  {
    if k > 0 {
      AllCodesIndex(ws[1..], k - 1);
    }
  }

  lemma {:induction false} AllCodesConcat(a: seq<string>, b: seq<string>)
    requires AllCodes(a) && AllCodes(b)
    ensures AllCodes(a + b)
  {
    if a != [] {
      AllCodesConcat(a[1..], b);
      assert (a + b)[0] == a[0];
      assert (a + b)[1..] == a[1..] + b;
      assert IsCode((a + b)[0]);
      assert AllCodes((a + b)[1..]);
    } else {
      assert a + b == b;
    }
  }

  lemma {:induction false} Chunk(ws: seq<string>)
    requires forall w :: w in ws ==> IsCode(w)
    ensures AllCodes(ws)
  {
    if ws != [] {
      assert ws[0] in ws;
      Chunk(ws[1..]);
    }
  }

  lemma Chunk1() ensures AllCodes(StateCodes1) { Chunk(StateCodes1); }
  lemma Chunk2() ensures AllCodes(StateCodes2) { Chunk(StateCodes2); }
  lemma Chunk3() ensures AllCodes(StateCodes3) { Chunk(StateCodes3); }
  lemma Chunk4() ensures AllCodes(StateCodes4) { Chunk(StateCodes4); }
  lemma Chunk5() ensures AllCodes(StateCodes5) { Chunk(StateCodes5); }

  lemma StateCodesAreCodes()
    ensures |StateCodes| == 50 && AllCodes(StateCodes)
  {
    var c1, c2, c3, c4, c5 := StateCodes1, StateCodes2, StateCodes3, StateCodes4, StateCodes5;
    Chunk1();
    Chunk2();
    Chunk3();
    Chunk4();
    Chunk5();
    AllCodesConcat(c1, c2);
    AllCodesConcat(c1 + c2, c3);
    AllCodesConcat(c1 + c2 + c3, c4);
    AllCodesConcat(c1 + c2 + c3 + c4, c5);
  }

  /** One code under the `i` flag. */
  function CodeRe(w: string): Re
    requires |w| == 2
  {
    Cat(Char(NoCase(w[0])), Char(NoCase(w[1])))
  }

  /** `(w0|w1|...)`, tried in list order. */
  function AnyCode(ws: seq<string>): Re
    requires |ws| >= 1 && AllCodes(ws)
  {
    if |ws| == 1 then CodeRe(ws[0]) else Alt(CodeRe(ws[0]), AnyCode(ws[1..]))
  }

  /** `\b(w0|w1|...)\b` with the `i` flag. */
  function CodePattern(ws: seq<string>): Re
    requires |ws| >= 1 && AllCodes(ws)
  {
    Cat(WordBoundary, Cat(AnyCode(ws), WordBoundary))
  }

  /** A code of `ws` stands at `p`: two characters that upper-case to it, with a word boundary on either side. */
  predicate CodeAt(ws: seq<string>, s: string, p: nat) {
    p + 2 <= |s| && AtBoundary(s, p) && AtBoundary(s, p + 2) && Upper(s[p..p + 2]) in ws
  }

  /** A code's pattern matches exactly the two characters that upper-case to it. */
  lemma CodeReMatches(w: string, s: string, p: nat, e: nat)
    requires IsCode(w) && p <= e <= |s|
    ensures Matches(CodeRe(w), s, p, e) <==> e == p + 2 && Upper(s[p..p + 2]) == w
  {
    var a, b := Char(NoCase(w[0])), Char(NoCase(w[1]));
    if Matches(CodeRe(w), s, p, e) {
      CatSplit(a, b, s, p, e);
    }
    if e == p + 2 && Upper(s[p..p + 2]) == w {
      assert Matches(a, s, p, p + 1) && Matches(b, s, p + 1, e);
    }
  }

  /** The alternation matches exactly the two characters that upper-case to one of its codes. */
  lemma {:induction false} AnyCodeMatches(ws: seq<string>, s: string, p: nat, e: nat)
    requires |ws| >= 1 && AllCodes(ws)
    requires p <= e <= |s|
    ensures Matches(AnyCode(ws), s, p, e) <==> e == p + 2 && Upper(s[p..p + 2]) in ws
  {
    CodeReMatches(ws[0], s, p, e);
    if |ws| > 1 {
      AnyCodeMatches(ws[1..], s, p, e);
      assert ws == [ws[0]] + ws[1..];
    }
  }

  /** The pattern matches exactly a code standing as a word. */
  lemma CodePatternMatches(ws: seq<string>, s: string, p: nat, e: nat)
    requires |ws| >= 1 && AllCodes(ws)
    requires p <= e <= |s|
    ensures Matches(CodePattern(ws), s, p, e) <==> e == p + 2 && CodeAt(ws, s, p)
  {
    var codes := AnyCode(ws);
    if Matches(CodePattern(ws), s, p, e) {
      CatSplit(WordBoundary, Cat(codes, WordBoundary), s, p, e);
      var m :| p <= m <= e && Matches(WordBoundary, s, p, m) && Matches(Cat(codes, WordBoundary), s, m, e);
      CatSplit(codes, WordBoundary, s, m, e);
      var n :| m <= n <= e && Matches(codes, s, m, n) && Matches(WordBoundary, s, n, e);
      AnyCodeMatches(ws, s, m, n);
    }
    if e == p + 2 && CodeAt(ws, s, p) {
      AnyCodeMatches(ws, s, p, e);
      assert Matches(WordBoundary, s, p, p);
      assert Matches(Cat(codes, WordBoundary), s, p, e) by {
        assert Matches(codes, s, p, e) && Matches(WordBoundary, s, e, e);
      }
    }
  }

  /** The first match of the code pattern, upper-cased, or the empty string. */
  function FirstCode(ws: seq<string>, text: string): string
    requires |ws| >= 1 && AllCodes(ws)
  {
    match MatchFirst(CodePattern(ws), text)
    case None => ""
    case Some(m) => Upper(m)
  }

  /**
   * The result is empty exactly when no code stands as a word in the text;
   * otherwise it is the upper-cased first one, so always one of the codes.
   */
  lemma FirstCodeSpec(ws: seq<string>, text: string)
    requires |ws| >= 1 && AllCodes(ws)
    ensures FirstCode(ws, text) == "" <==> forall p :: 0 <= p <= |text| ==> !CodeAt(ws, text, p)
    ensures FirstCode(ws, text) != "" ==>
      FirstCode(ws, text) in ws &&
      exists p :: 0 <= p <= |text| && CodeAt(ws, text, p) && FirstCode(ws, text) == Upper(text[p..p + 2]) &&
        forall q :: 0 <= q < p ==> !CodeAt(ws, text, q)
  {
    var pat := CodePattern(ws);
    forall q | 0 <= q <= |text| && CodeAt(ws, text, q) ensures Ends(pat, text, q) != [] {
      CodePatternMatches(ws, text, q, q + 2);
      EndsIff(pat, text, q, q + 2);
    }
    match FirstMatch(pat, text, 0)
    case None =>
    case Some((p, e)) =>
      EndsIff(pat, text, p, e);
      CodePatternMatches(ws, text, p, e);
      AllCodesIndex(ws, 0);
      assert FirstCode(ws, text) == Upper(text[p..p + 2]);
  }

  /**
   * `extractState(text)`: no text gives the empty string; otherwise the first match
   * of `\b(AL|AK|...|WY)\b` under the `i` flag, upper-cased, or the empty string
   * when nothing matches.
   */
  function ExtractState(text: string): string {
    StateCodesAreCodes();
    if text == "" then "" else FirstCode(StateCodes, text)
  }

  /**
   * The result is empty exactly when no state code stands as a word in the text;
   * otherwise it is the first one, upper-cased, so always one of the fifty codes.
   */
  lemma ExtractStateSpec(text: string)
    ensures ExtractState(text) == "" <==> forall p :: 0 <= p <= |text| ==> !CodeAt(StateCodes, text, p)
    ensures ExtractState(text) != "" ==>
      ExtractState(text) in StateCodes &&
      exists p :: 0 <= p <= |text| && CodeAt(StateCodes, text, p) && ExtractState(text) == Upper(text[p..p + 2]) &&
        forall q :: 0 <= q < p ==> !CodeAt(StateCodes, text, q)
  {
    StateCodesAreCodes();
    FirstCodeSpec(StateCodes, text);
  }
}
