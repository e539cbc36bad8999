/**
 * The string primitives the CRM relies on: JavaScript's and Python's notions of
 * white space for trimming, substring search, separator splitting and joining,
 * and ASCII case mapping.
 */
module Text {

  /** Which language's notion of white space a trim uses. */
  datatype Spaces = JsSpaces | PySpaces

  /**
   * JsSpaces: what JavaScript's `String.prototype.trim` and the regex class `\s`
   * treat as white space (TAB, LF, VT, FF, CR, space, NBSP, the Zs spaces, LS, PS
   * and the byte-order mark). PySpaces: what Python's argument-less `str.strip()`
   * removes (the same minus the byte-order mark, plus the separators 0x1C-0x1F
   * and NEL).
   */
  predicate IsSpace(ws: Spaces, c: char) {
    || '\t' <= c <= '\r' || c == ' ' || c == '\U{A0}' || c == '\U{1680}'
    || '\U{2000}' <= c <= '\U{200A}' || c == '\U{2028}' || c == '\U{2029}'
    || c == '\U{202F}' || c == '\U{205F}' || c == '\U{3000}'
    || (ws == JsSpaces && c == '\U{FEFF}')
    || (ws == PySpaces && ('\U{1C}' <= c <= '\U{1F}' || c == '\U{85}'))
  }

  predicate AllIn(s: string, ws: Spaces) {
    forall i :: 0 <= i < |s| ==> IsSpace(ws, s[i])
  }

  /** White space removed at the start. */
  function TrimLeft(s: string, ws: Spaces): string {
    if |s| > 0 && IsSpace(ws, s[0]) then TrimLeft(s[1..], ws) else s
  }

  /** White space removed at the end. */
  function TrimRight(s: string, ws: Spaces): string {
    if |s| > 0 && IsSpace(ws, s[|s| - 1]) then TrimRight(s[..|s| - 1], ws) else s
  }

  /** `trim()` / `strip()`: white space removed at both ends. */
  function Trim(s: string, ws: Spaces): string {
    TrimRight(TrimLeft(s, ws), ws)
  }

  /** What `TrimLeft` keeps is a suffix, and what it drops is white space. */
  lemma {:induction false} TrimLeftShape(s: string, ws: Spaces)
    ensures var r := TrimLeft(s, ws);
      |r| <= |s| && r == s[|s| - |r|..] && AllIn(s[..|s| - |r|], ws) &&
      (r != [] ==> !IsSpace(ws, r[0]))
  {
    if |s| > 0 && IsSpace(ws, s[0]) {
      var t := s[1..];
      TrimLeftShape(t, ws);
      var r := TrimLeft(t, ws);
      assert t[|t| - |r|..] == s[|s| - |r|..];
      assert s[..|s| - |r|] == [s[0]] + t[..|t| - |r|];
      AllInCons(s[0], t[..|t| - |r|], ws);
    }
  }

  lemma AllInCons(c: char, x: string, ws: Spaces)
    requires IsSpace(ws, c) && AllIn(x, ws)
    ensures AllIn([c] + x, ws)
  {
    assert forall k :: 0 < k <= |x| ==> ([c] + x)[k] == x[k - 1];
  }

  /** What `TrimRight` keeps is a prefix, and what it drops is white space. */
  lemma {:induction false} TrimRightShape(s: string, ws: Spaces)
    ensures var r := TrimRight(s, ws);
      |r| <= |s| && r == s[..|r|] && AllIn(s[|r|..], ws) &&
      (r != [] ==> !IsSpace(ws, r[|r| - 1]))
  {
    if |s| > 0 && IsSpace(ws, s[|s| - 1]) {
      var t := s[..|s| - 1];
      TrimRightShape(t, ws);
      var r := TrimRight(s, ws);
      assert t[..|r|] == s[..|r|];
      assert forall k :: 0 <= k < |s| - |r| - 1 ==> s[|r|..][k] == t[|r|..][k];
    }
  }

  /**
   * The trimmed text is an infix `s[a..a + |r|]` with only white space before and
   * after it, and it neither starts nor ends with white space.
   */
  lemma TrimShape(s: string, ws: Spaces)
    ensures var r := Trim(s, ws); var a := |s| - |TrimLeft(s, ws)|;
      0 <= a && a + |r| <= |s| && r == s[a..a + |r|] &&
      AllIn(s[..a], ws) && AllIn(s[a + |r|..], ws) &&
      (r != [] ==> !IsSpace(ws, r[0]) && !IsSpace(ws, r[|r| - 1]))
  {
    var l := TrimLeft(s, ws);
    var r := Trim(s, ws);
    TrimLeftShape(s, ws);
    TrimRightShape(l, ws);
    var a := |s| - |l|;
    InfixOfSuffix(s, a, |r|);
  }

  /** The pieces of the suffix `s[a..]` seen from `s`. */
  lemma InfixOfSuffix(s: string, a: nat, n: nat)
    requires a + n <= |s|
    ensures s[a..][..n] == s[a..a + n] && s[a..][n..] == s[a + n..]
  {
  }

  /** An all-white string loses everything on the left. */
  lemma {:induction false} TrimLeftAllSpace(s: string, ws: Spaces)
    requires AllIn(s, ws)
    ensures TrimLeft(s, ws) == []
  {
    if |s| > 0 {
      assert IsSpace(ws, s[0]);
      assert forall k :: 0 <= k < |s| - 1 ==> s[1..][k] == s[k + 1];
      TrimLeftAllSpace(s[1..], ws);
    }
  }

  /** A string trims to nothing exactly when it is all white space. */
  lemma TrimBlank(s: string, ws: Spaces)
    ensures Trim(s, ws) == [] <==> AllIn(s, ws)
  {
    var l := TrimLeft(s, ws);
    var a := |s| - |l|;
    TrimLeftShape(s, ws);
    TrimRightShape(l, ws);
    if Trim(s, ws) == [] {
      forall k | 0 <= k < |s|
        ensures IsSpace(ws, s[k])
      {
        assert l[0..] == l;
        assert s[k] == s[..a][k];
      }
    }
    if AllIn(s, ws) {
      TrimLeftAllSpace(s, ws);
    }
  }

  /** Text that neither starts nor ends with white space trims to itself. */
  lemma TrimUnspaced(s: string, ws: Spaces)
    requires s != [] ==> !IsSpace(ws, s[0]) && !IsSpace(ws, s[|s| - 1])
    ensures Trim(s, ws) == s
  {
  }

  /** Trimming twice is trimming once. */
  lemma TrimIdempotent(s: string, ws: Spaces)
    ensures Trim(Trim(s, ws), ws) == Trim(s, ws)
  {
    var r := Trim(s, ws);
    TrimShape(s, ws);
    TrimRightShape(TrimLeft(r, ws), ws);
    if r != [] {
      assert TrimLeft(r, ws) == r;
    }
  }

  /** `p` occurs in `s` at position `i`. */
  predicate OccursAt(s: string, p: string, i: int) {
    0 <= i && i + |p| <= |s| && s[i..i + |p|] == p
  }

  /** Index of the first occurrence of `p` in `s`, or -1 when there is none. */
  function Find(s: string, p: string): (r: int)
    ensures -1 <= r <= |s|
    ensures r >= 0 ==> OccursAt(s, p, r)
    ensures r >= 0 ==> forall j :: 0 <= j < r ==> !OccursAt(s, p, j)
    ensures r == -1 ==> forall j :: !OccursAt(s, p, j)
    decreases |s|
  {
    if |s| < |p| then -1
    else if s[..|p|] == p then 0
    else
      var k := Find(s[1..], p);
      assert !OccursAt(s, p, 0);
      forall j | 1 <= j ensures OccursAt(s, p, j) <==> OccursAt(s[1..], p, j - 1) {
        OccursShift(s, p, j);
      }
      if k == -1 then -1 else k + 1
  }

  lemma OccursShift(s: string, p: string, j: int)
    requires 1 <= j && |s| > 0
    ensures OccursAt(s, p, j) <==> OccursAt(s[1..], p, j - 1)
  {
    if j + |p| <= |s| {
      assert s[1..][j - 1..j - 1 + |p|] == s[j..j + |p|];
    }
  }

  /** An occurrence inside a prefix is an occurrence in the whole string. */
  lemma OccursInPrefix(s: string, p: string, n: int, j: int)
    requires 0 <= n <= |s| && OccursAt(s[..n], p, j)
    ensures OccursAt(s, p, j) && j + |p| <= n
  {
    assert s[..n][j..j + |p|] == s[j..j + |p|];
  }

  /** JavaScript `includes` / Python `in` on strings. */
  predicate Contains(s: string, p: string) {
    Find(s, p) >= 0
  }

  lemma ContainsIff(s: string, p: string)
    ensures Contains(s, p) <==> exists i :: OccursAt(s, p, i)
  {
  }

  /**
   * `s.split(sep)` for a non-empty string separator (JavaScript and Python agree):
   * the pieces between non-overlapping occurrences found left to right.
   */
  function Split(s: string, sep: string): (r: seq<string>)
    requires |sep| > 0
    ensures |r| >= 1
    decreases |s|
  {
    var i := Find(s, sep);
    if i < 0 then [s] else [s[..i]] + Split(s[i + |sep|..], sep)
  }

  /** No piece of a split contains the separator. */
  lemma {:induction false} SplitFree(s: string, sep: string)
    requires |sep| > 0
    ensures forall k :: 0 <= k < |Split(s, sep)| ==> !Contains(Split(s, sep)[k], sep)
    decreases |s|
  {
    var i := Find(s, sep);
    if i >= 0 {
      var rest := s[i + |sep|..];
      SplitFree(rest, sep);
      assert !Contains(s[..i], sep) by {
        forall j | OccursAt(s[..i], sep, j) ensures false {
          OccursInPrefix(s, sep, i, j);
        }
      }
      var r := Split(s, sep);
      assert r == [s[..i]] + Split(rest, sep);
      assert forall k :: 0 < k < |r| ==> r[k] == Split(rest, sep)[k - 1];
    }
  }

  /** Text with the separator splits into at least two pieces. */
  lemma SplitContains(s: string, sep: string)
    requires |sep| > 0 && Contains(s, sep)
    ensures |Split(s, sep)| >= 2
  {
  }

  /** Text without the separator is one piece. */
  lemma SplitNone(s: string, sep: string)
    requires |sep| > 0 && !Contains(s, sep)
    ensures Split(s, sep) == [s]
  {
  }

  /** `s.split(sep)[-1]`. */
  function LastPiece(s: string, sep: string): string
    requires |sep| > 0
  {
    Split(s, sep)[|Split(s, sep)| - 1]
  }

  /**
   * With the separator present, the last piece of a split is the text after an
   * occurrence `j` of it, and the separator does not occur after that one.
   */
  lemma SplitLast(s: string, sep: string) returns (j: int)
    requires |sep| > 0 && Contains(s, sep)
    ensures OccursAt(s, sep, j) && LastPiece(s, sep) == s[j + |sep|..]
    ensures !Contains(s[j + |sep|..], sep)
  {
    var r := Split(s, sep);
    SplitContains(s, sep);
    var init, last := r[..|r| - 1], r[|r| - 1];
    assert r == init + [last];
    JoinSplit(s, sep);
    JoinSnoc(init, last, sep);
    SplitFree(s, sep);
    j := |Join(init, sep)|;
    AroundSeparator(Join(init, sep), sep, last, s);
  }

  /** In `x + sep + y`, `sep` occurs right after `x` and is followed by `y`. */
  lemma AroundSeparator(x: string, sep: string, y: string, s: string)
    requires s == x + sep + y
    ensures OccursAt(s, sep, |x|) && s[|x| + |sep|..] == y
  {
    assert s[|x|..|x| + |sep|] == sep;
  }

  /** `sep.join(parts)` / `parts.join(sep)`. */
  function Join(parts: seq<string>, sep: string): string {
    if |parts| == 0 then ""
    else if |parts| == 1 then parts[0]
    else parts[0] + sep + Join(parts[1..], sep)
  }

  /** A sequence is its three slices cut at `i` and `j`, put back together. */
  lemma SliceThree<T>(s: seq<T>, i: nat, j: nat)
    requires i <= j <= |s|
    ensures s == s[..i] + s[i..j] + s[j..]
  {
    assert s[..j] == s[..i] + s[i..j];
    assert s == s[..j] + s[j..];
  }

  /** Splitting loses nothing: joining the pieces back with the separator gives the text. */
  lemma {:induction false} JoinSplit(s: string, sep: string)
    requires |sep| > 0
    ensures Join(Split(s, sep), sep) == s
    decreases |s|
  {
    var i := Find(s, sep);
    if i >= 0 {
      var rest := s[i + |sep|..];
      JoinSplit(rest, sep);
      var r := Split(s, sep);
      assert r == [s[..i]] + Split(rest, sep);
      assert r[1..] == Split(rest, sep);
      assert Join(r, sep) == s[..i] + sep + rest;
      assert s[i..i + |sep|] == sep;
      SliceThree(s, i, i + |sep|);
    }
  }

  /**
   * For a one-character separator the converse holds too: splitting the join of
   * parts that do not contain the separator gives the parts back.
   */
  lemma {:induction false} SplitJoin(parts: seq<string>, sep: string)
    requires |sep| == 1 && |parts| >= 1
    requires forall k :: 0 <= k < |parts| ==> !Contains(parts[k], sep)
    ensures Split(Join(parts, sep), sep) == parts
  {
    if |parts| == 1 {
    } else {
      var p0, rest := parts[0], Join(parts[1..], sep);
      var s := p0 + sep + rest;
      assert Join(parts, sep) == s;
      assert OccursAt(s, sep, |p0|) by {
        assert s[|p0|..|p0| + 1] == sep;
      }
      forall j | 0 <= j < |p0| ensures !OccursAt(s, sep, j) {
        assert s[j..j + 1] == p0[j..j + 1];
        assert !OccursAt(p0, sep, j);
      }
      assert Find(s, sep) == |p0|;
      assert s[..|p0|] == p0;
      assert s[|p0| + 1..] == rest;
      SplitJoin(parts[1..], sep);
    }
  }

  /** Joining one more part adds the separator and the part. */
  lemma {:induction false} JoinSnoc(parts: seq<string>, x: string, sep: string)
    requires parts != []
    ensures Join(parts + [x], sep) == Join(parts, sep) + sep + x
    decreases |parts|
  {
    if |parts| > 1 {
      assert (parts + [x])[1..] == parts[1..] + [x];
      JoinSnoc(parts[1..], x, sep);
    }
  }

  /** For a one-character pattern, containment is membership. */
  lemma ContainsChar(s: string, c: char)
    ensures Contains(s, [c]) <==> c in s
  {
    ContainsIff(s, [c]);
    if c in s {
      var i :| 0 <= i < |s| && s[i] == c;
      assert OccursAt(s, [c], i) by {
        assert s[i..i + 1] == [c];
      }
    }
    if Contains(s, [c]) {
      var i :| OccursAt(s, [c], i);
      assert s[i] == s[i..i + 1][0];
    }
  }

  /** A character in neither the parts nor the separator is not in their join. */
  lemma {:induction false} JoinAvoids(parts: seq<string>, sep: string, c: char)
    requires c !in sep && forall k :: 0 <= k < |parts| ==> c !in parts[k]
    ensures c !in Join(parts, sep)
    decreases |parts|
  {
    if |parts| > 1 {
      JoinAvoids(parts[1..], sep, c);
    }
  }

  function LowerChar(c: char): char {
    if 'A' <= c <= 'Z' then (c as int + 32) as char else c
  }

  function UpperChar(c: char): char {
    if 'a' <= c <= 'z' then (c as int - 32) as char else c
  }

  /** `toLowerCase()` / `lower()` on the ASCII letters. */
  function Lower(s: string): (r: string)
    ensures |r| == |s| && forall i :: 0 <= i < |s| ==> r[i] == LowerChar(s[i])
  {
    seq(|s|, i requires 0 <= i < |s| => LowerChar(s[i]))
  }

  /** `toUpperCase()` on the ASCII letters. */
  function Upper(s: string): (r: string)
    ensures |r| == |s| && forall i :: 0 <= i < |s| ==> r[i] == UpperChar(s[i])
  {
    seq(|s|, i requires 0 <= i < |s| => UpperChar(s[i]))
  }

  predicate StartsWith(s: string, p: string) {
    |p| <= |s| && s[..|p|] == p
  }

  /** The ASCII digits, JavaScript's `\d` and what `\D` removes the complement of. */
  predicate IsDigit(c: char) {
    '0' <= c <= '9'
  }

  predicate AllDigits(s: string) {
    forall i :: 0 <= i < |s| ==> IsDigit(s[i])
  }

  /** `s.replace(/\D/g, '')`: the digits of `s`, in order. */
  function Digits(s: string): (r: string)
    ensures |r| <= |s| && AllDigits(r)
  {
    if s == [] then [] else (if IsDigit(s[0]) then [s[0]] else []) + Digits(s[1..])
  }

  lemma {:induction false} DigitsConcat(a: string, b: string)
    ensures Digits(a + b) == Digits(a) + Digits(b)
  {
    if a == [] {
      assert a + b == b;
    } else {
      assert (a + b)[1..] == a[1..] + b;
      DigitsConcat(a[1..], b);
    }
  }

  /** A string of digits only is its own digit string. */
  lemma {:induction false} DigitsOfDigits(s: string)
    requires AllDigits(s)
    ensures Digits(s) == s
  {
    if s != [] {
      DigitsOfDigits(s[1..]);
    }
  }

  /** A string without digits has none to keep. */
  lemma {:induction false} DigitsOfNone(s: string)
    requires forall i :: 0 <= i < |s| ==> !IsDigit(s[i])
    ensures Digits(s) == ""
  {
    if s != [] {
      DigitsOfNone(s[1..]);
    }
  }

  function DigitChar(d: nat): char
    requires d < 10
  {
    ('0' as int + d) as char
  }

  function DigitValue(c: char): nat
    requires IsDigit(c)
  {
    c as int - '0' as int
  }

  /** The decimal numeral of `n`, as JavaScript's template strings and Python's `str` print it. */
  function NatToString(n: nat): (r: string)
    ensures |r| >= 1 && AllDigits(r)
  {
    if n < 10 then [DigitChar(n)] else NatToString(n / 10) + [DigitChar(n % 10)]
  }

  /** The decimal numeral of an integer, with a leading `-` when it is negative. */
  function IntToString(n: int): string {
    if n < 0 then "-" + NatToString(-n) else NatToString(n)
  }

  /** The value of a string of decimal digits. */
  function DigitsValue(s: string): nat
    requires AllDigits(s)
  {
    if s == [] then 0 else 10 * DigitsValue(s[..|s| - 1]) + DigitValue(s[|s| - 1])
  }

  /** Printing a number and reading its digits back gives the number. */
  lemma {:induction false} NatToStringValue(n: nat)
    ensures DigitsValue(NatToString(n)) == n
  {
    if n >= 10 {
      NatToStringValue(n / 10);
      var r := NatToString(n);
      assert r[..|r| - 1] == NatToString(n / 10);
    }
  }
}
