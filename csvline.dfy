/**
 * The CSV line tokenizer of the CRM (`parseCSVLine`, the definition that is in
 * effect, the one written later in the class). It splits a trimmed line at
 * commas outside double quotes, but at most five times: once the fifth such
 * comma is seen, the rest of the line becomes the sixth field verbatim.
 */
module CsvLine {
  import opened Text
  import opened Seqs

  /** Lead, State, Website, Phones, Status, Reason. */
  const ExpectedFields: nat := 6

  /** Number of `"` characters in `s[..i]`. */
  function QuotesBefore(s: string, i: nat): nat
    requires i <= |s|
  {
    if i == 0 then 0 else QuotesBefore(s, i - 1) + (if s[i - 1] == '"' then 1 else 0)
  }

  /** The scanner's in-quotes flag before position `i`: every `"` flips it. */
  predicate InQuotes(s: string, i: nat)
    requires i <= |s|
  {
    if i == 0 then false else InQuotes(s, i - 1) != (s[i - 1] == '"')
  }

  /** The flag is set exactly when an odd number of quotes precede. */
  lemma {:induction false} InQuotesParity(s: string, i: nat)
    requires i <= |s|
    ensures InQuotes(s, i) <==> QuotesBefore(s, i) % 2 == 1
  {
    if i > 0 {
      InQuotesParity(s, i - 1);
    }
  }

  /** A comma outside quotes: the place where a field ends. */
  predicate IsSeparator(s: string, i: nat)
    requires i < |s|
  {
    s[i] == ',' && !InQuotes(s, i)
  }

  /** Strictly increasing positions inside `s`. */
  predicate ValidCuts(s: string, cs: seq<nat>) {
    (forall k :: 0 <= k < |cs| ==> cs[k] < |s|) &&
    (forall k, m :: 0 <= k < m < |cs| ==> cs[k] < cs[m])
  }

  /** The separators in `s[..i]`, in increasing order. */
  function SeparatorsBefore(s: string, i: nat): seq<nat>
    requires i <= |s|
  {
    if i == 0 then [] else SeparatorsBefore(s, i - 1) + (if IsSeparator(s, i - 1) then [i - 1] else [])
  }

  /** One more character: a separator is collected, and a quote flips the flag. */
  lemma ScanStep(s: string, i: nat)
    requires i < |s|
    ensures IsSeparator(s, i) ==> SeparatorsBefore(s, i + 1) == SeparatorsBefore(s, i) + [i]
    ensures !IsSeparator(s, i) ==> SeparatorsBefore(s, i + 1) == SeparatorsBefore(s, i)
    ensures InQuotes(s, i + 1) == (InQuotes(s, i) != (s[i] == '"'))
  {
    if !IsSeparator(s, i) {
      assert SeparatorsBefore(s, i) + [] == SeparatorsBefore(s, i);
    }
  }

  /** Only separators are collected, in increasing order, all before `i`. */
  lemma {:induction false} SeparatorsSound(s: string, i: nat)
    requires i <= |s|
    ensures var r := SeparatorsBefore(s, i);
      ValidCuts(s, r) && forall k :: 0 <= k < |r| ==> r[k] < i && IsSeparator(s, r[k])
  {
    if i > 0 {
      SeparatorsSound(s, i - 1);
    }
  }

  /** Every separator before `i` is collected. */
  lemma {:induction false} SeparatorsComplete(s: string, i: nat, p: nat)
    requires p < i <= |s| && IsSeparator(s, p)
    ensures p in SeparatorsBefore(s, i)
  {
    if p < i - 1 {
      SeparatorsComplete(s, i - 1, p);
    }
  }

  /** The separators in a shorter prefix are the first ones of those in a longer prefix. */
  lemma {:induction false} SeparatorsPrefix(s: string, i: nat, j: nat)
    requires i <= j <= |s|
    ensures SeparatorsBefore(s, i) <= SeparatorsBefore(s, j)
    decreases j - i
  {
    if i < j {
      SeparatorsPrefix(s, i, j - 1);
    }
  }

  /** The positions where the tokenizer cuts `s`: its first five separators. */
  function Cuts(s: string): seq<nat> {
    var c := SeparatorsBefore(s, |s|);
    if |c| < ExpectedFields then c else c[..ExpectedFields - 1]
  }

  /** The cuts are increasing separators. */
  lemma CutsSound(s: string)
    ensures ValidCuts(s, Cuts(s))
    ensures forall k :: 0 <= k < |Cuts(s)| ==> IsSeparator(s, Cuts(s)[k])
  {
    SeparatorsSound(s, |s|);
  }

  /** Start of field `j`: just after the previous cut (0 past the last field). */
  function FieldStart(cs: seq<nat>, j: nat): nat {
    if j == 0 || j > |cs| then 0 else cs[j - 1] + 1
  }

  /** End of field `j`: the next cut, or the end of the line for the last field. */
  function FieldStop(s: string, cs: seq<nat>, j: nat): nat {
    if j < |cs| then cs[j] else |s|
  }

  /** One pair of enclosing quotes removed, as `startsWith('"') && endsWith('"')` then `slice(1, -1)`. */
  function StripQuotePair(v: string): string {
    if |v| > 0 && v[0] == '"' && v[|v| - 1] == '"' then
      (if |v| >= 2 then v[1..|v| - 1] else "")
    else v
  }

  /** A raw field trimmed, then stripped of one enclosing quote pair. */
  function Clean(v: string): string {
    StripQuotePair(Trim(v, JsSpaces))
  }

  /** The raw text of field `j` of `s` cut at `cs`, before trimming (empty for cuts out of order). */
  function RawField(s: string, cs: seq<nat>, j: nat): string {
    var a := FieldStart(cs, j);
    var b := FieldStop(s, cs, j);
    if a <= b <= |s| then s[a..b] else ""
  }

  /** Field `j` of `s` cut at `cs`. */
  function Field(s: string, cs: seq<nat>, j: nat): string {
    Clean(RawField(s, cs, j))
  }

  /** The first `n` fields of `s` cut at `cs`. */
  function FieldsUpTo(s: string, cs: seq<nat>, n: nat): seq<string> {
    Tabulate(n, j => Field(s, cs, j))
  }

  /** The fields of an already trimmed line: one more than its cuts. */
  function FieldsOf(s: string): seq<string> {
    FieldsUpTo(s, Cuts(s), |Cuts(s)| + 1)
  }

  /** The fields the tokenizer returns for `line`: those of the trimmed line. */
  function LineFields(line: string): seq<string> {
    FieldsOf(Trim(line, JsSpaces))
  }

  /** Field by field: the prefix holds exactly the fields before `n`. */
  lemma FieldsUpToIndex(s: string, cs: seq<nat>, n: nat)
    ensures |FieldsUpTo(s, cs, n)| == n
    ensures forall j :: 0 <= j < n ==> FieldsUpTo(s, cs, n)[j] == Field(s, cs, j)
  {
    TabulateIndex(n, j => Field(s, cs, j));
  }

  /**
   * The tokenizer returns one field per cut plus one, and field `j` is the text
   * between cut `j - 1` and cut `j` (or the ends of the trimmed line), trimmed
   * and stripped of one enclosing quote pair.
   */
  lemma LineFieldsShape(line: string)
    ensures var s := Trim(line, JsSpaces); var cs := Cuts(s); var r := LineFields(line);
      |r| == |cs| + 1 &&
      forall j :: 0 <= j < |r| ==>
        FieldStart(cs, j) <= FieldStop(s, cs, j) <= |s| &&
        r[j] == Clean(s[FieldStart(cs, j)..FieldStop(s, cs, j)])
  {
    var s := Trim(line, JsSpaces);
    var cs := Cuts(s);
    CutsSound(s);
    FieldsUpToIndex(s, cs, |cs| + 1);
    forall j | 0 <= j <= |cs|
      ensures FieldStart(cs, j) <= FieldStop(s, cs, j) <= |s|
    {
      if 0 < j < |cs| {
        assert cs[j - 1] < cs[j];
      }
    }
  }

  /** A line with no comma outside quotes is one field: the whole line, cleaned. */
  lemma SingleField(line: string)
    requires var s := Trim(line, JsSpaces); forall p :: 0 <= p < |s| ==> !IsSeparator(s, p)
    ensures LineFields(line) == [Clean(Trim(line, JsSpaces))]
  {
    var s := Trim(line, JsSpaces);
    NoSeparators(s, |s|);
    assert s[0..|s|] == s;
  }

  /** With no separator before `i`, none is collected. */
  lemma {:induction false} NoSeparators(s: string, i: nat)
    requires i <= |s| && forall p :: 0 <= p < i ==> !IsSeparator(s, p)
    ensures SeparatorsBefore(s, i) == []
  {
    if i > 0 {
      NoSeparators(s, i - 1);
    }
  }

  /** `parseCSVLine`: the line is trimmed, then scanned. */
  method ParseCSVLine(line: string) returns (fields: seq<string>)
    ensures fields == LineFields(line)
  {
    var s := Trim(line, JsSpaces);
    fields := ScanFields(s);
  }

  /** The character scanner of `parseCSVLine`, with its in-quotes flag and early return. */
  method ScanFields(s: string) returns (fields: seq<string>)
    ensures fields == FieldsOf(s)
  {
    fields := [];
    var current := "";
    var inQuotes := false;
    var fieldCount := 0;
    var i := 0;
    ghost var cs: seq<nat> := [];
    ghost var start: nat := 0;
    while i < |s|
      invariant Scanning(s, i, cs, inQuotes, fieldCount, start, current, fields)
    {
      var done;
      done, inQuotes, fieldCount, current, fields, cs, start :=
        ScanChar(s, i, cs, inQuotes, fieldCount, start, current, fields);
      if done {
        return;
      }
      i := i + 1;
    }
    fields := LastField(s, cs, current, fields);
  }

  /** The scanner's state before position `i`: separators seen, flag, open field and closed fields. */
  ghost predicate Scanning(s: string, i: nat, cs: seq<nat>, inQuotes: bool, fieldCount: nat, start: nat,
                           current: string, fields: seq<string>)
  {
    i <= |s| && cs == SeparatorsBefore(s, i) && inQuotes == InQuotes(s, i) &&
    fieldCount == |cs| < ExpectedFields - 1 && start == FieldStart(cs, |cs|) <= i &&
    current == s[start..i] && fields == FieldsUpTo(s, cs, |cs|)
  }

  /** A character that is not a separator joins the open field. */
  lemma OtherAdvances(s: string, i: nat, cs: seq<nat>, inQuotes: bool, fieldCount: nat, start: nat,
                      current: string, fields: seq<string>)
    requires Scanning(s, i, cs, inQuotes, fieldCount, start, current, fields) && i < |s|
    requires !(s[i] == ',' && !inQuotes)
    ensures Scanning(s, i + 1, cs, inQuotes != (s[i] == '"'), fieldCount, start, current + [s[i]], fields)
  {
    ScanStep(s, i);
    Extend(s, start, i);
  }

  /** A separator that is not the fifth closes the open field and opens the next. */
  lemma SeparatorAdvances(s: string, i: nat, cs: seq<nat>, inQuotes: bool, fieldCount: nat, start: nat,
                          current: string, fields: seq<string>, closed: seq<string>)
    requires Scanning(s, i, cs, inQuotes, fieldCount, start, current, fields) && i < |s|
    requires s[i] == ',' && !inQuotes && fieldCount + 1 < ExpectedFields - 1
    requires closed == FieldsUpTo(s, cs + [i], |cs| + 1)
    ensures Scanning(s, i + 1, cs + [i], inQuotes, fieldCount + 1, i + 1, "", closed)
  {
    ScanStep(s, i);
    assert (cs + [i])[|cs|] == i;
  }

  /**
   * One turn of the scanner's loop at position `i`: a quote flips the flag, a
   * separator closes the open field (and after the fifth one the rest of the
   * line is the last field: `done`), anything else joins the open field.
   */
  method ScanChar(s: string, i: nat, ghost cs: seq<nat>, inQuotes: bool, fieldCount: nat, ghost start: nat,
                  current: string, fields: seq<string>)
    returns (done: bool, inQuotes': bool, fieldCount': nat, current': string, fields': seq<string>,
             ghost cs': seq<nat>, ghost start': nat)
    requires Scanning(s, i, cs, inQuotes, fieldCount, start, current, fields) && i < |s|
    ensures done ==> fields' == FieldsOf(s)
    ensures !done ==> Scanning(s, i + 1, cs', inQuotes', fieldCount', start', current', fields')
  {
    var c := s[i];
    ScanStep(s, i);
    if c == ',' && !inQuotes {
      var closed := CloseField(s, cs, i, current, fields);
      if fieldCount + 1 == ExpectedFields - 1 {
        fields' := RestField(s, cs + [i], i, closed);
        return true, inQuotes, fieldCount + 1, "", fields', cs + [i], i + 1;
      }
      SeparatorAdvances(s, i, cs, inQuotes, fieldCount, start, current, fields, closed);
      return false, inQuotes, fieldCount + 1, "", closed, cs + [i], i + 1;
    }
    OtherAdvances(s, i, cs, inQuotes, fieldCount, start, current, fields);
    inQuotes' := if c == '"' then !inQuotes else inQuotes;
    return false, inQuotes', fieldCount, current + [c], fields, cs, start;
  }

  /** The separator at `c` closes the open field: its trimmed, unquoted text is appended. */
  method CloseField(s: string, ghost cs: seq<nat>, c: nat, current: string, fields: seq<string>)
    returns (fields': seq<string>)
    requires c < |s| && cs + [c] == SeparatorsBefore(s, c + 1)
    requires FieldStart(cs, |cs|) <= c && current == s[FieldStart(cs, |cs|)..c]
    requires fields == FieldsUpTo(s, cs, |cs|)
    ensures fields' == FieldsUpTo(s, cs + [c], |cs| + 1)
  {
    SeparatorsSound(s, c + 1);
    FieldsKept(s, cs, c);
    FieldsUpToStable(s, cs, c, |cs|);
    var value := StripQuotePair(Trim(current, JsSpaces));
    fields' := fields + [value];
  }

  /** The line ended inside the open field: its trimmed, unquoted text is the last field. */
  method LastField(s: string, ghost cs: seq<nat>, current: string, fields: seq<string>)
    returns (fields': seq<string>)
    requires cs == SeparatorsBefore(s, |s|) && |cs| < ExpectedFields - 1
    requires FieldStart(cs, |cs|) <= |s| && current == s[FieldStart(cs, |cs|)..]
    requires fields == FieldsUpTo(s, cs, |cs|)
    ensures fields' == FieldsOf(s)
  {
    assert RawField(s, cs, |cs|) == current;
    var value := StripQuotePair(Trim(current, JsSpaces));
    fields' := fields + [value];
  }

  /** After the fifth separator `i`, the rest of the line is the sixth field. */
  method RestField(s: string, ghost cs: seq<nat>, i: nat, fields: seq<string>)
    returns (fields': seq<string>)
    requires i < |s| && cs == SeparatorsBefore(s, i + 1) && |cs| == ExpectedFields - 1
    requires cs[|cs| - 1] == i && fields == FieldsUpTo(s, cs, |cs|)
    ensures fields' == FieldsOf(s)
  {
    FinalCuts(s, i + 1);
    FieldsUpToSnoc(s, cs, |cs|);
    RawFieldAfter(s, cs, i);
    var last := StripQuotePair(Trim(s[i + 1..], JsSpaces));
    fields' := fields + [last];
  }

  /** One field more is the next field appended. */
  lemma FieldsUpToSnoc(s: string, cs: seq<nat>, n: nat)
    ensures FieldsUpTo(s, cs, n + 1) == FieldsUpTo(s, cs, n) + [Field(s, cs, n)]
  {
  }

  /** The field after the last cut `i` is the rest of the line. */
  lemma RawFieldAfter(s: string, cs: seq<nat>, i: nat)
    requires i < |s| && |cs| > 0 && cs[|cs| - 1] == i
    ensures RawField(s, cs, |cs|) == s[i + 1..]
  {
  }

  /** A slice grows by its next character. */
  lemma Extend(s: string, a: nat, i: nat)
    requires a <= i < |s|
    ensures s[a..i] + [s[i]] == s[a..i + 1]
  {
  }

  /** Fields before a new cut are unchanged by it. */
  lemma FieldsUpToStable(s: string, cs: seq<nat>, c: nat, n: nat)
    requires n <= |cs|
    requires forall j :: 0 <= j < |cs| ==> RawField(s, cs + [c], j) == RawField(s, cs, j)
    ensures FieldsUpTo(s, cs + [c], n) == FieldsUpTo(s, cs, n)
  {
    TabulateAgree(n, j => Field(s, cs + [c], j), j => Field(s, cs, j));
  }

  /** Appending a cut leaves the earlier fields as they were and closes the open one. */
  lemma FieldsKept(s: string, cs: seq<nat>, c: nat)
    requires ValidCuts(s, cs + [c])
    ensures FieldStart(cs, |cs|) <= c < |s|
    ensures forall j :: 0 <= j < |cs| ==> RawField(s, cs + [c], j) == RawField(s, cs, j)
    ensures RawField(s, cs + [c], |cs|) == s[FieldStart(cs, |cs|)..c]
  {
    var cs' := cs + [c];
    assert forall k :: 0 <= k < |cs| ==> cs'[k] == cs[k];
    assert cs'[|cs|] == c;
    if |cs| > 0 {
      assert cs'[|cs| - 1] < cs'[|cs|];
    }
  }

  /** When the separators before `n` already number five, they are the cuts of the whole line. */
  lemma FinalCuts(s: string, n: nat)
    requires n <= |s| && |SeparatorsBefore(s, n)| == ExpectedFields - 1
    ensures Cuts(s) == SeparatorsBefore(s, n)
  {
    SeparatorsPrefix(s, n, |s|);
  }

  /**
   * The tokenizer's field count: one more than the number of separators, capped
   * at six fields.
   */
  lemma FieldCount(line: string)
    ensures var s := Trim(line, JsSpaces); var k := |SeparatorsBefore(s, |s|)|;
      |LineFields(line)| == (if k < ExpectedFields - 1 then k else ExpectedFields - 1) + 1
  {
  }

  /**
   * A position is a cut exactly when it is a comma outside quotes with fewer than
   * five such commas before it.
   */
  lemma {:induction false} CutIff(s: string, p: nat)
    requires p < |s|
    ensures p in Cuts(s) <==> IsSeparator(s, p) && |SeparatorsBefore(s, p)| < ExpectedFields - 1
  {
    var all := SeparatorsBefore(s, |s|);
    SeparatorsSound(s, |s|);
    SeparatorsPrefix(s, p, |s|);
    SeparatorsPrefix(s, p + 1, |s|);
    var before := SeparatorsBefore(s, p);
    SeparatorsSound(s, p);
    if IsSeparator(s, p) {
      assert SeparatorsBefore(s, p + 1) == before + [p];
      assert all[|before|] == p;
    } else {
      assert SeparatorsBefore(s, p + 1) == before;
    }
    if p in Cuts(s) {
      var k :| 0 <= k < |Cuts(s)| && Cuts(s)[k] == p;
      assert all[k] == p;
      // every earlier separator is an earlier cut
      forall m | 0 <= m < |before| ensures before[m] == all[m] && all[m] < p {}
    }
  }
}
