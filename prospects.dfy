/**
 * The prospect pipeline's value logic: reading a prospect CSV file into rows,
 * the stage a review decision gives, the bulk changes by selected ids, and the
 * split `finalizeProspects` makes into new leads and remaining prospects.
 */
module Prospects {
  import opened Wrappers
  import opened Text
  import opened Seqs
  import opened Records
  import opened CsvLine

  // ---------------------------------------------------------------------------
  // parseProspectCSV

  /** A line without the `\r` that precedes its line break. */
  function DropCR(l: string): string {
    if |l| > 0 && l[|l| - 1] == '\r' then l[..|l| - 1] else l
  }

  /**
   * `csvData.split(/\r?\n/)`: the pieces between `\n`s, each piece that a `\n`
   * ends losing the one `\r` right before it.
   */
  function SplitLines(s: string): (r: seq<string>)
    ensures |r| == |Split(s, "\n")| >= 1
  {
    var ps := Split(s, "\n");
    seq(|ps|, k requires 0 <= k < |ps| => if k < |ps| - 1 then DropCR(ps[k]) else ps[k])
  }

  /** `.filter(line => line.trim())`: the lines that are not blank. */
  function NonBlank(lines: seq<string>): seq<string> {
    Filter(lines, l => Trim(l, JsSpaces) != "")
  }

  /** `s.replace(/\s+/g, '')`: the characters of `s` that are not white space, in order. */
  function RemoveSpaces(s: string): string {
    if s == [] then []
    else (if IsSpace(JsSpaces, s[0]) then [] else [s[0]]) + RemoveSpaces(s[1..])
  }

  /** What is kept comes from the text and is not white space; a text without white space is kept whole. */
  lemma {:induction false} RemoveSpacesSpec(s: string)
    ensures forall c :: c in RemoveSpaces(s) ==> c in s && !IsSpace(JsSpaces, c)
    ensures (forall i :: 0 <= i < |s| ==> !IsSpace(JsSpaces, s[i])) ==> RemoveSpaces(s) == s
  {
    if s != [] {
      RemoveSpacesSpec(s[1..]);
      assert s == [s[0]] + s[1..];
    }
  }

  /** `header.toLowerCase().replace(/\s+/g, '')`: the key a header column is stored under. */
  function ProspectKey(header: string): string {
    RemoveSpaces(Lower(header))
  }

  /** A key holds no white space and no upper-case letter, and is its own key. */
  lemma ProspectKeyClean(header: string)
    ensures var k := ProspectKey(header);
      (forall i :: 0 <= i < |k| ==> !IsSpace(JsSpaces, k[i]) && !('A' <= k[i] <= 'Z')) &&
      ProspectKey(k) == k
  {
    var k := ProspectKey(header);
    var low := Lower(header);
    RemoveSpacesSpec(low);
    forall i | 0 <= i < |k| ensures !IsSpace(JsSpaces, k[i]) && !('A' <= k[i] <= 'Z') {
      assert k[i] in k;
    }
    assert Lower(k) == k;
    RemoveSpacesSpec(k);
  }

  /** `values[index] || ''`: the value in column `j`, empty past the end of the row. */
  function ValueAt(values: seq<string>, j: nat): string {
    if j < |values| then values[j] else ""
  }

  /**
   * The object `headers.forEach` fills after its first `n` columns: column by
   * column in order, each header's key set to that column's value, so a later
   * column overwrites an earlier one with the same key.
   */
  function RowMapUpTo(headers: seq<string>, values: seq<string>, n: nat): map<string, string>
    requires n <= |headers|
  {
    if n == 0 then map[]
    else RowMapUpTo(headers, values, n - 1)[ProspectKey(headers[n - 1]) := ValueAt(values, n - 1)]
  }

  /** The object `headers.forEach` fills. */
  function RowMap(headers: seq<string>, values: seq<string>): map<string, string> {
    RowMapUpTo(headers, values, |headers|)
  }

  /** The last of the first `n` columns whose header has key `key`, or -1 when none has. */
  function LastWithKey(headers: seq<string>, key: string, n: nat): (r: int)
    requires n <= |headers|
    ensures -1 <= r < n
    ensures r >= 0 ==> ProspectKey(headers[r]) == key
    ensures r >= 0 ==> forall m :: r < m < n ==> ProspectKey(headers[m]) != key
    ensures r == -1 ==> forall j :: 0 <= j < n ==> ProspectKey(headers[j]) != key
  {
    if n == 0 then -1
    else if ProspectKey(headers[n - 1]) == key then n - 1
    else LastWithKey(headers, key, n - 1)
  }

  /**
   * A key is present exactly when some header has it, and holds the value of the
   * last column with that key.
   */
  lemma {:induction false} RowMapLookup(headers: seq<string>, values: seq<string>, key: string, n: nat)
    requires n <= |headers|
    ensures key in RowMapUpTo(headers, values, n) <==> LastWithKey(headers, key, n) >= 0
    ensures key in RowMapUpTo(headers, values, n) ==>
      RowMapUpTo(headers, values, n)[key] == ValueAt(values, LastWithKey(headers, key, n))
  {
    if n > 0 && ProspectKey(headers[n - 1]) != key {
      RowMapLookup(headers, values, key, n - 1);
    }
  }

  /** `prospect[key] || ''`: the value under a key, empty when it is missing. */
  function Get(m: map<string, string>, key: string): string {
    if key in m then m[key] else ""
  }

  /** `a || b` on strings: `a` unless it is empty. */
  function Or(a: string, b: string): string {
    if a != "" then a else b
  }

  /** The industry every CSV-imported prospect is given. */
  const CsvIndustry := "CNC Machining"

  /** The object `parseProspectCSV` builds for a row: `mappedProspect`. */
  datatype ProspectRow = ProspectRow(
    company: string, state: string, website: string, phone: string,
    industry: string, source: string, status: string, reason: string, stage: Stage)

  /** `mappedProspect`: the row's columns under the keys `lead`, `state`, `website`, `phones`. */
  function MapRow(m: map<string, string>): ProspectRow {
    ProspectRow(
      Get(m, "lead"), Get(m, "state"), Get(m, "website"), Get(m, "phones"),
      CsvIndustry, "CSV Import", Or(Get(m, "status"), "unreviewed"), Get(m, "reason"), Unreviewed)
  }

  /** How many fields a data row needs. */
  const ProspectFields: nat := 6

  /**
   * One data line: blank lines, rows with fewer than six fields and rows without
   * a company name give nothing.
   */
  function RowOf(headers: seq<string>, line: string): Option<ProspectRow> {
    if Trim(line, JsSpaces) == "" then None
    else
      var values := LineFields(line);
      if |values| < ProspectFields then None
      else
        var r := MapRow(RowMap(headers, values));
        if r.company == "" then None else Some(r)
  }

  /** The rows of the data lines, in line order. */
  function RowsOf(headers: seq<string>, lines: seq<string>): (r: seq<ProspectRow>)
    ensures |r| <= |lines|
    ensures forall k :: 0 <= k < |r| ==>
      r[k].company != "" && r[k].stage == Unreviewed && r[k].industry == CsvIndustry &&
      r[k].source == "CSV Import"
    decreases |lines|
  {
    if lines == [] then []
    else
      var n := |lines| - 1;
      RowsOf(headers, lines[..n]) + (match RowOf(headers, lines[n]) case Some(p) => [p] case None => [])
  }

  /**
   * What `parseProspectCSV` returns: nothing when the text has no non-blank line
   * (reading the header of an empty list fails), otherwise the rows of the lines
   * after the first non-blank one, read with that line's fields as headers.
   */
  function ProspectRows(csv: string): Option<seq<ProspectRow>> {
    var lines := NonBlank(SplitLines(csv));
    if lines == [] then None else Some(RowsOf(LineFields(lines[0]), lines[1..]))
  }

  /**
   * Rows keep the order of their lines: the rows of two runs of lines are the
   * rows of the first run, then those of the second.
   */
  lemma {:induction false} RowsOfConcat(headers: seq<string>, a: seq<string>, b: seq<string>)
    ensures RowsOf(headers, a + b) == RowsOf(headers, a) + RowsOf(headers, b)
    decreases |b|
  {
    if b != [] {
      var n := |b| - 1;
      assert (a + b)[..|a| + n] == a + b[..n];
      assert (a + b)[|a| + n] == b[n];
      RowsOfConcat(headers, a, b[..n]);
    } else {
      assert a + b == a;
    }
  }

  /** A single line gives its own row or nothing. */
  lemma RowsOfOne(headers: seq<string>, line: string)
    ensures RowsOf(headers, [line]) == match RowOf(headers, line) case Some(p) => [p] case None => []
  {
    assert [line][..0] == [];
  }

  /**
   * The import needs a header: the result is missing exactly when the text has
   * no non-blank line, and a text whose only non-blank line is the header gives
   * no prospects.
   */
  lemma ProspectRowsHeader(csv: string)
    ensures ProspectRows(csv).None? <==> forall l :: l in SplitLines(csv) ==> Trim(l, JsSpaces) == ""
    ensures |NonBlank(SplitLines(csv))| == 1 ==> ProspectRows(csv) == Some([])
  {
    var lines := NonBlank(SplitLines(csv));
    if lines == [] {
      forall l | l in SplitLines(csv) ensures Trim(l, JsSpaces) == "" {
        assert l !in lines;
      }
    } else {
      assert lines[0] in SplitLines(csv);
    }
  }

  /**
   * Every prospect read from a file has a company name, stage `unreviewed`,
   * industry `CNC Machining` and source `CSV Import`; there are fewer of them than
   * non-blank lines.
   */
  lemma ProspectRowsShape(csv: string)
    requires ProspectRows(csv).Some?
    ensures var r := ProspectRows(csv).value;
      |r| < |NonBlank(SplitLines(csv))| &&
      forall p :: p in r ==>
        p.company != "" && p.stage == Unreviewed && p.industry == CsvIndustry && p.source == "CSV Import"
  {
  }

  /** The row of a line is read from its key map: a field that is not the company can be empty. */
  lemma RowOfFields(headers: seq<string>, line: string)
    requires RowOf(headers, line).Some?
    ensures var values := LineFields(line); var m := RowMap(headers, values);
      |values| == ProspectFields && RowOf(headers, line).value == MapRow(m) &&
      "lead" in m && m["lead"] != ""
  {
    LineFieldsShape(line);
    FieldCount(line);
  }

  /** `parseProspectCSV`. */
  method ParseProspectCSV(csvData: string) returns (prospects: Option<seq<ProspectRow>>)
    ensures prospects == ProspectRows(csvData)
  {
    var lines := NonBlank(SplitLines(csvData));
    if lines == [] {
      return None;
    }
    var headers := ParseCSVLine(lines[0]);
    var rows := ParseDataLines(headers, lines[1..]);
    prospects := Some(rows);
  }

  /** The loop of `parseProspectCSV` over the lines after the header. */
  method ParseDataLines(headers: seq<string>, data: seq<string>) returns (rows: seq<ProspectRow>)
    ensures rows == RowsOf(headers, data)
  {
    rows := [];
    var i := 0;
    while i < |data|
      invariant 0 <= i <= |data|
      invariant rows == RowsOf(headers, data[..i])
    {
      RowsOfSnoc(headers, data, i);
      var row := ParseRow(headers, data[i]);
      if row.Some? {
        rows := rows + [row.value];
      }
      i := i + 1;
    }
    assert data[..i] == data;
  }

  /** One more line adds its row, if it has one. */
  lemma RowsOfSnoc(headers: seq<string>, data: seq<string>, i: nat)
    requires i < |data|
    ensures RowsOf(headers, data[..i + 1]) ==
      RowsOf(headers, data[..i]) + match RowOf(headers, data[i]) case Some(p) => [p] case None => []
  {
    assert data[..i + 1][..i] == data[..i];
    assert data[..i + 1][i] == data[i];
  }

  /** The body of `parseProspectCSV`'s loop for one data line. */
  method ParseRow(headers: seq<string>, rawLine: string) returns (row: Option<ProspectRow>)
    ensures row == RowOf(headers, rawLine)
  {
    var line := Trim(rawLine, JsSpaces);
    TrimIdempotent(rawLine, JsSpaces);
    row := None;
    if line != "" {
      var values := ParseCSVLine(line);
      if |values| >= ProspectFields {
        var prospect := BuildRowMap(headers, values);
        var mapped := MapRow(prospect);
        if mapped.company != "" {
          row := Some(mapped);
        }
      }
    }
  }

  /** The `headers.forEach` loop that fills the row's key map. */
  method BuildRowMap(headers: seq<string>, values: seq<string>) returns (prospect: map<string, string>)
    ensures prospect == RowMap(headers, values)
  {
    prospect := map[];
    var j := 0;
    while j < |headers|
      invariant 0 <= j <= |headers|
      invariant prospect == RowMapUpTo(headers, values, j)
    {
      prospect := prospect[ProspectKey(headers[j]) := ValueAt(values, j)];
      j := j + 1;
    }
  }

  /**
   * A freshly imported prospect: the row's fields, a new id and date, stage
   * `unreviewed`, and empty text for what a row does not carry.
   */
  function NewProspect(r: ProspectRow, id: int, dateAdded: string): (p: Prospect)
    ensures p.id == id && p.stage == Unreviewed && p.company == r.company
  {
    Prospect(id, r.company, r.website, r.state, "", r.industry, "", "", "", "", r.phone, "", "",
             r.source, r.status, r.reason, Unreviewed, dateAdded)
  }

  /** The rows of file `f` as new prospects, row `k` with id `idOf(f, k)`. */
  function Stamped(rows: seq<ProspectRow>, f: nat, idOf: (nat, nat) -> int, dateAdded: string): (r: seq<Prospect>)
    ensures |r| == |rows|
    ensures forall k :: 0 <= k < |r| ==> r[k] == NewProspect(rows[k], idOf(f, k), dateAdded)
  {
    seq(|rows|, k requires 0 <= k < |rows| => NewProspect(rows[k], idOf(f, k), dateAdded))
  }

  /** What `parseProspectCSV` makes of each file. */
  function ParseAll(files: seq<string>): (r: seq<Option<seq<ProspectRow>>>)
    ensures |r| == |files| && forall f :: 0 <= f < |files| ==> r[f] == ProspectRows(files[f])
  {
    seq(|files|, f requires 0 <= f < |files| => ProspectRows(files[f]))
  }

  /**
   * `handleProspectCSVFile` after its first `n` files, given what each file
   * parses to: each file's rows appended to the stored prospects in file order,
   * until a file fails to parse, which ends the import (the files before it stay
   * imported). The flag says whether every file was read.
   */
  function ImportFiles(ps: seq<Prospect>, parsed: seq<Option<seq<ProspectRow>>>, idOf: (nat, nat) -> int,
                       dateAdded: string, n: nat): (seq<Prospect>, bool)
    requires n <= |parsed|
  {
    if n == 0 then (ps, true)
    else
      var prev := ImportFiles(ps, parsed, idOf, dateAdded, n - 1);
      if !prev.1 then prev
      else
        match parsed[n - 1]
        case None => (prev.0, false)
        case Some(rows) => (prev.0 + Stamped(rows, n - 1, idOf, dateAdded), true)
  }

  /** A prospect as a CSV import leaves it. */
  predicate FreshFromCsv(p: Prospect) {
    p.stage == Unreviewed && p.company != "" && p.industry == CsvIndustry && p.source == "CSV Import"
  }

  /** Rows as the CSV reader returns them. */
  predicate RowsFresh(rows: seq<ProspectRow>) {
    forall k :: 0 <= k < |rows| ==>
      rows[k].company != "" && rows[k].stage == Unreviewed && rows[k].industry == CsvIndustry &&
      rows[k].source == "CSV Import"
  }

  /** Every file's rows are as the reader returns them. */
  lemma ParseAllFresh(files: seq<string>)
    ensures forall f :: 0 <= f < |files| && ParseAll(files)[f].Some? ==> RowsFresh(ParseAll(files)[f].value)
  {
    forall f | 0 <= f < |files| && ParseAll(files)[f].Some? ensures RowsFresh(ParseAll(files)[f].value) {
      ProspectRowsShape(files[f]);
      var rows := ProspectRows(files[f]).value;
      assert forall k :: 0 <= k < |rows| ==> rows[k] in rows;
    }
  }

  /**
   * The import only appends: the stored prospects stay in front, and every
   * prospect after them is fresh from a file. The flag is set exactly when every
   * file parsed.
   */
  lemma {:induction false} ImportFilesSpec(ps: seq<Prospect>, parsed: seq<Option<seq<ProspectRow>>>,
                                           idOf: (nat, nat) -> int, dateAdded: string, n: nat)
    requires n <= |parsed|
    requires forall f :: 0 <= f < |parsed| && parsed[f].Some? ==> RowsFresh(parsed[f].value)
    ensures var r := ImportFiles(ps, parsed, idOf, dateAdded, n);
      |ps| <= |r.0| && r.0[..|ps|] == ps &&
      (r.1 <==> forall f :: 0 <= f < n ==> parsed[f].Some?) &&
      forall k :: |ps| <= k < |r.0| ==> FreshFromCsv(r.0[k])
  {
    if n > 0 {
      ImportFilesSpec(ps, parsed, idOf, dateAdded, n - 1);
      var prev := ImportFiles(ps, parsed, idOf, dateAdded, n - 1);
      if prev.1 && parsed[n - 1].Some? {
        var rows := parsed[n - 1].value;
        var added := Stamped(rows, n - 1, idOf, dateAdded);
        assert forall k :: 0 <= k < |added| ==> FreshFromCsv(added[k]) by {
          assert RowsFresh(rows);
        }
        AppendFresh(ps, prev.0, added);
      }
    }
  }

  lemma AppendFresh(ps: seq<Prospect>, a: seq<Prospect>, added: seq<Prospect>)
    requires |ps| <= |a| && a[..|ps|] == ps
    requires forall k :: |ps| <= k < |a| ==> FreshFromCsv(a[k])
    requires forall k :: 0 <= k < |added| ==> FreshFromCsv(added[k])
    ensures var r := a + added;
      |ps| <= |r| && r[..|ps|] == ps && forall k :: |ps| <= k < |r| ==> FreshFromCsv(r[k])
  {
    var r := a + added;
    assert r[..|ps|] == a[..|ps|];
    forall k | |ps| <= k < |r| ensures FreshFromCsv(r[k]) {
      if k >= |a| {
        assert r[k] == added[k - |a|];
      }
    }
  }

  /** `prospects.findIndex(p => p.id === id)`: the first position with that id, or -1. */
  function FindProspectIndex(ps: seq<Prospect>, id: int): (r: int)
    ensures -1 <= r < |ps|
    ensures r >= 0 ==> ps[r].id == id && forall k :: 0 <= k < r ==> ps[k].id != id
    ensures r == -1 ==> forall k :: 0 <= k < |ps| ==> ps[k].id != id
    decreases |ps|
  {
    if ps == [] then -1
    else if ps[0].id == id then 0
    else
      var r := FindProspectIndex(ps[1..], id);
      if r == -1 then -1 else r + 1
  }

  // ---------------------------------------------------------------------------
  // Review and bulk changes

  /** The stage a review decision gives: `approve` finalizes, `reject` disqualifies, anything else keeps it. */
  function StageAfter(stage: Stage, decision: string): (s: Stage)
    ensures decision == "approve" ==> s == Finalized
    ensures decision == "reject" ==> s == Unqualified
    ensures decision != "approve" && decision != "reject" ==> s == stage
  {
    if decision == "approve" then Finalized
    else if decision == "reject" then Unqualified
    else stage
  }

  /** What the review form supplies. */
  datatype ReviewForm = ReviewForm(
    contact: string, email: string, phone: string, industry: string, notes: string, decision: string)

  /** `saveProspectReview` on one prospect: the form's fields written over the prospect's. */
  function Reviewed(p: Prospect, f: ReviewForm): (q: Prospect)
    ensures q.id == p.id && q.company == p.company && q.website == p.website &&
      q.state == p.state && q.service == p.service && q.source == p.source
    ensures q.decision == f.decision && q.stage == StageAfter(p.stage, f.decision)
  {
    p.(contact := f.contact, email := f.email, phone := f.phone, industry := f.industry,
       notes := f.notes, decision := f.decision, stage := StageAfter(p.stage, f.decision))
  }

  /** A prospect with a stage and decision set, as the bulk buttons set them. */
  function Decided(p: Prospect, stage: Stage, decision: string): Prospect {
    p.(stage := stage, decision := decision)
  }

  /** One prospect after the bulk approve or reject loop: decided when its id is selected. */
  function MarkOne(p: Prospect, ids: seq<int>, stage: Stage, decision: string): Prospect {
    if p.id in ids then Decided(p, stage, decision) else p
  }

  /** What the bulk approve or reject loop leaves: every selected prospect decided, the rest as they were. */
  function MarkSelected(ps: seq<Prospect>, ids: seq<int>, stage: Stage, decision: string): seq<Prospect> {
    seq(|ps|, i requires 0 <= i < |ps| => MarkOne(ps[i], ids, stage, decision))
  }

  /**
   * The bulk change touches only the selected prospects: they get the stage and
   * decision and keep every other field; the others are unchanged; the order and
   * the ids stay as they were.
   */
  lemma MarkSelectedSpec(ps: seq<Prospect>, ids: seq<int>, stage: Stage, decision: string)
    ensures var r := MarkSelected(ps, ids, stage, decision);
      |r| == |ps| &&
      forall i :: 0 <= i < |ps| ==>
        r[i].id == ps[i].id &&
        (ps[i].id in ids ==> r[i].stage == stage && r[i].decision == decision &&
                             r[i].(stage := ps[i].stage, decision := ps[i].decision) == ps[i]) &&
        (ps[i].id !in ids ==> r[i] == ps[i])
  {
  }

  /** `bulkDeleteProspects`'s filter: the prospects whose id is not selected. */
  function DeleteSelected(ps: seq<Prospect>, ids: seq<int>): seq<Prospect> {
    Filter(ps, (p: Prospect) => p.id !in ids)
  }

  /**
   * Delete removes exactly the selected ids: a prospect stays exactly when its id
   * is not selected, as often as before, and in its order.
   */
  lemma DeleteSelectedSpec(ps: seq<Prospect>, ids: seq<int>)
    ensures var r := DeleteSelected(ps, ids);
      (forall p :: p in r <==> p in ps && p.id !in ids) &&
      (forall p :: p in r ==> multiset(r)[p] == multiset(ps)[p]) &&
      Subsequence(r, ps)
  {
    var keep := (p: Prospect) => p.id !in ids;
    FilterSubsequence(ps, keep);
    forall p | p in DeleteSelected(ps, ids) ensures multiset(DeleteSelected(ps, ids))[p] == multiset(ps)[p] {
      FilterCount(ps, keep, p);
    }
  }

  // ---------------------------------------------------------------------------
  // finalizeProspects

  predicate IsFinal(p: Prospect) {
    p.stage == Finalized
  }

  /** The lead a finalized prospect becomes: never called, industry falling back to the service. */
  function ToLeadData(p: Prospect, dateAdded: string): (l: LeadData)
    ensures l.company == p.company && l.contact == p.contact && l.email == p.email &&
      l.phone == p.phone && l.state == p.state && l.website == p.website && l.notes == p.notes
    ensures l.industry == (if p.industry != "" then p.industry else p.service)
    ensures l.lastCalled.None? && l.callOutcome.None? && l.meetingData.None?
  {
    LeadData(p.company, p.contact, p.email, p.phone, Or(p.industry, p.service), p.state,
             p.website, p.notes, "", dateAdded, None, None, None)
  }

  /** The finalized prospects. */
  function FinalizedOf(ps: seq<Prospect>): seq<Prospect> {
    Filter(ps, IsFinal)
  }

  /** `remainingProspects`: the prospects that are not finalized, in order. */
  function Remaining(ps: seq<Prospect>): seq<Prospect> {
    Filter(ps, (p: Prospect) => !IsFinal(p))
  }

  /** `newLeads`: one lead per finalized prospect, in order. */
  function NewLeads(ps: seq<Prospect>, dateAdded: string): seq<LeadData> {
    var f := FinalizedOf(ps);
    seq(|f|, i requires 0 <= i < |f| => ToLeadData(f[i], dateAdded))
  }

  /**
   * Finalizing partitions the prospects: one new lead per finalized prospect, in
   * order, every remaining prospect not finalized, and together exactly the
   * prospects there were, each as often as before.
   */
  lemma FinalizeSplit(ps: seq<Prospect>, dateAdded: string)
    ensures var f, rest := FinalizedOf(ps), Remaining(ps);
      |NewLeads(ps, dateAdded)| == |f| &&
      (forall i :: 0 <= i < |f| ==> NewLeads(ps, dateAdded)[i] == ToLeadData(f[i], dateAdded)) &&
      (forall p :: p in rest <==> p in ps && p.stage != Finalized) &&
      (forall p :: p in f <==> p in ps && p.stage == Finalized) &&
      |f| + |rest| == |ps| &&
      multiset(f) + multiset(rest) == multiset(ps)
  {
    FilterPartition(ps, IsFinal, (p: Prospect) => !IsFinal(p));
  }

  /**
   * A bulk approval followed by finalizing turns into leads exactly the prospects
   * that were already finalized or were selected, and keeps all others.
   */
  lemma ApproveThenFinalize(ps: seq<Prospect>, ids: seq<int>)
    ensures var r := MarkSelected(ps, ids, Finalized, "approve");
      (forall i :: 0 <= i < |ps| ==> (r[i] in FinalizedOf(r) <==> ps[i].stage == Finalized || ps[i].id in ids)) &&
      (forall p :: p in Remaining(r) ==> p in ps && p.id !in ids && p.stage != Finalized)
  {
    var r := MarkSelected(ps, ids, Finalized, "approve");
    forall p | p in Remaining(r) ensures p in ps && p.id !in ids && p.stage != Finalized {
      var i :| 0 <= i < |r| && r[i] == p;
    }
  }
}
