/**
 * The text handling of the ThomasNet integration script
 * (`thomasnet-integration.py`): the conversion of the scraper's CSV file into
 * one dictionary per row, the extraction of the CSV path from the scraper's
 * standard output, the scan of the constants file for the names of a slug map,
 * and the command-line dispatch of `main`. Running the scraper, reading files
 * and printing JSON are replaced by the values they produce.
 */
module Thomasnet {
  import opened Wrappers
  import opened Text
  import opened Seqs

  // ---------------------------------------------------------------------------
  // Reading the CSV file

  /**
   * `f.readlines()` on the text of a file (after Python's newline translation):
   * each line keeps its `\n`; a last line without one is kept too.
   */
  function ReadLines(text: string): seq<string>
    decreases |text|
  {
    if text == "" then []
    else
      var i := Find(text, "\n");
      if i < 0 then [text] else [text[..i + 1]] + ReadLines(text[i + 1..])
  }

  function Ident(s: string): string {
    s
  }

  /** A text with a line break splits into its first line and the lines of the rest. */
  lemma ReadLinesCons(text: string)
    requires text != "" && Find(text, "\n") >= 0
    ensures var i := Find(text, "\n");
      text == text[..i + 1] + text[i + 1..] && text[i] == '\n' &&
      ReadLines(text) == [text[..i + 1]] + ReadLines(text[i + 1..])
  {
    var i := Find(text, "\n");
    assert text[i] == text[i..i + 1][0];
  }

  /** `readlines` loses nothing and invents nothing: the lines put back together are the text. */
  lemma {:induction false} ReadLinesJoin(text: string)
    ensures ConcatMap(ReadLines(text), Ident) == text
    decreases |text|
  {
    if text != "" {
      var i := Find(text, "\n");
      if i < 0 {
        ConcatMapOne(text, Ident);
      } else {
        ReadLinesCons(text);
        var head, rest := text[..i + 1], text[i + 1..];
        ReadLinesJoin(rest);
        ConcatMapConcat([head], ReadLines(rest), Ident);
        ConcatMapOne(head, Ident);
      }
    }
  }

  /** A line `readlines` returns before the last: it ends in a line break. */
  predicate Broken(line: string) {
    line != "" && line[|line| - 1] == '\n'
  }

  /** A line holds no line break except, possibly, as its last character. */
  predicate OneLine(line: string) {
    forall j :: 0 <= j < |line| - 1 ==> line[j] != '\n'
  }

  /**
   * No line is empty, no line holds a line break before its end, and every line
   * but the last ends in a line break.
   */
  predicate LinesShaped(lines: seq<string>) {
    (forall k :: 0 <= k < |lines| ==> lines[k] != "" && OneLine(lines[k])) &&
    (forall k :: 0 <= k < |lines| - 1 ==> Broken(lines[k]))
  }

  lemma {:induction false} ReadLinesEnds(text: string)
    ensures LinesShaped(ReadLines(text))
    decreases |text|
  {
    if text != "" {
      var i := Find(text, "\n");
      if i < 0 {
        ReadLinesLast(text);
      } else {
        ReadLinesCons(text);
        var head, rest := text[..i + 1], text[i + 1..];
        ReadLinesEnds(rest);
        FirstLineOne(text);
        LinesCons(head, ReadLines(rest));
      }
    }
  }

  /** A text without a line break is one line. */
  lemma ReadLinesLast(text: string)
    requires text != "" && Find(text, "\n") < 0
    ensures ReadLines(text) == [text] && LinesShaped(ReadLines(text))
  {
    forall j | 0 <= j < |text| ensures text[j] != '\n' {
      assert !OccursAt(text, "\n", j);
      assert text[j..j + 1] == [text[j]];
    }
  }

  /** The text up to and including its first line break is one line. */
  lemma FirstLineOne(text: string)
    requires Find(text, "\n") >= 0
    ensures OneLine(text[..Find(text, "\n") + 1])
  {
    var i := Find(text, "\n");
    var head := text[..i + 1];
    forall j | 0 <= j < |head| - 1 ensures head[j] != '\n' {
      assert !OccursAt(text, "\n", j);
      assert text[j..j + 1] == [text[j]];
    }
  }

  lemma LinesCons(head: string, rest: seq<string>)
    requires Broken(head) && OneLine(head) && LinesShaped(rest)
    ensures LinesShaped([head] + rest)
  {
    var r := [head] + rest;
    assert forall k :: 0 < k < |r| ==> r[k] == rest[k - 1];
  }

  // ---------------------------------------------------------------------------
  // One row of the CSV file as a dictionary

  /** A scraped prospect: the row as a dictionary from header key to value. */
  type Row = map<string, string>

  /** `[v.strip() for v in parts]`. */
  function StripAll(parts: seq<string>): (r: seq<string>)
    ensures |r| == |parts|
    ensures forall i :: 0 <= i < |parts| ==> r[i] == Trim(parts[i], PySpaces)
  {
    seq(|parts|, i requires 0 <= i < |parts| => Trim(parts[i], PySpaces))
  }

  /** The stripped comma-separated cells of a line (no quoting is understood). */
  function Cells(line: string): seq<string> {
    StripAll(Split(line, ","))
  }

  /** `replace(' ', '_')`. */
  function Underscored(s: string): (r: string)
    ensures |r| == |s|
    ensures forall i :: 0 <= i < |s| ==> r[i] == if s[i] == ' ' then '_' else s[i]
  {
    seq(|s|, i requires 0 <= i < |s| => if s[i] == ' ' then '_' else s[i])
  }

  /** `header.lower().replace(' ', '_')`: the dictionary key of a header. */
  function HeaderKey(header: string): string {
    Underscored(Lower(header))
  }

  /** A key is as long as its header and holds no space and no capital letter. */
  lemma HeaderKeyShape(header: string)
    ensures |HeaderKey(header)| == |header|
    ensures forall i :: 0 <= i < |header| ==> HeaderKey(header)[i] != ' ' && !('A' <= HeaderKey(header)[i] <= 'Z')
    ensures forall i :: 0 <= i < |header| && header[i] != ' ' ==> HeaderKey(header)[i] == LowerChar(header[i])
  {
  }

  /**
   * The dictionary after the first `n` headers: header `i` sets its key to value
   * `i` when there is one, later headers overwriting earlier ones with the same key.
   */
  function RowOf(headers: seq<string>, values: seq<string>, n: nat): Row
    requires n <= |headers|
  {
    if n == 0 then map[]
    else
      var row := RowOf(headers, values, n - 1);
      if n - 1 < |values| then row[HeaderKey(headers[n - 1]) := values[n - 1]] else row
  }

  /** The keys are those of the headers that have a value. */
  lemma {:induction false} RowKeys(headers: seq<string>, values: seq<string>, n: nat)
    requires n <= |headers|
    ensures forall k :: k in RowOf(headers, values, n) <==>
      exists i :: 0 <= i < n && i < |values| && HeaderKey(headers[i]) == k
  {
    if n > 0 {
      RowKeys(headers, values, n - 1);
    }
  }

  /** Header `i` has no later header with a value and the same key. */
  predicate LastWithKey(headers: seq<string>, values: seq<string>, n: nat, i: nat)
    requires n <= |headers|
  {
    i < n && i < |values| &&
    forall j :: i < j < n && j < |values| ==> HeaderKey(headers[j]) != HeaderKey(headers[i])
  }

  /** A key holds the value of the last header that has a value and that key. */
  lemma {:induction false} RowLast(headers: seq<string>, values: seq<string>, n: nat, i: nat)
    requires n <= |headers| && LastWithKey(headers, values, n, i)
    ensures HeaderKey(headers[i]) in RowOf(headers, values, n)
    ensures RowOf(headers, values, n)[HeaderKey(headers[i])] == values[i]
  {
    if i < n - 1 {
      RowLast(headers, values, n - 1, i);
    }
  }

  /** With distinct keys, every header that has a value maps to it. */
  lemma RowOfDistinct(headers: seq<string>, values: seq<string>, i: nat)
    requires forall i, j :: 0 <= i < j < |headers| ==> HeaderKey(headers[i]) != HeaderKey(headers[j])
    requires i < |headers| && i < |values|
    ensures HeaderKey(headers[i]) in RowOf(headers, values, |headers|)
    ensures RowOf(headers, values, |headers|)[HeaderKey(headers[i])] == values[i]
  {
    RowLast(headers, values, |headers|, i);
  }

  function Min(a: int, b: int): int {
    if a < b then a else b
  }

  /** With distinct keys, the row has one entry per header that has a value. */
  lemma {:induction false} RowSize(headers: seq<string>, values: seq<string>, n: nat)
    requires n <= |headers|
    requires forall i, j :: 0 <= i < j < |headers| ==> HeaderKey(headers[i]) != HeaderKey(headers[j])
    ensures |RowOf(headers, values, n).Keys| == Min(n, |values|)
  {
    if n > 0 {
      RowSize(headers, values, n - 1);
      if n - 1 < |values| {
        FreshKey(headers, values, n - 1);
        AddKey(RowOf(headers, values, n - 1), HeaderKey(headers[n - 1]), values[n - 1]);
      }
    }
  }

  /** With distinct keys, header `m`'s key is not yet in the row of the headers before it. */
  lemma FreshKey(headers: seq<string>, values: seq<string>, m: nat)
    requires m < |headers|
    requires forall i, j :: 0 <= i < j < |headers| ==> HeaderKey(headers[i]) != HeaderKey(headers[j])
    ensures HeaderKey(headers[m]) !in RowOf(headers, values, m)
  {
    RowKeys(headers, values, m);
  }

  /** A new key adds one entry. */
  lemma AddKey(row: Row, k: string, v: string)
    requires k !in row
    ensures |row[k := v].Keys| == |row.Keys| + 1
  {
    assert row[k := v].Keys == row.Keys + {k};
  }

  /** The inner loop: `for i, header in enumerate(headers): if i < len(values): ...`. */
  method BuildRow(headers: seq<string>, values: seq<string>) returns (row: Row)
    ensures row == RowOf(headers, values, |headers|)
  {
    row := map[];
    var i := 0;
    while i < |headers|
      invariant 0 <= i <= |headers|
      invariant row == RowOf(headers, values, i)
    {
      if i < |values| {
        row := row[HeaderKey(headers[i]) := values[i]];
      }
      i := i + 1;
    }
  }

  // ---------------------------------------------------------------------------
  // The whole file

  /** `line.strip()` is non-empty. */
  predicate NotBlank(line: string) {
    Trim(line, PySpaces) != ""
  }

  /** The dictionaries of the given data lines, in order. */
  function RowsOf(headers: seq<string>, lines: seq<string>): (r: seq<Row>)
    ensures |r| == |lines|
  {
    if lines == [] then []
    else [RowOf(headers, Cells(lines[0]), |headers|)] + RowsOf(headers, lines[1..])
  }

  lemma {:induction false} RowsOfIndex(headers: seq<string>, lines: seq<string>)
    ensures forall k :: 0 <= k < |lines| ==> RowsOf(headers, lines)[k] == RowOf(headers, Cells(lines[k]), |headers|)
  {
    if lines != [] {
      RowsOfIndex(headers, lines[1..]);
    }
  }

  lemma {:induction false} RowsOfConcat(headers: seq<string>, a: seq<string>, b: seq<string>)
    ensures RowsOf(headers, a + b) == RowsOf(headers, a) + RowsOf(headers, b)
  {
    if a == [] {
      assert a + b == b;
    } else {
      assert (a + b)[1..] == a[1..] + b;
      RowsOfConcat(headers, a[1..], b);
    }
  }

  /** The header cells: the first line split at commas, each stripped. */
  function Headers(lines: seq<string>): seq<string>
    requires lines != []
  {
    Cells(lines[0])
  }

  /**
   * What the conversion returns for the lines of the file: nothing unless there
   * is a data line after the header; otherwise one dictionary per non-blank data
   * line, in file order.
   */
  function ProspectsOf(lines: seq<string>): seq<Row> {
    if |lines| <= 1 then [] else RowsOf(Headers(lines), Filter(lines[1..], NotBlank))
  }

  /** The conversion of `run_thomasnet_scraper`: the header line, then the loop over the rest. */
  method CsvToProspects(lines: seq<string>) returns (prospects: seq<Row>)
    ensures prospects == ProspectsOf(lines)
  {
    if |lines| <= 1 {
      return [];
    }
    var headers := Cells(lines[0]);
    prospects := ConvertDataLines(headers, lines[1..]);
  }

  /** `for line in lines[1:]: if line.strip(): ...`. */
  method ConvertDataLines(headers: seq<string>, data: seq<string>) returns (prospects: seq<Row>)
    ensures prospects == RowsOf(headers, Filter(data, NotBlank))
  {
    prospects := [];
    var i := 0;
    while i < |data|
      invariant 0 <= i <= |data|
      invariant prospects == RowsOf(headers, Filter(data[..i], NotBlank))
    {
      var after := ConvertLine(headers, data[i], prospects);
      DataLineStep(headers, data, i, prospects, after);
      prospects := after;
      i := i + 1;
    }
    assert data[..i] == data;
  }

  /** One turn of the conversion loop: a non-blank data line adds its dictionary. */
  method ConvertLine(headers: seq<string>, line: string, before: seq<Row>) returns (after: seq<Row>)
    ensures NotBlank(line) ==> after == before + [RowOf(headers, Cells(line), |headers|)]
    ensures !NotBlank(line) ==> after == before
  {
    after := before;
    if NotBlank(line) {
      var values := Cells(line);
      var prospect := BuildRow(headers, values);
      after := before + [prospect];
    }
  }

  /** One more data line adds its dictionary if it is not blank. */
  lemma DataLineStep(headers: seq<string>, data: seq<string>, i: nat, before: seq<Row>, after: seq<Row>)
    requires i < |data| && before == RowsOf(headers, Filter(data[..i], NotBlank))
    requires NotBlank(data[i]) ==> after == before + [RowOf(headers, Cells(data[i]), |headers|)]
    requires !NotBlank(data[i]) ==> after == before
    ensures after == RowsOf(headers, Filter(data[..i + 1], NotBlank))
  {
    PrefixSnoc(data, i);
    FilterSnoc(data[..i], data[i], NotBlank);
    if NotBlank(data[i]) {
      RowsOfConcat(headers, Filter(data[..i], NotBlank), [data[i]]);
    }
  }

  /**
   * A file of a header only (or nothing) gives no prospect; otherwise there is
   * one per non-blank data line, and prospect `k` is the dictionary of the
   * `k`-th non-blank data line under the header keys.
   */
  lemma ProspectsCount(lines: seq<string>)
    ensures |lines| <= 1 ==> ProspectsOf(lines) == []
    ensures |lines| > 1 ==> |ProspectsOf(lines)| == |Filter(lines[1..], NotBlank)|
    ensures |lines| > 1 ==> forall k :: 0 <= k < |ProspectsOf(lines)| ==>
      ProspectsOf(lines)[k] == RowOf(Headers(lines), Cells(Filter(lines[1..], NotBlank)[k]), |Headers(lines)|)
  {
    if |lines| > 1 {
      RowsOfIndex(Headers(lines), Filter(lines[1..], NotBlank));
    }
  }

  /** A blank line anywhere after the header changes nothing. */
  lemma BlankLineIgnored(lines: seq<string>, k: nat, blank: string)
    requires 1 <= k <= |lines| && !NotBlank(blank)
    ensures ProspectsOf(lines[..k] + [blank] + lines[k..]) == ProspectsOf(lines)
  {
    var more := lines[..k] + [blank] + lines[k..];
    assert more[0] == lines[0];
    assert more[1..] == lines[1..k] + [blank] + lines[k..];
    assert lines[1..] == lines[1..k] + lines[k..];
    FilterSkip(lines[1..k], blank, lines[k..], NotBlank);
    if |lines| == 1 {
      assert lines[1..k] + lines[k..] == [];
    }
  }

  // ---------------------------------------------------------------------------
  // The CSV path in the scraper's output

  /** What the scraper prints before the path of the file it wrote. */
  const Marker := "CSV saved to:"

  /** `result.stdout.strip().split('\n')`. */
  function OutputLines(stdout: string): seq<string> {
    Split(Trim(stdout, PySpaces), "\n")
  }

  /** The index of the first line containing `p`, or `|lines|` when none does. */
  function FirstContaining(lines: seq<string>, p: string, i: nat): (k: nat)
    requires i <= |lines|
    ensures i <= k <= |lines|
    ensures forall j :: i <= j < k ==> !Contains(lines[j], p)
    ensures k < |lines| ==> Contains(lines[k], p)
    decreases |lines| - i
  {
    if i == |lines| || Contains(lines[i], p) then i else FirstContaining(lines, p, i + 1)
  }

  /** `line.split("CSV saved to:")[-1].strip()`. */
  function PathAfterMarker(line: string): string {
    Trim(LastPiece(line, Marker), PySpaces)
  }

  /** `csv_file` after the search: set from the first line holding the marker, if any. */
  function CsvFileOf(stdout: string): Option<string> {
    var lines := OutputLines(stdout);
    var k := FirstContaining(lines, Marker, 0);
    if k == |lines| then None else Some(PathAfterMarker(lines[k]))
  }

  /** `if not csv_file`: no line held the marker, or nothing but white space followed it. */
  predicate NoCsvFile(csvFile: Option<string>) {
    csvFile.None? || csvFile.value == ""
  }

  /** The search loop: the first line with the marker decides, and the loop stops there. */
  method FindCsvFile(stdout: string) returns (csvFile: Option<string>)
    ensures csvFile == CsvFileOf(stdout)
  {
    var outputLines := Split(Trim(stdout, PySpaces), "\n");
    csvFile := None;
    var i := 0;
    while i < |outputLines|
      invariant 0 <= i <= |outputLines|
      invariant FirstContaining(outputLines, Marker, 0) == FirstContaining(outputLines, Marker, i)
    {
      if Contains(outputLines[i], Marker) {
        csvFile := Some(Trim(LastPiece(outputLines[i], Marker), PySpaces));
        break;
      }
      i := i + 1;
    }
  }

  /**
   * A path is found exactly when some output line holds the marker; it then
   * comes from the first such line `k`, and is the stripped text following the
   * last occurrence `j` of the marker in it.
   */
  lemma CsvFileFound(stdout: string) returns (k: nat, j: int)
    ensures var lines := OutputLines(stdout);
      CsvFileOf(stdout).None? <==> forall i :: 0 <= i < |lines| ==> !Contains(lines[i], Marker)
    ensures var lines := OutputLines(stdout);
      CsvFileOf(stdout).Some? ==>
        k < |lines| && (forall i :: 0 <= i < k ==> !Contains(lines[i], Marker)) &&
        OccursAt(lines[k], Marker, j) && !Contains(lines[k][j + |Marker|..], Marker) &&
        CsvFileOf(stdout).value == Trim(lines[k][j + |Marker|..], PySpaces)
  {
    var lines := OutputLines(stdout);
    k := FirstContaining(lines, Marker, 0);
    j := 0;
    if k < |lines| {
      j := SplitLast(lines[k], Marker);
    }
  }

  /** A path that is used is not empty and does not start or end with white space. */
  lemma CsvFileTrimmed(stdout: string)
    requires !NoCsvFile(CsvFileOf(stdout))
    ensures var p := CsvFileOf(stdout).value;
      p != "" && !IsSpace(PySpaces, p[0]) && !IsSpace(PySpaces, p[|p| - 1])
  {
    var lines := OutputLines(stdout);
    var k := FirstContaining(lines, Marker, 0);
    TrimShape(LastPiece(lines[k], Marker), PySpaces);
  }

  // ---------------------------------------------------------------------------
  // One run of the scraper

  /** The dictionary `run_thomasnet_scraper` returns. */
  datatype ScrapeResult =
    | ScrapeFailed(error: string)
    | Scraped(prospects: seq<Row>, csvFile: string, count: nat)

  /**
   * What `run_thomasnet_scraper` returns, in the order it checks: the scraper
   * script is missing, the subprocess failed, no usable CSV path was printed;
   * otherwise the path with the prospects of the file (none when it is missing)
   * and their count.
   */
  function ScrapeResultOf(scraperFound: bool, returnCode: int, stdout: string, stderr: string,
                          csvFound: bool, csvText: string): ScrapeResult {
    if !scraperFound then ScrapeFailed("Thomasnet scraper not found")
    else if returnCode != 0 then ScrapeFailed("Scraper failed: " + stderr)
    else if NoCsvFile(CsvFileOf(stdout)) then ScrapeFailed("No CSV file generated")
    else
      var prospects := if csvFound then ProspectsOf(ReadLines(csvText)) else [];
      Scraped(prospects, CsvFileOf(stdout).value, |prospects|)
  }

  /**
   * `run_thomasnet_scraper`, with its outside world as parameters: whether the
   * scraper script exists, the return code and output of the subprocess, and
   * whether the CSV file exists and what it holds.
   */
  method RunScraper(scraperFound: bool, returnCode: int, stdout: string, stderr: string,
                    csvFound: bool, csvText: string) returns (r: ScrapeResult)
    ensures r == ScrapeResultOf(scraperFound, returnCode, stdout, stderr, csvFound, csvText)
    ensures !scraperFound ==> r == ScrapeFailed("Thomasnet scraper not found")
    ensures scraperFound && returnCode != 0 ==> r == ScrapeFailed("Scraper failed: " + stderr)
    ensures scraperFound && returnCode == 0 && NoCsvFile(CsvFileOf(stdout)) ==>
      r == ScrapeFailed("No CSV file generated")
    ensures scraperFound && returnCode == 0 && !NoCsvFile(CsvFileOf(stdout)) ==>
      r.Scraped? && r.csvFile == CsvFileOf(stdout).value &&
      r.prospects == (if csvFound then ProspectsOf(ReadLines(csvText)) else [])
    ensures r.Scraped? ==> r.count == |r.prospects|
    ensures scraperFound && returnCode != 0 ==> r.ScrapeFailed? && StartsWith(r.error, "Scraper failed:")
  {
    if !scraperFound {
      return ScrapeFailed("Thomasnet scraper not found");
    }
    if returnCode != 0 {
      r := ScrapeFailed("Scraper failed: " + stderr);
      assert ("Scraper failed: " + stderr)[..|"Scraper failed:"|] == "Scraper failed:";
      return;
    }
    var csvFile := FindCsvFile(stdout);
    if csvFile.None? || csvFile.value == "" {
      return ScrapeFailed("No CSV file generated");
    }
    var prospects := [];
    if csvFound {
      prospects := CsvToProspects(ReadLines(csvText));
    }
    r := Scraped(prospects, csvFile.value, |prospects|);
  }

  // ---------------------------------------------------------------------------
  // The names of a slug map in the constants file

  const StateMap := "state_slug_map"
  const ServiceMap := "service_slug_map"

  /** The line that opens the map. */
  function MapHeader(mapName: string): string {
    mapName + " = {"
  }

  /** `line.strip() == '}'`: the line that closes the map. */
  predicate Closes(line: string) {
    Trim(line, PySpaces) == "}"
  }

  /** `line.split('"')[1]`: the text between the first two quotes (to the end if there is one quote). */
  function QuotedName(line: string): string
    requires Contains(line, "\"")
  {
    SplitContains(line, "\"");
    Split(line, "\"")[1]
  }

  /**
   * The names the scan collects from line `i` on, given whether it is inside the
   * map: a header line enters the map, a closing line inside it ends the scan,
   * and a quoted line inside it gives its name unless that is empty.
   */
  function NamesFrom(lines: seq<string>, header: string, i: nat, inMap: bool): seq<string>
    requires i <= |lines|
    decreases |lines| - i
  {
    if i == |lines| then []
    else if Contains(lines[i], header) then NamesFrom(lines, header, i + 1, true)
    else if inMap && Closes(lines[i]) then []
    else if inMap && Contains(lines[i], "\"") && QuotedName(lines[i]) != "" then
      [QuotedName(lines[i])] + NamesFrom(lines, header, i + 1, inMap)
    else NamesFrom(lines, header, i + 1, inMap)
  }

  /** The names the scan of `mapName` collects from the text of the constants file, in file order. */
  function SlugNames(content: string, mapName: string): seq<string> {
    NamesFrom(Split(content, "\n"), MapHeader(mapName), 0, false)
  }

  /** The scan loop of `get_available_states` / `get_available_services`. */
  method ScanSlugMap(content: string, mapName: string) returns (names: seq<string>)
    ensures names == SlugNames(content, mapName)
  {
    var lines := Split(content, "\n");
    var header := mapName + " = {";
    names := [];
    var inMap := false;
    var i := 0;
    while i < |lines|
      invariant 0 <= i <= |lines|
      invariant names + NamesFrom(lines, header, i, inMap) == SlugNames(content, mapName)
    {
      var line := lines[i];
      ghost var rest := NamesFrom(lines, header, i + 1, inMap);
      if Contains(line, header) {
        inMap := true;
        i := i + 1;
        continue;
      }
      if inMap && Closes(line) {
        assert names + [] == names;
        break;
      }
      if inMap && Contains(line, "\"") {
        var name := QuotedName(line);
        if name != "" {
          assert names + ([name] + rest) == (names + [name]) + rest;
          names := names + [name];
        }
      }
      i := i + 1;
    }
  }

  /** Every collected name is non-empty and holds no quote. */
  lemma {:induction false} NamesShape(lines: seq<string>, header: string, i: nat, inMap: bool)
    requires i <= |lines|
    ensures forall k :: 0 <= k < |NamesFrom(lines, header, i, inMap)| ==>
      NamesFrom(lines, header, i, inMap)[k] != "" && '"' !in NamesFrom(lines, header, i, inMap)[k]
    decreases |lines| - i
  {
    if i < |lines| {
      var line := lines[i];
      if Contains(line, header) {
        NamesShape(lines, header, i + 1, true);
      } else if inMap && Closes(line) {
      } else {
        NamesShape(lines, header, i + 1, inMap);
        if inMap && Contains(line, "\"") && QuotedName(line) != "" {
          SplitFree(line, "\"");
          ContainsChar(QuotedName(line), '"');
          NamesCons(QuotedName(line), NamesFrom(lines, header, i + 1, inMap));
        }
      }
    }
  }

  lemma NamesCons(name: string, rest: seq<string>)
    requires name != "" && '"' !in name
    requires forall k :: 0 <= k < |rest| ==> rest[k] != "" && '"' !in rest[k]
    ensures forall k :: 0 <= k < |[name] + rest| ==> ([name] + rest)[k] != "" && '"' !in ([name] + rest)[k]
  {
    assert forall k :: 0 < k < |[name] + rest| ==> ([name] + rest)[k] == rest[k - 1];
  }

  /** Outside the map nothing is collected until a header line. */
  lemma {:induction false} NoHeaderNoNames(lines: seq<string>, header: string, i: nat)
    requires i <= |lines|
    requires forall j :: i <= j < |lines| ==> !Contains(lines[j], header)
    ensures NamesFrom(lines, header, i, false) == []
    decreases |lines| - i
  {
    if i < |lines| {
      NoHeaderNoNames(lines, header, i + 1);
    }
  }

  /** Inside the map, whatever follows the closing line is never looked at. */
  lemma {:induction false} ClosedMapIgnoresRest(body: seq<string>, close: string, tail: seq<string>,
                                                header: string, i: nat)
    requires i <= |body| && Closes(close) && !Contains(close, header)
    requires forall j :: i <= j < |body| ==> !Contains(body[j], header) && !Closes(body[j])
    ensures NamesFrom(body + [close] + tail, header, i, true) == NamesFrom(body + [close], header, i, true)
    decreases |body| - i
  {
    var long, short := body + [close] + tail, body + [close];
    if i < |body| {
      assert long[i] == body[i] && short[i] == body[i];
      ClosedMapIgnoresRest(body, close, tail, header, i + 1);
      NamesStep(long, short, header, i);
    } else {
      assert long[i] == close && short[i] == close;
    }
  }

  /** Inside the map, a line that neither opens nor closes it leaves two scans that agree after it agreeing. */
  lemma NamesStep(a: seq<string>, b: seq<string>, header: string, i: nat)
    requires i < |a| && i < |b| && a[i] == b[i] && !Contains(a[i], header) && !Closes(a[i])
    requires NamesFrom(a, header, i + 1, true) == NamesFrom(b, header, i + 1, true)
    ensures NamesFrom(a, header, i, true) == NamesFrom(b, header, i, true)
  {
  }

  /**
   * `get_available_states()` / `get_available_services()`, with the existence
   * and text of the constants file as parameters: the names sorted.
   */
  method GetAvailable(constantsFound: bool, content: string, mapName: string) returns (names: seq<string>)
    ensures !constantsFound ==> names == []
    ensures constantsFound ==> names == SortStrings(SlugNames(content, mapName))
    ensures Sorted(names)
    ensures constantsFound ==> multiset(names) == multiset(SlugNames(content, mapName))
  {
    if !constantsFound {
      return [];
    }
    var found := ScanSlugMap(content, mapName);
    names := SortStrings(found);
  }

  // ---------------------------------------------------------------------------
  // The command line

  /**
   * Python's `int(s)` on text: white space around an optionally signed run of
   * ASCII digits; anything else raises `ValueError` (`None` here).
   */
  function ParseInt(s: string): Option<int> {
    var t := Trim(s, PySpaces);
    var signed := t != [] && (t[0] == '+' || t[0] == '-');
    var digits := if signed then t[1..] else t;
    if digits == [] || !AllDigits(digits) then None
    else
      var value: int := DigitsValue(digits);
      Some(if signed && t[0] == '-' then -value else value)
  }

  /** `int(str(n)) == n`: reading back a printed number gives the number. */
  lemma ParseIntString(n: int)
    ensures ParseInt(IntToString(n)) == Some(n)
  {
    var m: nat := if n < 0 then -n else n;
    NatToStringValue(m);
    IntToStringUnspaced(n);
    TrimUnspaced(IntToString(n), PySpaces);
  }

  /** A printed number is a `-` or digits, then digits: no white space at either end. */
  lemma IntToStringUnspaced(n: int)
    ensures var t := IntToString(n); var d := NatToString(if n < 0 then -n else n);
      t != [] && !IsSpace(PySpaces, t[0]) && !IsSpace(PySpaces, t[|t| - 1]) &&
      (n < 0 ==> t[0] == '-' && t[1..] == d) && (n >= 0 ==> t == d)
  {
    var d := NatToString(if n < 0 then -n else n);
    var t := IntToString(n);
    assert t[|t| - 1] == d[|d| - 1];
    if n < 0 {
      assert t[1..] == d;
    }
  }

  /** Blank text is not a number. */
  lemma ParseIntBlank(s: string)
    requires AllIn(s, PySpaces)
    ensures ParseInt(s) == None
  {
    TrimBlank(s, PySpaces);
  }

  /** What `main` does for the arguments it is given. */
  datatype Command =
    | Scrape(state: string, service: string, sortOrder: string, maxResults: int, delay: int)
    | ListStates
    | ListServices
    | Refused(error: string)
    | BadInteger  // `int()` raised: the script ends with a traceback and prints no JSON

  /** `main`'s reading of `sys.argv` (element 0 is the script's own name). */
  function Dispatch(argv: seq<string>): Command {
    if |argv| < 2 then Refused("No command specified")
    else if argv[1] == "scrape" then
      if |argv| < 4 then Refused("Missing required arguments: state service")
      else
        var sortOrder := if |argv| > 4 then argv[4] else "Ascending";
        var maxResults := if |argv| > 5 then ParseInt(argv[5]) else Some(100);
        var delay := if |argv| > 6 then ParseInt(argv[6]) else Some(2);
        if maxResults.None? || delay.None? then BadInteger
        else Scrape(argv[2], argv[3], sortOrder, maxResults.value, delay.value)
    else if argv[1] == "states" then ListStates
    else if argv[1] == "services" then ListServices
    else Refused("Unknown command: " + argv[1])
  }

  /** The refusals: no command, `scrape` without state and service, and any other word. */
  lemma DispatchRefusals(argv: seq<string>)
    ensures |argv| < 2 ==> Dispatch(argv) == Refused("No command specified")
    ensures |argv| >= 2 && argv[1] == "scrape" && |argv| < 4 ==>
      Dispatch(argv) == Refused("Missing required arguments: state service")
    ensures |argv| >= 2 && argv[1] != "scrape" && argv[1] != "states" && argv[1] != "services" ==>
      Dispatch(argv) == Refused("Unknown command: " + argv[1])
    ensures Dispatch(argv).Refused? <==>
      |argv| < 2 || (argv[1] == "scrape" && |argv| < 4) ||
      (argv[1] != "scrape" && argv[1] != "states" && argv[1] != "services")
  {
  }

  /**
   * The options left out default to `Ascending`, 100 results and a delay of 2:
   * four arguments take all three defaults, five take the last two, and six
   * only the delay.
   */
  lemma DispatchDefaults(program: string, state: string, service: string, sortOrder: string, maxText: string)
    ensures Dispatch([program, "scrape", state, service]) == Scrape(state, service, "Ascending", 100, 2)
    ensures Dispatch([program, "scrape", state, service, sortOrder]) == Scrape(state, service, sortOrder, 100, 2)
    ensures ParseInt(maxText).Some? ==>
      Dispatch([program, "scrape", state, service, sortOrder, maxText]) ==
      Scrape(state, service, sortOrder, ParseInt(maxText).value, 2)
    ensures ParseInt(maxText).None? ==> Dispatch([program, "scrape", state, service, sortOrder, maxText]) == BadInteger
  {
  }

  /** The scrape command line a caller builds from its parameters is read back as those parameters. */
  lemma DispatchScrape(program: string, state: string, service: string, sortOrder: string,
                       maxResults: int, delay: int)
    ensures Dispatch([program, "scrape", state, service, sortOrder, IntToString(maxResults), IntToString(delay)]) ==
      Scrape(state, service, sortOrder, maxResults, delay)
  {
    var maxText, delayText := IntToString(maxResults), IntToString(delay);
    ParseIntString(maxResults);
    ParseIntString(delay);
    var argv := [program, "scrape", state, service, sortOrder, maxText, delayText];
    assert argv[1] == "scrape" && argv[2] == state && argv[3] == service && argv[4] == sortOrder;
    assert argv[5] == maxText && argv[6] == delayText;
    DispatchFull(argv);
  }

  /** A full scrape command line with two numbers. */
  lemma DispatchFull(argv: seq<string>)
    requires |argv| >= 7 && argv[1] == "scrape" && ParseInt(argv[5]).Some? && ParseInt(argv[6]).Some?
    ensures Dispatch(argv) == Scrape(argv[2], argv[3], argv[4], ParseInt(argv[5]).value, ParseInt(argv[6]).value)
  {
  }

  /** Arguments after the sixth are never read. */
  lemma DispatchIgnoresExtra(argv: seq<string>, extra: seq<string>)
    requires |argv| >= 7
    ensures Dispatch(argv + extra) == Dispatch(argv)
  {
    var all := argv + extra;
    assert all[1] == argv[1] && all[2] == argv[2] && all[3] == argv[3];
    assert all[4] == argv[4] && all[5] == argv[5] && all[6] == argv[6];
  }

  /** Everything outside the script that `main` depends on. */
  datatype World = World(
    scraperFound: bool, returnCode: int, stdout: string, stderr: string,
    csvFound: bool, csvText: string, constantsFound: bool, constants: string)

  /** The JSON object `main` prints, or the traceback of an uncaught `ValueError`. */
  datatype Reply =
    | ErrorReply(error: string)
    | ScrapeReply(result: ScrapeResult)
    | StatesReply(states: seq<string>)
    | ServicesReply(services: seq<string>)
    | Crashed

  /** `main`: dispatch on the arguments, then run the chosen command against the world. */
  method RunMain(argv: seq<string>, world: World) returns (reply: Reply)
    ensures Dispatch(argv).Refused? ==> reply == ErrorReply(Dispatch(argv).error)
    ensures Dispatch(argv).BadInteger? ==> reply == Crashed
    ensures Dispatch(argv).Scrape? ==>
      reply == ScrapeReply(ScrapeResultOf(world.scraperFound, world.returnCode, world.stdout, world.stderr,
                                          world.csvFound, world.csvText))
    ensures Dispatch(argv).ListStates? ==>
      reply == StatesReply(if world.constantsFound then SortStrings(SlugNames(world.constants, StateMap)) else [])
    ensures Dispatch(argv).ListServices? ==>
      reply == ServicesReply(if world.constantsFound then SortStrings(SlugNames(world.constants, ServiceMap)) else [])
  {
    var command := Dispatch(argv);
    match command
    case Refused(error) =>
      reply := ErrorReply(error);
    case BadInteger =>
      reply := Crashed;
    case Scrape(_, _, _, _, _) =>
      var result := RunScraper(world.scraperFound, world.returnCode, world.stdout, world.stderr,
                               world.csvFound, world.csvText);
      reply := ScrapeReply(result);
    case ListStates =>
      var states := GetAvailable(world.constantsFound, world.constants, StateMap);
      reply := StatesReply(states);
    case ListServices =>
      var services := GetAvailable(world.constantsFound, world.constants, ServiceMap);
      reply := ServicesReply(services);
  }
}
