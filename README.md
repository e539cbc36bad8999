# SalesCRM core, modelled in Dafny

SalesCRM is a browser dashboard for cold-calling: it keeps leads in an
IndexedDB object store and imports them from CSV files. It builds a call
queue from them and runs a "call mode" session that walks through the queue,
records notes and keeps a call log. A prospecting pipeline imports scraped
prospect CSV files, lets the user review, approve, reject or delete
prospects, and turns the approved ones into leads. A content script pulls
phone numbers and a state code out of scraped pages. A Python command-line
bridge runs the Thomasnet scraper and turns its CSV output into JSON.

This project models that core and proves properties of the model.

- **`Text`, `Seqs`, `Records`, `Wrappers`** hold the string and sequence
  vocabulary and the record types. The string vocabulary covers
  JavaScript's `trim` and Python's `strip` white-space sets, `split`,
  `join`, ASCII case mapping and decimal text. The record types are leads,
  custom queues, call logs and prospects.
- **`CsvLine`** is the live `parseCSVLine` (the second definition in
  `app.js`, which replaces the first). It is a character loop proved
  against a declarative definition of where fields are cut. The sixth field
  takes the rest of the line.
- **`Queue`** is `getQueueLeads`: the default "due for a call" queue and the
  custom queues.
- **`Prospects`** covers the pure parts of the prospect pipeline and
  `parseProspectCSV`:
  - the header keys and the row map;
  - stamping new prospects;
  - review decisions, bulk marking and deletion;
  - the split that `finalizeProspects` makes.
- **`Views`** covers:
  - `formatPhoneNumber`;
  - pagination (`updatePagination`, `getPaginatedLeads`);
  - the page-number bar of `generatePageNumbers`;
  - the select-all checkbox's three states;
  - `filterLeads`;
  - the rows `exportCSV` builds.
- **`Crm`** is the `SalesCRM` object as a class. Its fields are:
  - the lead store with its key generator;
  - the call-mode snapshot, cursor and call log;
  - the `prospects` and `leads` slots of the key-value storage;
  - the pagination state.

  Its methods are `addLead`, `updateLead`, `parseCSV`, `saveCallNotes`,
  `enterCallMode`, the four cursor moves, `saveCallCompletion`,
  `saveCallLog`, the prospect import, review, bulk actions and
  finalization, and `updatePagination`.
- **`Regex`** is a small backtracking regular-expression matcher. It has
  concatenation, alternation, star, character classes and word boundaries,
  and it keeps the JavaScript order of preference among matches.
  **`ContentScript`** uses it for the two patterns of `normalizePhones` and
  `extractState`.
- **`Thomasnet`** is `thomasnet-integration.py`. It covers:
  - `readlines`;
  - the CSV-to-dictionary conversion;
  - the search for the `CSV saved to:` line;
  - the error results of `run_thomasnet_scraper`;
  - the slug-map scan of `get_available_states` / `get_available_services`
    and its sorting;
  - `main`'s dispatch on `sys.argv`, including Python's `int()`.

The outside world is passed in as parameters:
- IndexedDB outcomes: the set `refusedLines` of CSV lines whose add is
  refused.
- The clock: a millisecond timestamp, plus its ISO text.
- `Math.random` and `Date.now()` ids: a caller-supplied index or id
  function.
- File contents and existence.
- For the Python script: the subprocess's return code and output.

Two places where the code does less than its surroundings suggest; the
model follows the code:
- The lead CSV import never fills `comments`. `parseCSV` reads it from
  `values[6]` (app.js:1450), but the live `parseCSVLine` (app.js:3568)
  returns at most six fields, so `values[6]` is always missing. An earlier
  definition of `parseCSVLine` (app.js:1401) is overridden by the later one.
  `Crm.LeadRowShape` proves that every imported lead has empty comments.
- `enterCallMode` filters the leads itself rather than calling
  `getQueueLeads`. Its filter compares `Date` objects, not ISO text.
  `Crm.SalesCRM.EnterCallMode` states the result as the default queue,
  which is the same filter.

## Model

| member | source | states |
|---|---|---|
| CsvLine.ParseCSVLine | app.js:3568-3618 | The fields returned are exactly the declarative field split of the trimmed line (`LineFields`). |
| CsvLine.ScanFields | app.js:3578-3617 | The character loop produces exactly the fields that the declarative cut positions define. |
| CsvLine.ScanChar | app.js:3579-3608 | One character step either finishes with the final fields (the rest-of-line sixth field) or keeps the scanning invariant one position further. |
| CsvLine.CloseField | app.js:3584-3591 | Closing a field at a separator comma appends the cleaned field between the last two cuts. |
| CsvLine.LastField | app.js:3610-3617 | After the loop, the leftover text cleaned becomes the last field and completes the field list. |
| CsvLine.RestField | app.js:3594-3603 | At the fifth separator, the trimmed rest of the line, unquoted, becomes the sixth and last field. |
| CsvLine.InQuotesParity | app.js:3581-3583 | The quote flag at a position is on exactly when an odd number of `"` precede it. |
| CsvLine.SeparatorsSound | app.js:3584 | Every recorded cut is a comma outside quotes, and the cuts ascend. |
| CsvLine.SeparatorsComplete | app.js:3584 | Every comma outside quotes before a position is recorded as a cut. |
| CsvLine.CutIff | app.js:3584-3603 | A position is a field cut iff it is a comma outside quotes with fewer than five cuts before it. |
| CsvLine.FieldCount | app.js:3594-3617 | The number of fields is one more than the number of separator commas, capped at six fields. |
| CsvLine.LineFieldsShape | app.js:3576-3617 | Field j is the slice between cut j-1 and cut j of the trimmed line, trimmed and stripped of one surrounding quote pair. |
| CsvLine.SingleField | app.js:3610-3617 | A line without a separator comma is one cleaned field. |
| Queue.FindQueue | app.js:3277 | The queue found has the id asked for, and none is found only when no queue has that id. |
| Queue.FindQueueFirst | app.js:3277 | The queue found is the first one with that id. |
| Queue.GetQueueLeads | app.js:3260-3294 | Default queue: exactly the leads never called or last called before the threshold. Unknown custom queue: empty. Custom queue: exactly the leads whose id it lists. |
| Queue.ThresholdExcluded | app.js:3270-3273 | A lead last called exactly at the threshold is not due (the comparison is strict). |
| Queue.QueueIsSubsequence | app.js:3260-3294 | The queue keeps the store order and never repeats a lead more often than the store holds it. |
| Queue.DefaultQueueIs | app.js:3269-3273 | The default queue is the order-preserving filter by the due-for-call test. |
| Prospects.SplitLines | app.js:3512 | Splitting on `\r?\n` gives exactly one line per `\n`-separated piece of the text. |
| Prospects.RemoveSpacesSpec | app.js:3541 | Removing white space keeps only characters of the input, none of them white space, and changes nothing in text without white space. |
| Prospects.ProspectKeyClean | app.js:3541 | A header key has no white space and no upper-case letter, and making a key of a key changes nothing. |
| Prospects.LastWithKey | app.js:3540-3543 | Gives the last header index whose key is the given one, or -1 when no header has that key. |
| Prospects.RowMapLookup | app.js:3539-3543 | A key is in the row map iff some header yields it, and it maps to the value under the last such header (later columns overwrite earlier ones). |
| Prospects.BuildRowMap | app.js:3539-3543 | The `forEach` over the headers builds exactly the row map. |
| Prospects.RowsOf | app.js:3518-3558 | At most one prospect per data line. Each has a company, stage unreviewed, industry `CNC Machining` and source `CSV Import`. |
| Prospects.RowOfFields | app.js:3532-3557 | An accepted row has exactly six fields, is mapped from the row map, and has a non-empty `lead` column. |
| Prospects.ParseRow | app.js:3519-3557 | One data line gives the declarative row: none for a short row or no company, otherwise the mapped prospect. |
| Prospects.ParseDataLines | app.js:3518-3558 | The loop over the data lines gives exactly the declarative rows, in line order. |
| Prospects.ParseProspectCSV | app.js:3510-3562 | The parse is exactly the declarative one. An all-blank text fails, because the header line is missing. |
| Prospects.ProspectRowsHeader | app.js:3512-3513 | The parse fails iff every line is blank. A text with only a header line gives no prospects. |
| Prospects.ProspectRowsShape | app.js:3510-3562 | There are fewer prospects than non-blank lines, and every prospect has a company and the fixed pipeline fields. |
| Prospects.RowsOfConcat | app.js:3518-3558 | Parsing two runs of data lines gives the concatenation of their rows. |
| Prospects.NewProspect | app.js:3479-3484 | A new prospect gets the given id, stage unreviewed and the row's company. |
| Prospects.ParseAllFresh | app.js:3510-3562 | Every prospect parsed from any file is fresh: unreviewed, with a company. |
| Prospects.ImportFilesSpec | app.js:3474-3487 | The existing prospects stay as a prefix, and everything appended is fresh. The import completes iff every file parsed. |
| Prospects.FindProspectIndex | app.js:3693 | `findIndex`: the first index with that id, or -1 when none has it. |
| Prospects.StageAfter | app.js:3706-3710 | `approve` finalizes, `reject` disqualifies, and every other decision keeps the stage. |
| Prospects.Reviewed | app.js:3696-3710 | A review keeps id, company, website, state, service and source, records the decision, and moves the stage by it. |
| Prospects.MarkSelectedSpec | app.js:3859-3864 | Bulk marking keeps length and ids. A selected prospect gets the stage and decision and nothing else changes; an unselected one stays as it was. |
| Prospects.DeleteSelectedSpec | app.js:3923 | Bulk delete keeps exactly the unselected prospects, in order, each as often as before. |
| Prospects.ToLeadData | app.js:3731-3744 | A finalized prospect becomes a lead with its contact fields. The industry falls back to the service, and the lead has no call and no meeting. |
| Prospects.FinalizeSplit | app.js:3719-3749 | Finalization converts exactly the finalized prospects, in order, and keeps exactly the others. Together the two parts are a permutation of the pipeline. |
| Prospects.ApproveThenFinalize | app.js:3846-3874 | After bulk approval, a prospect is finalized iff it already was or was selected, and what remains was neither. |
| Views.FormatPhoneNumber | app.js:1722-1742 | `formatPhoneNumber`: empty text stays empty; ten digits, eleven starting with 1, and seven digits get their layouts; anything else is returned as given. Its properties are the next rows. |
| Views.FormatKeepsDigits | app.js:1722-1742 | Formatting a phone number never changes its digits. |
| Views.FormatIdempotent | app.js:1722-1742 | Formatting an already formatted number changes nothing. |
| Views.TenKept | app.js:1729-1731 | The ten-digit layout `(ddd) ddd-dddd` carries exactly the ten digits. |
| Views.ElevenKept | app.js:1732-1734 | The `+1 (ddd) ddd-dddd` layout carries exactly the eleven digits. |
| Views.SevenKept | app.js:1735-1737 | The `ddd-dddd` layout carries exactly the seven digits. |
| Views.TotalPages | app.js:1588 | `Math.ceil(totalItems / pageSize)`: the fewest pages that hold all items. |
| Views.PageContents | app.js:1599-1603 | A page is the slice of the items between its first and last index, clipped to the list. |
| Views.PagesUpToPrefix | app.js:1599-1603 | The first n pages together are the list's prefix of n page sizes. |
| Views.PagesCoverAll | app.js:1586-1603 | All pages together give back the whole list. |
| Views.PageOfIndex | app.js:1586-1603 | Every item lies on a page in range, at the position its index gives. |
| Views.WindowShape | app.js:3045-3052 | The visible window lies within the pages, spans min(5, totalPages) pages, and contains a current page that is in range. |
| Views.GeneratePageNumbers | app.js:3044-3079 | The HTML built is the rendering of the declarative bar: first page, ellipsis, window, ellipsis, last page. |
| Views.BuildPageBar | app.js:3044-3079 | For any rendering of the items, the string built concatenates the renderings of the bar's items. |
| Views.RenderWindow | app.js:3066-3070 | The window loop renders exactly the window's buttons. |
| Views.FrontRendered | app.js:3057-3063 | Before the window comes page 1 when the window starts after it, then an ellipsis when it starts after page 2. |
| Views.BackRendered | app.js:3073-3078 | After the window comes an ellipsis when it ends two or more pages early, then the last page when it ends early. |
| Views.WindowButtonsPages | app.js:3066-3070 | The window has one button per page from its first to its last page, active exactly on the current page. |
| Views.PageItemsBar | app.js:3044-3079 | For at least one page, the bar runs from page 1 to the last page. Each button is the next page, and an ellipsis appears exactly where pages are skipped. |
| Views.PageItemsActive | app.js:3066-3070 | Only the current page's button is active, and a current page in range is shown active. |
| Views.SelectAllState | app.js:2763-2782 | Checked iff there are boxes and all are checked. Indeterminate iff some but not all are checked. Never both. |
| Views.FilterLeads | app.js:744-799 | `filterLeads`: the leads, then the state, industry and search (or notes) filters, each applied only when it is set. `FilterLeadsShown` states its result. |
| Views.FilterLeadsShown | app.js:744-799 | The filtered list is the order-preserving filter by the view's state, industry and search or notes tests. |
| Views.SearchIgnoresCase | app.js:750-765 | Search terms that differ only in case give the same leads. |
| Views.ExportCells | app.js:1483-1494 | A row has one cell per export header. |
| Views.ExportCSV | app.js:1476-1496 | The text built is the header line and each lead's row, each ended by a newline. |
| Views.BuildExport | app.js:1481-1496 | The appending loop builds exactly the newline-joined lines. |
| Views.ExportText | app.js:1481-1496 | Header plus newline plus the appended rows equals the newline-joined lines. |
| Views.ExportSplitsIntoLines | app.js:1481-1496 | When no cell holds a newline, splitting the export at newlines gives back its lines. |
| Views.ExportRowSplits | app.js:1495 | When no cell holds a comma, splitting a row at commas gives back the quoted cells, and unquoting gives back each cell. |
| Views.HeaderLineSingle | app.js:1479-1481 | The header line holds no newline. |
| Crm.FindLead | app.js:1154-1162 | `store.get`: the record found has the id asked for, and none is found only when no record has it. |
| Crm.FindLeadIff | app.js:1154-1162 | In a store in key order, looking up a record's key finds exactly that record iff the store holds it. |
| Crm.PutLeadSpec | app.js:641-650 | `store.put` keeps the store in key order. The new store holds the record put and every other record that did not have that key. |
| Crm.PutLeadFind | app.js:641-650 | After a put, its key finds the new record and every other key finds what it found before. |
| Crm.SalesCRM.constructor | app.js:4-33 | Initial state: empty store, a seven-day queue on the default queue, no call mode, empty pipeline, page 1 of 25 rows. |
| Crm.SalesCRM.AddLead | app.js:630-639 | The record is stored under the generator's next key, and nothing else changes. |
| Crm.SalesCRM.UpdateLead | app.js:641-650 | The store is the put of the record under its id, the key generator passes the id, and nothing else changes. |
| Crm.SalesCRM.ParseCSV | app.js:1426-1474 | Imported counts the leads kept, and imported plus skipped counts the adds attempted. The store gains exactly the kept leads, in line order, under consecutive keys. |
| Crm.SalesCRM.ImportDataLines | app.js:1430-1465 | The loop over the data lines adds exactly the kept leads of every line, in order. |
| Crm.SalesCRM.ImportLine | app.js:1437-1464 | A data line adds a lead iff it has one and the store does not refuse it. A refusal counts as skipped, and a line without a lead changes nothing. |
| Crm.ParseStep | app.js:1436-1465 | One more data line adds at most one attempt, and its lead is kept iff it is not refused. |
| Crm.ImportStep | app.js:1436-1465 | The import's invariant holds after one more line. |
| Crm.CsvAttemptsShape | app.js:1426-1465 | A blank text attempts nothing. Otherwise fewer adds are attempted than non-blank lines, and each is an imported-looking lead. |
| Crm.AttemptsShape | app.js:1436-1465 | Attempts come from distinct data lines in ascending order, each a lead with a company, the file's note, and no contact, comments or call. |
| Crm.LeadRowShape | app.js:1443-1457 | A lead from a data line has a company and the `Imported from:` note. It has no contact and no call, and empty comments, since at most six fields exist. |
| Crm.KeptBound | app.js:1457-1463 | No more leads are kept than adds attempted. |
| Crm.KeptFrom | app.js:1457-1463 | Every lead stored is the lead of some attempted add whose line the store did not refuse. |
| Crm.KeptImported | app.js:1426-1465 | Every lead the import stores has a company and the `Imported from:` note, and no contact, comments or call. |
| Crm.AfterCallNotes | app.js:1101-1143 | The lead `saveCallNotes` writes back: last-called, outcome, the journaled notes and the meeting data. `CallNotesJournal` states its fields. |
| Crm.CallNotesJournal | app.js:1101-1143 | The new notes start with the old notes, a blank line and `time [OUTCOME]: `. Last-called and outcome are set, a meeting is attached iff the outcome is `meeting_set`, and every other field is kept. |
| Crm.SalesCRM.SaveCallNotes | app.js:1090-1151 | Refuses with no outcome, or for a meeting without date or time. Saves iff there is an outcome and a current lead that the store holds. A save puts the journaled lead, and nothing else changes. |
| Crm.SalesCRM.EnterCallMode | app.js:4083-4097 | The snapshot is the default queue. Call mode starts at index 0 iff the snapshot is not empty; otherwise flag and cursor stay. |
| Crm.SalesCRM.NextLead | app.js:4203-4209 | The cursor moves forward one lead unless it is on the last one. |
| Crm.SalesCRM.NextLeadOrCycle | app.js:4211-4221 | The cursor moves forward one lead, and from the last lead back to the first. |
| Crm.CycleStaysInRange | app.js:4211-4221 | Cycling keeps the cursor within the snapshot, and from the last lead it returns to 0. |
| Crm.SalesCRM.PreviousLead | app.js:4223-4229 | The cursor moves back one lead unless it is on the first one. |
| Crm.SalesCRM.RandomLead | app.js:4231-4236 | The cursor is set to the index drawn. |
| Crm.SalesCRM.SaveCallLog | app.js:4354-4364 | The call log gains the entry at its end, and nothing else changes. |
| Crm.CompletionLog | app.js:4311-4321 | The log entry's id starts with `call-`, it names the current lead and the outcome, carries the time text, and has a follow-up date iff one was given. |
| Crm.CompletionKeepsOutcome | app.js:4325-4328 | A completed call sets last-called like call notes do, but leaves the outcome and notes alone. |
| Crm.SalesCRM.SaveCallCompletion | app.js:4285-4351 | Refuses with no outcome or no current lead. Otherwise it logs the call, puts the lead with its new last-called time in the store and in the snapshot, and cycles the cursor. |
| Crm.SalesCRM.HandleProspectCSVFiles | app.js:3469-3497 | The pipeline becomes the file-by-file import of every file, and nothing else changes. |
| Crm.ImportProspectFiles | app.js:3474-3487 | The loop over the files gives the declarative import result. |
| Crm.ImportFilesStops | app.js:3474-3492 | Once a file fails to parse, later files add nothing. |
| Crm.SalesCRM.SaveProspectReview | app.js:3689-3716 | Saves iff a current prospect is set and found. Only that prospect changes, and only as the review form says. |
| Crm.SalesCRM.MarkSelectedProspects | app.js:3859-3864 | The pipeline becomes the bulk marking of the selected ids. |
| Crm.SalesCRM.BulkApprove | app.js:3846-3874 | With a selection, marks it finalized with decision `approve`. Without one, nothing changes. |
| Crm.SalesCRM.BulkReject | app.js:3876-3904 | With a selection, marks it unqualified with decision `reject`. Without one, nothing changes. |
| Crm.SalesCRM.BulkDelete | app.js:3906-3934 | Deletes the selection iff there is one and the user confirmed; otherwise nothing changes. |
| Crm.SalesCRM.FinalizeProspects | app.js:3719-3760 | With no finalized prospect, nothing changes. Otherwise the storage `leads` gain the converted finalized prospects and the pipeline keeps the others. The count is the number finalized. |
| Crm.ClampPage | app.js:1586-1597 | The page is at least 1 and at most the page count when there are pages. A valid page is kept, and a page past the end becomes the last one. |
| Crm.SalesCRM.UpdatePagination | app.js:1586-1597 | Records the item count and page count and clamps the current page; nothing else changes. |
| Crm.SalesCRM.GetPaginatedLeads | app.js:1599-1603 | `getPaginatedLeads`: the current page's slice of the list. `PageAfterUpdate` and `PageContents` state it. |
| Crm.PageAfterUpdate | app.js:1586-1603 | After an update, the page shown is the clipped slice of its items, and a non-empty list shows a non-empty page. |
| Regex.Ends | content-script.js:153 | All match ends computed from a position lie between it and the end of the text. |
| Regex.EndsIff | content-script.js:153 | A position is among the computed match ends iff the expression matches that span. |
| Regex.CatIff | content-script.js:153 | For a concatenation, the computed ends are exactly the spans that split into a match of each part. |
| Regex.StarIff | content-script.js:153 | For a star, the computed ends are exactly the spans that split into non-empty matches. |
| Regex.FirstMatch | content-script.js:173 | The match found starts at the leftmost position that has one, and ends at that position's preferred end. |
| Regex.MatchAllAt | content-script.js:154 | The k-th text a global match returns is a match of the pattern at or after the start position. |
| Regex.MatchAllMatches | content-script.js:154 | Every text the global match returns is a match of the pattern in the input. |
| Regex.FixedDigitsSound | content-script.js:153 | A pattern with a fixed digit count matches only spans with exactly that many digits. |
| ContentScript.LocalNumberDigits | content-script.js:153 | The local part of the phone pattern matches exactly ten digits. |
| ContentScript.CountryCodeDigits | content-script.js:153 | The optional country code contributes no digit or exactly a `1`. |
| ContentScript.PhoneMatchDigits | content-script.js:153 | Every phone match has ten digits, or eleven starting with `1`. |
| ContentScript.NormalizePhones | content-script.js:150-167 | `normalizePhones`: empty text gives `""`; otherwise every global match of the phone pattern, normalised, joined by `; `. `NormalizePhonesShape` states its result. |
| ContentScript.NormalizePhonesShape | content-script.js:150-167 | Every match is shaped `(ddd) ddd-dddd` from its last ten digits. The result is the normalised matches joined by `; `, and empty text or no match gives the empty string. |
| ContentScript.NormalizeShape | content-script.js:156-163 | A ten-digit or 1-prefixed eleven-digit number is shaped from its last ten digits. |
| ContentScript.UsFormatDigits | content-script.js:159 | The `(ddd) ddd-dddd` shape carries exactly its ten digits. |
| ContentScript.NormalizeAsFormatTen | content-script.js:158-159 | For ten digits the content script and the dashboard's `formatPhoneNumber` agree. |
| ContentScript.NormalizeAsFormatEleven | content-script.js:160-161 | For eleven digits, the dashboard's format is the content script's with a `+1 ` prefix. |
| ContentScript.StateCodesAreCodes | content-script.js:172 | The pattern has fifty alternatives, each two upper-case letters. |
| ContentScript.CodeReMatches | content-script.js:172 | One code matches a span iff the span is two letters equal to it ignoring case. |
| ContentScript.CodePatternMatches | content-script.js:172 | `\b(codes)\b` matches a span iff it is a word-bounded code ignoring case. |
| ContentScript.FirstCodeSpec | content-script.js:172-174 | Empty iff no code stands as a word. Otherwise it is the first such code upper-cased, one of the codes. |
| ContentScript.ExtractState | content-script.js:169-175 | `extractState`: empty text gives `""`; otherwise the first state code found as a word, upper-cased. `ExtractStateSpec` states its result. |
| ContentScript.ExtractStateSpec | content-script.js:169-175 | Empty iff no state code stands as a word in the text. Otherwise it is the first one upper-cased, always among the fifty codes. |
| Thomasnet.ReadLines | thomasnet-integration.py:57 | `readlines`: the text cut after each newline. The next two rows state its properties. |
| Thomasnet.ReadLinesJoin | thomasnet-integration.py:57 | Concatenating the lines `readlines` gives returns the file's text. |
| Thomasnet.ReadLinesEnds | thomasnet-integration.py:57 | No line is empty, no line holds a newline before its last character, and every line but the last ends in a newline. |
| Thomasnet.HeaderKeyShape | thomasnet-integration.py:67 | A key has no space or upper-case letter, and every non-space character is the lower-cased header character. |
| Thomasnet.RowKeys | thomasnet-integration.py:64-67 | A key is in the dictionary iff some header with a value at its index yields it. |
| Thomasnet.RowLast | thomasnet-integration.py:64-67 | A key maps to the value under the last header that yields it. |
| Thomasnet.RowOfDistinct | thomasnet-integration.py:64-67 | With distinct keys, each header with a value maps to that value. |
| Thomasnet.RowSize | thomasnet-integration.py:64-67 | With distinct keys, the dictionary has min(headers, values) entries: extra values are dropped, missing ones leave the key out. |
| Thomasnet.BuildRow | thomasnet-integration.py:64-67 | The loop over the headers builds exactly the declarative dictionary. |
| Thomasnet.RowsOfIndex | thomasnet-integration.py:61-68 | The k-th dictionary is built from the k-th data line. |
| Thomasnet.CsvToProspects | thomasnet-integration.py:58-68 | Without a data line there is no prospect. Otherwise the header cells key one dictionary per non-blank data line, in order. |
| Thomasnet.ConvertDataLines | thomasnet-integration.py:61-68 | The loop over the data lines gives one dictionary per non-blank line, in order. |
| Thomasnet.ConvertLine | thomasnet-integration.py:62-68 | A non-blank line appends its dictionary, and a blank one changes nothing. |
| Thomasnet.ProspectsOf | thomasnet-integration.py:58-68 | The conversion's result: no rows for fewer than two lines, otherwise one dictionary per non-blank data line under the first line's headers. |
| Thomasnet.ProspectsCount | thomasnet-integration.py:58-68 | With no data line there are no prospects. Otherwise there is one per non-blank data line, each built from the first line's headers. |
| Thomasnet.BlankLineIgnored | thomasnet-integration.py:62 | Inserting a blank data line changes nothing. |
| Thomasnet.FirstContaining | thomasnet-integration.py:45-48 | Gives the first line at or after i that contains the text, or the end when none does. |
| Thomasnet.FindCsvFile | thomasnet-integration.py:42-48 | The loop with `break` finds exactly the declarative CSV path. |
| Thomasnet.CsvFileFound | thomasnet-integration.py:42-48 | No path iff no line holds the marker. A path comes from the first such line and is the stripped text after its last marker. |
| Thomasnet.CsvFileTrimmed | thomasnet-integration.py:47-51 | An accepted path is non-empty and has no white space at either end. |
| Thomasnet.ScrapeResultOf | thomasnet-integration.py:13-75 | What `run_thomasnet_scraper` returns, in the order it checks its failures. `RunScraper` and `RunMain` are stated against it. |
| Thomasnet.RunScraper | thomasnet-integration.py:13-75 | The result is the declarative `ScrapeResultOf`. Missing scraper, non-zero return code (the message carries stderr) and no CSV path each give their error. Otherwise: the path, the prospects of the file (none when it does not exist) and their count. |
| Thomasnet.ScanSlugMap | thomasnet-integration.py:92-105 | The line loop with `continue` and `break` collects exactly the declarative names. |
| Thomasnet.NamesShape | thomasnet-integration.py:100-104 | Every name collected is non-empty and holds no `"`. |
| Thomasnet.NoHeaderNoNames | thomasnet-integration.py:94-97 | Without the map's header line, no name is collected. |
| Thomasnet.ClosedMapIgnoresRest | thomasnet-integration.py:98-99 | Lines after the closing `}` have no effect. |
| Thomasnet.GetAvailable | thomasnet-integration.py:80-106 | Without the constants file, no names. Otherwise the scanned names sorted: sorted, and a permutation of the scan. |
| Thomasnet.ParseInt | thomasnet-integration.py:160-161 | `int()` on an argument: an optionally signed run of ASCII digits between white space, anything else an error. The next two rows state its properties. |
| Thomasnet.ParseIntString | thomasnet-integration.py:160-161 | `int(str(n)) == n` for every integer. |
| Thomasnet.ParseIntBlank | thomasnet-integration.py:160-161 | Blank text is not a number. |
| Thomasnet.Dispatch | thomasnet-integration.py:146-175 | `main`'s reading of `sys.argv`: the refusals, the scrape options with their defaults, `states` and `services`. The next rows state its properties. |
| Thomasnet.DispatchRefusals | thomasnet-integration.py:146-175 | No command, `scrape` without state and service, and an unknown word give their errors, and these are the only refusals. |
| Thomasnet.DispatchDefaults | thomasnet-integration.py:157-161 | Omitted options take their defaults: four arguments give `Ascending`, 100 results and a delay of 2; five keep their sort order with 100 and 2; six keep sort order and a readable maximum with a delay of 2, and an unreadable maximum crashes. |
| Thomasnet.DispatchScrape | thomasnet-integration.py:157-161 | Printed numbers given as options are read back exactly. |
| Thomasnet.DispatchFull | thomasnet-integration.py:157-161 | Seven arguments with readable numbers give exactly those options. |
| Thomasnet.DispatchIgnoresExtra | thomasnet-integration.py:157-161 | Arguments after the seventh are ignored. |
| Thomasnet.RunMain | thomasnet-integration.py:144-175 | Refusals print their error, and an unreadable number ends in a traceback. `scrape` prints exactly the result of the scraper run against the world (`ScrapeResultOf`): each error text, or the path, prospects and count. `states` and `services` print the sorted names of their map. |
| Seqs.SortStrings | thomasnet-integration.py:106 | `sorted`: the same strings in ascending code-point order. |
| Seqs.SortStringsOrdered | thomasnet-integration.py:106 | Every string of the sorted list is at or before every later one. |
| Text.SplitLast | thomasnet-integration.py:47 | `split(marker)[-1]` is the text after the last occurrence of the marker. |
| Text.TrimShape | app.js:3576 | `trim` keeps a middle slice: everything removed is white space, and the result neither starts nor ends with white space. |
| Text.TrimIdempotent | app.js:3576 | Trimming twice is trimming once. |
| Text.JoinSplit | app.js:1427 | Joining a text's split pieces with the separator gives back the text. |
| Text.SplitJoin | app.js:1495 | Splitting a join of pieces that avoid a one-character separator gives back the pieces. |

## Left out

- The DOM, events, alerts and messages are not modelled. Form fields and the
  confirmation answer are parameters.
- IndexedDB's asynchronous transactions are reduced to their outcome. A
  refused `add` is the set `refusedLines` given to `parseCSV`. Other storage
  failures, and the `catch` branches that only report them, are not modelled.
- The lead store is a key-ordered sequence with an auto-increment key. Its
  indexes (company, state, ...) are not modelled.
- `Date.now()` and `new Date().toISOString()` are a millisecond timestamp
  and its text, both given by the caller. The dashboard's date comparisons
  are comparisons of those timestamps.
- `Math.random` is not modelled. `callModeRandomLead` takes the index drawn,
  and the prospect import takes an id function for its
  `Date.now() + Math.random()` ids.
- The call log's id `'call-' + Date.now()` is `call-` followed by the
  decimal text of the caller-given timestamp; `duration` is the literal 0.
  The recomputation of the stats and analytics widgets after a call is not
  modelled.
- `FileReader` and its errors are not modelled: each file's text is given.
  One `dateAdded` stamp is used per import rather than one per record.
- Strings are sequences of characters. Case mapping is ASCII only, which
  JavaScript's `toLowerCase`/`toUpperCase` and Python's `lower` go beyond.
- `exportCSV` does not escape `"` inside a field. The model builds the
  same text, and its split lemmas require cells without commas or
  newlines. The `Blob` download is not modelled.
- `callNotes: ''` on finalized leads is not a field of the lead record in
  this model.
- Regular expressions: only the constructs the two content-script patterns
  use are modelled. `String.prototype.match` with the `g` flag is
  `Regex.MatchAll`.
- `scrapeCurrentPage`, `extractCompanyData`, `goToNextPage` and
  `getPageInfo` are outside this model. They read the DOM.
- `thomasnet-integration.py` does these as the outside world, given in a
  `World` value: `subprocess.run`, `Path.exists`, `os.path.exists`,
  `open`/`read` and the file encoding. The command line built for the
  scraper is not modelled, so the state and service arguments do not
  reach `RunScraper`.
- The scraper's `except Exception` branch (`{"error": str(e)}`) and the
  stderr printing of the slug-map scans are not modelled. Neither is the
  JSON serialisation of the printed results.
- Thomasnet.ParseInt: Python's `int()` also accepts underscores between
  digits and non-ASCII digits. The model accepts only an optional sign and
  ASCII digits, surrounded by white space.
- Thomasnet.ReadLines: the file is read with universal newlines.
  The model's text is the text after that translation.
