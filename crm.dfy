/**
 * The `SalesCRM` object's state and the operations that change it: the lead
 * store, the lead CSV import, call notes, the call-mode session with its cursor
 * and call log, the prospect pipeline's storage slots, and the pagination state.
 */
module Crm {
  import opened Wrappers
  import opened Text
  import opened Seqs
  import opened Records
  import opened CsvLine
  import opened Queue
  import opened Prospects
  import opened Views

  // ---------------------------------------------------------------------------
  // The `leads` object store

  /** The store lists its records in key order, each key once. */
  predicate IdsAscending(leads: seq<Lead>) {
    forall i, j :: 0 <= i < j < |leads| ==> leads[i].id < leads[j].id
  }

  /** `store.get(id)`: the record under the key, if any. */
  function FindLead(leads: seq<Lead>, id: int): (r: Option<Lead>)
    ensures r.Some? ==> r.value in leads && r.value.id == id
    ensures r.None? ==> forall l :: l in leads ==> l.id != id
  {
    if leads == [] then None
    else if leads[0].id == id then Some(leads[0])
    else FindLead(leads[1..], id)
  }

  /** `store.put({...data, id})`: the record under `id` replaced, or inserted in key order. */
  function PutLead(leads: seq<Lead>, id: int, data: LeadData): seq<Lead> {
    if leads == [] then [Lead(id, data)]
    else if leads[0].id == id then [Lead(id, data)] + leads[1..]
    else if leads[0].id > id then [Lead(id, data)] + leads
    else [leads[0]] + PutLead(leads[1..], id, data)
  }

  lemma AscendingCons(x: Lead, t: seq<Lead>)
    requires IdsAscending(t) && forall l :: l in t ==> x.id < l.id
    ensures IdsAscending([x] + t)
  {
    var r := [x] + t;
    forall i, j | 0 <= i < j < |r| ensures r[i].id < r[j].id {
      assert r[j] == t[j - 1];
      if i > 0 {
        assert r[i] == t[i - 1];
      } else {
        assert t[j - 1] in t;
      }
    }
  }

  lemma AscendingTail(leads: seq<Lead>)
    requires leads != [] && IdsAscending(leads)
    ensures IdsAscending(leads[1..])
    ensures forall l :: l in leads[1..] ==> leads[0].id < l.id
  {
    forall l | l in leads[1..] ensures leads[0].id < l.id {
      var j :| 0 <= j < |leads[1..]| && leads[1..][j] == l;
      assert leads[j + 1] == l;
    }
  }

  /**
   * A put keeps the store in key order, and afterwards holds exactly the new
   * record and every old record under another key.
   */
  lemma {:induction false} PutLeadSpec(leads: seq<Lead>, id: int, data: LeadData)
    requires IdsAscending(leads)
    ensures IdsAscending(PutLead(leads, id, data))
    ensures forall l :: l in PutLead(leads, id, data) <==> l == Lead(id, data) || (l in leads && l.id != id)
    decreases |leads|
  {
    if leads != [] {
      var t := leads[1..];
      AscendingTail(leads);
      assert leads == [leads[0]] + t;
      if leads[0].id == id {
        AscendingCons(Lead(id, data), t);
      } else if leads[0].id > id {
        AscendingCons(Lead(id, data), leads);
      } else {
        PutLeadSpec(t, id, data);
        AscendingCons(leads[0], PutLead(t, id, data));
      }
    }
  }

  /** In a store in key order, looking a key up finds the one record under it. */
  lemma {:induction false} FindLeadIff(leads: seq<Lead>, l: Lead)
    requires IdsAscending(leads)
    ensures FindLead(leads, l.id) == Some(l) <==> l in leads
    decreases |leads|
  {
    if leads != [] {
      AscendingTail(leads);
      assert leads == [leads[0]] + leads[1..];
      if leads[0].id != l.id {
        FindLeadIff(leads[1..], l);
      }
    }
  }

  /** After a put, the key holds the new record and every other key what it held. */
  lemma PutLeadFind(leads: seq<Lead>, id: int, data: LeadData, other: int)
    requires IdsAscending(leads)
    ensures FindLead(PutLead(leads, id, data), id) == Some(Lead(id, data))
    ensures other != id ==> FindLead(PutLead(leads, id, data), other) == FindLead(leads, other)
  {
    var r := PutLead(leads, id, data);
    PutLeadSpec(leads, id, data);
    FindLeadIff(r, Lead(id, data));
    if other != id {
      match FindLead(leads, other)
      case Some(l) =>
        FindLeadIff(leads, l);
        FindLeadIff(r, l);
      case None =>
        match FindLead(r, other)
        case Some(l) =>
        case None =>
    }
  }

  /** Records numbered from `start` on, as the key generator hands out keys. */
  function Numbered(ds: seq<LeadData>, start: int): seq<Lead> {
    if ds == [] then []
    else Numbered(ds[..|ds| - 1], start) + [Lead(start + |ds| - 1, ds[|ds| - 1])]
  }

  // ---------------------------------------------------------------------------
  // parseCSV

  /** The name `parseCSV` uses when it is not given one. */
  const DefaultFilename := "CSV"

  /**
   * The lead a data row describes: columns 0 to 5 as company, state, website,
   * email, phone and industry, column 6 as comments, no contact, and a note
   * naming the file.
   */
  function CsvLead(values: seq<string>, filename: string, dateAdded: string): LeadData {
    LeadData(ValueAt(values, 0), "", ValueAt(values, 3), ValueAt(values, 4), ValueAt(values, 5),
             ValueAt(values, 1), ValueAt(values, 2), "Imported from: " + filename, ValueAt(values, 6),
             dateAdded, None, None, None)
  }

  /** `csv.split('\n').filter(line => line.trim())`. */
  function LeadLines(csv: string): seq<string> {
    NonBlank(Split(csv, "\n"))
  }

  /** The lead a data line adds: none for a row shorter than the header or without a company. */
  function LeadRow(headers: seq<string>, line: string, filename: string, dateAdded: string): Option<LeadData> {
    var values := LineFields(line);
    if |values| < |headers| then None
    else
      var d := CsvLead(values, filename, dateAdded);
      if d.company == "" then None else Some(d)
  }

  /** The adds `parseCSV` attempts for lines `1` to `n - 1`: the line number with the lead. */
  function Attempts(headers: seq<string>, lines: seq<string>, filename: string, dateAdded: string, n: nat)
    : seq<(nat, LeadData)>
    requires n <= |lines|
  {
    if n <= 1 then []
    else
      Attempts(headers, lines, filename, dateAdded, n - 1) +
      match LeadRow(headers, lines[n - 1], filename, dateAdded)
      case Some(d) => [(n - 1, d)]
      case None => []
  }

  /** Every add `parseCSV` attempts on a text, line by line. */
  function CsvAttempts(csv: string, filename: string, dateAdded: string): seq<(nat, LeadData)> {
    var lines := LeadLines(csv);
    if lines == [] then [] else Attempts(LineFields(lines[0]), lines, filename, dateAdded, |lines|)
  }

  lemma CsvAttemptsOf(csv: string, filename: string, dateAdded: string, lines: seq<string>)
    requires lines == LeadLines(csv) && lines != []
    ensures CsvAttempts(csv, filename, dateAdded) == Attempts(LineFields(lines[0]), lines, filename, dateAdded, |lines|)
  {
  }

  /** What one more line does to the attempts and to the leads kept. */
  lemma ParseStep(headers: seq<string>, lines: seq<string>, filename: string, dateAdded: string,
                  refusedLines: set<nat>, n: nat, m: nat)
    requires 1 <= n < |lines| && m == n + 1
    ensures var row := LeadRow(headers, lines[n], filename, dateAdded);
      var a := Attempts(headers, lines, filename, dateAdded, n);
      var b := Attempts(headers, lines, filename, dateAdded, m);
      |b| == |a| + (if row.Some? then 1 else 0) &&
      Kept(b, refusedLines) ==
        Kept(a, refusedLines) + (if row.Some? && n !in refusedLines then [row.value] else [])
  {
    var row := LeadRow(headers, lines[n], filename, dateAdded);
    var a := Attempts(headers, lines, filename, dateAdded, n);
    AttemptsSnoc(headers, lines, filename, dateAdded, n, m);
    if row.Some? {
      KeptSnoc(a, (n, row.value), refusedLines);
    } else {
      assert Kept(a, refusedLines) + [] == Kept(a, refusedLines);
    }
  }

  /**
   * The state of `parseCSV` after the lines before line `n`: the counts and the
   * store as the attempts so far and the refused lines determine them.
   */
  ghost predicate ImportedSoFar(headers: seq<string>, lines: seq<string>, filename: string, dateAdded: string,
                                refusedLines: set<nat>, n: nat, leads0: seq<Lead>, next0: int,
                                leads: seq<Lead>, nextId: int, imported: nat, skipped: nat)
    requires n <= |lines|
  {
    var atts := Attempts(headers, lines, filename, dateAdded, n);
    imported == |Kept(atts, refusedLines)| && imported + skipped == |atts| &&
    leads == leads0 + Numbered(Kept(atts, refusedLines), next0) && nextId == next0 + imported
  }

  /** One line of `parseCSV` keeps `ImportedSoFar`. */
  lemma ImportStep(headers: seq<string>, lines: seq<string>, filename: string, dateAdded: string,
                   refusedLines: set<nat>, n: nat, m: nat, leads0: seq<Lead>, next0: int,
                   leadsPrev: seq<Lead>, nextPrev: int, importedPrev: nat, skippedPrev: nat,
                   leadsNew: seq<Lead>, nextNew: int, importedNew: nat, skippedNew: nat,
                   added: bool, refused: bool)
    requires 1 <= n && m == n + 1 && m <= |lines|
    requires ImportedSoFar(headers, lines, filename, dateAdded, refusedLines, n, leads0, next0,
                           leadsPrev, nextPrev, importedPrev, skippedPrev)
    requires var row := LeadRow(headers, lines[n], filename, dateAdded);
      added == (row.Some? && n !in refusedLines) && refused == (row.Some? && n in refusedLines)
    requires added ==>
      leadsNew == leadsPrev + [Lead(nextPrev, LeadRow(headers, lines[n], filename, dateAdded).value)] &&
      nextNew == nextPrev + 1
    requires !added ==> leadsNew == leadsPrev && nextNew == nextPrev
    requires importedNew == importedPrev + (if added then 1 else 0)
    requires skippedNew == skippedPrev + (if refused then 1 else 0)
    ensures ImportedSoFar(headers, lines, filename, dateAdded, refusedLines, m, leads0, next0,
                          leadsNew, nextNew, importedNew, skippedNew)
  {
    ParseStep(headers, lines, filename, dateAdded, refusedLines, n, m);
    var before := Kept(Attempts(headers, lines, filename, dateAdded, n), refusedLines);
    var after := Kept(Attempts(headers, lines, filename, dateAdded, m), refusedLines);
    if added {
      var d := LeadRow(headers, lines[n], filename, dateAdded).value;
      assert after == before + [d];
      AddStep(leadsPrev, leadsNew, leads0, before, d, next0, nextPrev);
    } else {
      assert after == before + [];
      assert after == before;
    }
  }

  /** The attempted adds that the store takes, given which lines' adds fail. */
  function Kept(atts: seq<(nat, LeadData)>, refusedLines: set<nat>): seq<LeadData> {
    if atts == [] then []
    else
      var last := atts[|atts| - 1];
      Kept(atts[..|atts| - 1], refusedLines) + (if last.0 in refusedLines then [] else [last.1])
  }

  /** One more attempt adds its lead unless the store refuses it. */
  lemma KeptSnoc(atts: seq<(nat, LeadData)>, att: (nat, LeadData), refusedLines: set<nat>)
    ensures Kept(atts + [att], refusedLines) == Kept(atts, refusedLines) + (if att.0 in refusedLines then [] else [att.1])
  {
    assert (atts + [att])[..|atts|] == atts;
  }

  /** No more leads are kept than adds attempted. */
  lemma {:induction false} KeptBound(atts: seq<(nat, LeadData)>, refusedLines: set<nat>)
    ensures |Kept(atts, refusedLines)| <= |atts|
  {
    if atts != [] {
      KeptBound(atts[..|atts| - 1], refusedLines);
    }
  }

  /** Every lead kept is the lead of some attempt whose line the store did not refuse. */
  lemma {:induction false} KeptFrom(atts: seq<(nat, LeadData)>, refusedLines: set<nat>)
    ensures forall d :: d in Kept(atts, refusedLines) ==>
      exists k :: 0 <= k < |atts| && atts[k].1 == d && atts[k].0 !in refusedLines
  {
    if atts != [] {
      var init := atts[..|atts| - 1];
      KeptFrom(init, refusedLines);
      forall d | d in Kept(atts, refusedLines)
        ensures exists k :: 0 <= k < |atts| && atts[k].1 == d && atts[k].0 !in refusedLines
      {
        if d in Kept(init, refusedLines) {
          var k :| 0 <= k < |init| && init[k].1 == d && init[k].0 !in refusedLines;
          assert atts[k] == init[k];
        } else {
          assert atts[|atts| - 1].1 == d && atts[|atts| - 1].0 !in refusedLines;
        }
      }
    }
  }

  /** What every attempted lead looks like. */
  predicate ImportedLead(d: LeadData, filename: string) {
    d.company != "" && d.contact == "" && d.comments == "" &&
    d.notes == "Imported from: " + filename && d.lastCalled.None? && d.callOutcome.None?
  }

  /** A lead a line adds has a company, the file's note, and no contact, comments or call. */
  lemma LeadRowShape(headers: seq<string>, line: string, filename: string, dateAdded: string)
    requires LeadRow(headers, line, filename, dateAdded).Some?
    ensures ImportedLead(LeadRow(headers, line, filename, dateAdded).value, filename)
  {
    FieldCount(line);
  }

  /** `LeadRow` in terms of the line's fields. */
  lemma LeadRowOf(headers: seq<string>, line: string, values: seq<string>, filename: string, dateAdded: string)
    requires values == LineFields(line)
    ensures LeadRow(headers, line, filename, dateAdded) ==
      if |values| >= |headers| && CsvLead(values, filename, dateAdded).company != ""
      then Some(CsvLead(values, filename, dateAdded)) else None
  {
  }

  /** One more line adds its lead, if it has one, at the end. */
  lemma AttemptsSnoc(headers: seq<string>, lines: seq<string>, filename: string, dateAdded: string, n: nat, m: nat)
    requires 1 <= n < |lines| && m == n + 1
    ensures LeadRow(headers, lines[n], filename, dateAdded).None? ==>
      Attempts(headers, lines, filename, dateAdded, m) == Attempts(headers, lines, filename, dateAdded, n)
    ensures LeadRow(headers, lines[n], filename, dateAdded).Some? ==>
      Attempts(headers, lines, filename, dateAdded, m) ==
      Attempts(headers, lines, filename, dateAdded, n) + [(n, LeadRow(headers, lines[n], filename, dateAdded).value)]
  {
    AttemptsUnfold(headers, lines, filename, dateAdded, n, LeadRow(headers, lines[n], filename, dateAdded));
  }

  lemma AttemptsUnfold(headers: seq<string>, lines: seq<string>, filename: string, dateAdded: string, n: nat,
                       row: Option<LeadData>)
    requires 1 <= n < |lines| && row == LeadRow(headers, lines[n], filename, dateAdded)
    ensures row.None? ==>
      Attempts(headers, lines, filename, dateAdded, n + 1) == Attempts(headers, lines, filename, dateAdded, n)
    ensures row.Some? ==>
      Attempts(headers, lines, filename, dateAdded, n + 1) ==
      Attempts(headers, lines, filename, dateAdded, n) + [(n, row.value)]
  {
    var prev := Attempts(headers, lines, filename, dateAdded, n);
    if row.None? {
      assert prev + [] == prev;
    }
  }

  /**
   * Each data line is tried at most once and in order, never the header line: the
   * line numbers rise from 1 and stay below the number of lines. Every lead tried
   * has a company, no contact and no comments (the tokenizer never returns a
   * seventh field), and the note naming the file.
   */
  lemma {:induction false} AttemptsShape(headers: seq<string>, lines: seq<string>, filename: string,
                                         dateAdded: string, n: nat)
    requires n <= |lines|
    ensures var a := Attempts(headers, lines, filename, dateAdded, n);
      (forall k :: 0 <= k < |a| ==> 1 <= a[k].0 < n && ImportedLead(a[k].1, filename)) &&
      (forall j, k :: 0 <= j < k < |a| ==> a[j].0 < a[k].0) &&
      (n >= 1 ==> |a| <= n - 1)
  {
    if n > 1 {
      var p := n - 1;
      AttemptsShape(headers, lines, filename, dateAdded, p);
      var row := LeadRow(headers, lines[p], filename, dateAdded);
      AttemptsUnfold(headers, lines, filename, dateAdded, p, row);
      if row.Some? {
        LeadRowShape(headers, lines[p], filename, dateAdded);
        ShapeSnoc(Attempts(headers, lines, filename, dateAdded, p), (p, row.value), filename, p);
      }
    }
  }

  /** Appending the attempt of line `p` to the attempts of the lines before it keeps their shape. */
  lemma ShapeSnoc(prev: seq<(nat, LeadData)>, e: (nat, LeadData), filename: string, p: nat)
    requires 1 <= p && e.0 == p && ImportedLead(e.1, filename) && |prev| <= p - 1
    requires forall k :: 0 <= k < |prev| ==> 1 <= prev[k].0 < p && ImportedLead(prev[k].1, filename)
    requires forall j, k :: 0 <= j < k < |prev| ==> prev[j].0 < prev[k].0
    ensures var a := prev + [e];
      (forall k :: 0 <= k < |a| ==> 1 <= a[k].0 < p + 1 && ImportedLead(a[k].1, filename)) &&
      (forall j, k :: 0 <= j < k < |a| ==> a[j].0 < a[k].0) &&
      |a| <= p
  {
    var a := prev + [e];
    assert forall k :: 0 <= k < |prev| ==> a[k] == prev[k];
  }

  /**
   * Text without a non-blank line imports nothing; otherwise the attempts are
   * at most the data lines.
   */
  lemma CsvAttemptsShape(csv: string, filename: string, dateAdded: string)
    ensures LeadLines(csv) == [] ==> CsvAttempts(csv, filename, dateAdded) == []
    ensures LeadLines(csv) != [] ==> |CsvAttempts(csv, filename, dateAdded)| <= |LeadLines(csv)| - 1
    ensures forall a :: a in CsvAttempts(csv, filename, dateAdded) ==> ImportedLead(a.1, filename)
  {
    var lines := LeadLines(csv);
    if lines != [] {
      AttemptsShape(LineFields(lines[0]), lines, filename, dateAdded, |lines|);
    }
  }

  /** Every lead the import stores has a company, the file's note, and no contact, comments or call. */
  lemma KeptImported(csv: string, filename: string, dateAdded: string, refusedLines: set<nat>)
    ensures forall d :: d in Kept(CsvAttempts(csv, filename, dateAdded), refusedLines) ==> ImportedLead(d, filename)
  {
    var atts := CsvAttempts(csv, filename, dateAdded);
    CsvAttemptsShape(csv, filename, dateAdded);
    KeptFrom(atts, refusedLines);
    forall d | d in Kept(atts, refusedLines) ensures ImportedLead(d, filename) {
      var k :| 0 <= k < |atts| && atts[k].1 == d && atts[k].0 !in refusedLines;
      assert atts[k] in atts;
    }
  }

  // ---------------------------------------------------------------------------
  // saveCallNotes

  /** The meeting fields of the call-notes form. */
  datatype MeetingForm = MeetingForm(date: string, time: string, notes: string, googleCalendarLink: string)

  /** The outcome that asks for a meeting. */
  const MeetingSet := "meeting_set"

  /** `${now} [${outcome.toUpperCase()}]: ${notes}`. */
  function EntryHead(nowText: string, outcome: string, notes: string): string {
    nowText + " [" + Upper(outcome) + "]: " + notes
  }

  /** The meeting lines: date and time, then the agenda and the calendar link when given. */
  function MeetingLines(m: MeetingForm): string {
    "\nMeeting: " + m.date + " at " + m.time +
    (if m.notes != "" then "\nAgenda: " + m.notes else "") +
    (if m.googleCalendarLink != "" then "\nCalendar: " + m.googleCalendarLink else "")
  }

  /** The journal entry for a call. */
  function CallEntry(nowText: string, outcome: string, notes: string, m: MeetingForm): string {
    EntryHead(nowText, outcome, notes) + (if outcome == MeetingSet then MeetingLines(m) else "")
  }

  /** The entry after the existing notes and a blank line, or on its own. */
  function AppendNote(before: string, entry: string): string {
    if before != "" then before + "\n\n" + entry else entry
  }

  /** The `meetingData` block, only for a meeting. */
  function MeetingOf(outcome: string, m: MeetingForm, nowText: string): Option<Meeting> {
    if outcome == MeetingSet then
      Some(Meeting(m.date, m.time, m.notes, m.googleCalendarLink, "upcoming", nowText))
    else None
  }

  /** The lead `saveCallNotes` writes back. */
  function AfterCallNotes(d: LeadData, now: Timestamp, nowText: string, outcome: string,
                          notes: string, m: MeetingForm): LeadData {
    d.(lastCalled := Some(now), callOutcome := Some(outcome),
       notes := AppendNote(d.notes, CallEntry(nowText, outcome, notes, m)),
       meetingData := MeetingOf(outcome, m, nowText))
  }

  /**
   * The notes are a journal: the old notes stay in front, followed by a blank
   * line when there were any, then the entry, which starts with the time and the
   * upper-cased outcome in brackets. The same write sets `lastCalled` and
   * `callOutcome`, attaches a meeting exactly for `meeting_set`, and keeps every
   * other field.
   */
  lemma CallNotesJournal(d: LeadData, now: Timestamp, nowText: string, outcome: string,
                         notes: string, m: MeetingForm)
    ensures var r := AfterCallNotes(d, now, nowText, outcome, notes, m);
      var head := EntryHead(nowText, outcome, notes);
      (d.notes != "" ==> StartsWith(r.notes, d.notes + "\n\n" + head)) &&
      (d.notes == "" ==> StartsWith(r.notes, head)) &&
      StartsWith(head, nowText + " [" + Upper(outcome) + "]: ") &&
      r.lastCalled == Some(now) && r.callOutcome == Some(outcome) &&
      (r.meetingData.Some? <==> outcome == MeetingSet) &&
      r.(notes := d.notes, lastCalled := d.lastCalled, callOutcome := d.callOutcome,
         meetingData := d.meetingData) == d
  {
    var r := AfterCallNotes(d, now, nowText, outcome, notes, m);
    var head := EntryHead(nowText, outcome, notes);
    var entry := CallEntry(nowText, outcome, notes, m);
    assert StartsWith(entry, head) by {
      assert entry[..|head|] == head;
    }
    if d.notes != "" {
      assert r.notes == (d.notes + "\n\n") + entry;
      assert r.notes[..|d.notes + "\n\n" + head|] == d.notes + "\n\n" + head;
    }
    assert head[..|nowText + " [" + Upper(outcome) + "]: "|] == nowText + " [" + Upper(outcome) + "]: ";
  }

  /** How `saveCallNotes` ends. */
  datatype NotesResult = NotesSaved | NeedOutcome | NeedMeetingTime | NotesFailed

  // ---------------------------------------------------------------------------
  // saveCallCompletion

  /** The lead `saveCallCompletion` writes back: only `lastCalled` changes. */
  function AfterCompletion(d: LeadData, now: Timestamp): LeadData {
    d.(lastCalled := Some(now))
  }

  /**
   * Unlike the call-notes form, the completion form records the call time but
   * leaves the stored outcome and notes as they were.
   */
  lemma CompletionKeepsOutcome(d: LeadData, now: Timestamp, nowText: string, outcome: string,
                               notes: string, m: MeetingForm)
    requires outcome != "" && d.callOutcome != Some(outcome)
    ensures AfterCompletion(d, now).callOutcome == d.callOutcome
    ensures AfterCompletion(d, now).notes == d.notes
    ensures AfterCompletion(d, now).lastCalled == AfterCallNotes(d, now, nowText, outcome, notes, m).lastCalled
    ensures AfterCompletion(d, now).callOutcome != AfterCallNotes(d, now, nowText, outcome, notes, m).callOutcome
  {
  }

  /** The call-log entry for a completed call; an empty follow-up date is stored as none. */
  function CompletionLog(cur: Lead, outcome: string, notes: string, followUpDate: string,
                         nextAction: string, now: Timestamp, nowText: string): (log: CallLog)
    ensures log.leadId == cur.id && log.leadName == cur.data.company && log.outcome == outcome
    ensures log.followUpDate.None? <==> followUpDate == ""
    ensures StartsWith(log.id, "call-") && log.timestamp == nowText
  {
    CallLog("call-" + IntToString(now), cur.id, cur.data.company, outcome, notes,
            if followUpDate == "" then None else Some(followUpDate), nextAction, nowText, 0)
  }

  /** How `saveCallCompletion` ends. */
  datatype CompletionResult = Logged | MissingOutcome | NoCurrentLead

  /** The cursor after `callModeNextLeadOrCycle`. */
  function NextOrCycle(index: int, count: nat): int {
    if index < count - 1 then index + 1 else 0
  }

  /** Moving on or wrapping to the start keeps a cursor inside a non-empty snapshot. */
  lemma CycleStaysInRange(index: int, count: nat)
    requires 0 <= index < count
    ensures 0 <= NextOrCycle(index, count) < count
    ensures index == count - 1 ==> NextOrCycle(index, count) == 0
  {
  }

  // ---------------------------------------------------------------------------
  // updatePagination

  /** The page `updatePagination` settles on: pulled back to the last page, then up to 1. */
  function ClampPage(current: int, totalPages: int): (r: int)
    ensures r >= 1
    ensures totalPages > 0 ==> r <= totalPages
    ensures 1 <= current && (current <= totalPages || totalPages <= 0) ==> r == current
    ensures totalPages > 0 && current > totalPages ==> r == totalPages
  {
    var c := if current > totalPages && totalPages > 0 then totalPages else current;
    if c < 1 then 1 else c
  }

  /**
   * After `updatePagination` for the list, the page slice `getPaginatedLeads`
   * takes is the stretch of the list the page number names, and it is not
   * empty when the list is not.
   */
  lemma PageAfterUpdate<T>(items: seq<T>, current: int, pageSize: int)
    requires pageSize > 0
    ensures var p := ClampPage(current, TotalPages(|items|, pageSize));
      (p - 1) * pageSize >= 0 &&
      PageSlice(items, p, pageSize) == items[Min((p - 1) * pageSize, |items|)..Min(p * pageSize, |items|)] &&
      (|items| > 0 ==> |PageSlice(items, p, pageSize)| > 0)
  {
    var n := TotalPages(|items|, pageSize);
    var p := ClampPage(current, n);
    PageContents(items, p, pageSize);
    if |items| > 0 {
      assert (p - 1) * pageSize < |items| by {
        MulMono(p - 1, n - 1, pageSize);
      }
      assert (p - 1) * pageSize < p * pageSize by {
        MulSucc(p - 1, pageSize);
      }
    }
  }

  // ---------------------------------------------------------------------------
  // The SalesCRM object

  class SalesCRM {
    /** The `leads` object store, in key order, and its key generator's next key. */
    var leads: seq<Lead>
    var nextId: int
    /** `config.callQueueDays`. */
    var callQueueDays: int
    var currentQueue: QueueSel
    var customQueues: seq<CustomQueue>
    /** The call-mode snapshot, its cursor and whether call mode is on. */
    var callModeLeads: seq<Lead>
    var callModeIndex: int
    var callModeActive: bool
    var callLogs: seq<CallLog>
    /** The `prospects` and `leads` entries of the key-value storage. */
    var prospects: seq<Prospect>
    var leadsSlot: seq<LeadData>
    var currentLeadId: Option<int>
    var currentProspectId: Option<int>
    var pagination: Pagination

    /**
     * The store is in key order below the generator's next key, the page size is
     * positive, and the cursor points into a non-empty snapshot.
     */
    predicate Valid()
      reads this
    {
      IdsAscending(leads) && (forall l :: l in leads ==> l.id < nextId) &&
      pagination.pageSize > 0 &&
      (|callModeLeads| > 0 ==> 0 <= callModeIndex < |callModeLeads|)
    }

    /** The parts of the state, so that each operation can say which it leaves alone. */
    function Store(): (seq<Lead>, int)
      reads this
    {
      (leads, nextId)
    }

    function Session(): (seq<Lead>, int, bool, seq<CallLog>)
      reads this
    {
      (callModeLeads, callModeIndex, callModeActive, callLogs)
    }

    function Pipeline(): (seq<Prospect>, seq<LeadData>, Option<int>)
      reads this
    {
      (prospects, leadsSlot, currentProspectId)
    }

    function Settings(): (int, QueueSel, seq<CustomQueue>, Option<int>, Pagination)
      reads this
    {
      (callQueueDays, currentQueue, customQueues, currentLeadId, pagination)
    }

    /** The constructor's initial state, before anything is loaded from storage. */
    constructor ()
      ensures Valid()
      ensures leads == [] && nextId == 1 && callQueueDays == 7
      ensures currentQueue == Default && customQueues == []
      ensures callModeLeads == [] && callModeIndex == 0 && !callModeActive && callLogs == []
      ensures prospects == [] && leadsSlot == [] && currentLeadId.None? && currentProspectId.None?
      ensures pagination == Pagination(1, 25, 0, 0)
    {
      leads := [];
      nextId := 1;
      callQueueDays := 7;
      currentQueue := Default;
      customQueues := [];
      callModeLeads := [];
      callModeIndex := 0;
      callModeActive := false;
      callLogs := [];
      prospects := [];
      leadsSlot := [];
      currentLeadId := None;
      currentProspectId := None;
      pagination := Pagination(1, 25, 0, 0);
    }

    // ----- the lead store

    /** `addLead`: the record is stored under the generator's next key. */
    method AddLead(data: LeadData) returns (id: int)
      requires Valid()
      modifies this
      ensures Valid()
      ensures id == old(nextId) && leads == old(leads) + [Lead(id, data)] && nextId == old(nextId) + 1
      ensures Session() == old(Session()) && Pipeline() == old(Pipeline()) && Settings() == old(Settings())
    {
      id := nextId;
      assert forall l :: l in leads ==> l.id < id;
      forall i, j | 0 <= i < j < |leads| + 1 ensures (leads + [Lead(id, data)])[i].id < (leads + [Lead(id, data)])[j].id {
        assert (leads + [Lead(id, data)])[i] == leads[i];
        if j == |leads| {
          assert leads[i] in leads;
        } else {
          assert (leads + [Lead(id, data)])[j] == leads[j];
        }
      }
      leads := leads + [Lead(id, data)];
      nextId := nextId + 1;
    }

    /**
     * `updateLead`: a put under the key; a key at or past the generator's next key
     * moves the generator past it.
     */
    method UpdateLead(id: int, data: LeadData)
      requires Valid()
      modifies this
      ensures Valid()
      ensures leads == PutLead(old(leads), id, data) && nextId == Max(old(nextId), id + 1)
      ensures Session() == old(Session()) && Pipeline() == old(Pipeline()) && Settings() == old(Settings())
    {
      PutLeadSpec(leads, id, data);
      leads := PutLead(leads, id, data);
      nextId := Max(nextId, id + 1);
    }

    /** `getLeadById`. */
    function GetLeadById(id: int): Option<Lead>
      reads this
    {
      FindLead(leads, id)
    }

    // ----- parseCSV

    /**
     * `parseCSV`: every data line that has at least as many fields as the header
     * and a company is added in line order; an add the store refuses
     * (a line in `refusedLines`) counts as skipped. Lines shorter than the header
     * or without a company count as neither.
     */
    method ParseCSV(csv: string, filename: string, dateAdded: string, refusedLines: set<nat>)
      returns (imported: nat, skipped: nat)
      requires Valid()
      modifies this
      ensures Valid()
      ensures var atts := CsvAttempts(csv, filename, dateAdded);
        imported == |Kept(atts, refusedLines)| && imported + skipped == |atts| &&
        leads == old(leads) + Numbered(Kept(atts, refusedLines), old(nextId)) &&
        nextId == old(nextId) + imported
      ensures Session() == old(Session()) && Pipeline() == old(Pipeline()) && Settings() == old(Settings())
    {
      var lines := LeadLines(csv);
      imported, skipped := 0, 0;
      if |lines| == 0 {
        assert CsvAttempts(csv, filename, dateAdded) == [];
        assert Kept([], refusedLines) == [];
        assert leads == old(leads) + Numbered([], old(nextId));
        return;
      }
      imported, skipped := ImportDataLines(lines, filename, dateAdded, refusedLines);
      CsvAttemptsOf(csv, filename, dateAdded, lines);
    }

    /** The loop of `parseCSV` over the lines after the header line. */
    method ImportDataLines(lines: seq<string>, filename: string, dateAdded: string, refusedLines: set<nat>)
      returns (imported: nat, skipped: nat)
      requires Valid() && lines != []
      modifies this
      ensures Valid()
      ensures var atts := Attempts(LineFields(lines[0]), lines, filename, dateAdded, |lines|);
        imported == |Kept(atts, refusedLines)| && imported + skipped == |atts| &&
        leads == old(leads) + Numbered(Kept(atts, refusedLines), old(nextId)) &&
        nextId == old(nextId) + imported
      ensures Session() == old(Session()) && Pipeline() == old(Pipeline()) && Settings() == old(Settings())
    {
      imported, skipped := 0, 0;
      var headers := ParseCSVLine(lines[0]);
      ghost var leads0, next0 := leads, nextId;
      var i := 1;
      while i < |lines|
        invariant 1 <= i <= |lines| && Valid()
        invariant ImportedSoFar(headers, lines, filename, dateAdded, refusedLines, i, leads0, next0,
                                leads, nextId, imported, skipped)
        invariant Session() == old(Session()) && Pipeline() == old(Pipeline()) && Settings() == old(Settings())
      {
        ghost var leadsPrev, nextPrev, importedPrev, skippedPrev, n := leads, nextId, imported, skipped, i;
        var added, refused := ImportLine(headers, lines[i], i, filename, dateAdded, refusedLines);
        if added {
          imported := imported + 1;
        }
        if refused {
          skipped := skipped + 1;
        }
        i := i + 1;
        ImportStep(headers, lines, filename, dateAdded, refusedLines, n, i, leads0, next0,
                   leadsPrev, nextPrev, importedPrev, skippedPrev, leads, nextId, imported, skipped, added, refused);
      }
    }

    /**
     * One data line of `parseCSV`: a row with at least as many fields as the
     * header and a company is added, unless the store refuses it.
     */
    method ImportLine(headers: seq<string>, line: string, lineNo: nat, filename: string, dateAdded: string,
                      refusedLines: set<nat>) returns (added: bool, refused: bool)
      requires Valid()
      modifies this
      ensures Valid()
      ensures var row := LeadRow(headers, line, filename, dateAdded);
        added == (row.Some? && lineNo !in refusedLines) && refused == (row.Some? && lineNo in refusedLines)
      ensures added ==> leads == old(leads) + [Lead(old(nextId), LeadRow(headers, line, filename, dateAdded).value)] &&
                        nextId == old(nextId) + 1
      ensures !added ==> leads == old(leads) && nextId == old(nextId)
      ensures Session() == old(Session()) && Pipeline() == old(Pipeline()) && Settings() == old(Settings())
    {
      added, refused := false, false;
      var values := ParseCSVLine(line);
      LeadRowOf(headers, line, values, filename, dateAdded);
      if |values| >= |headers| {
        var leadData := CsvLead(values, filename, dateAdded);
        if leadData.company != "" {
          if lineNo in refusedLines {
            refused := true;
          } else {
            var id := AddLead(leadData);
            added := true;
          }
        }
      }
    }

    // ----- saveCallNotes

    /**
     * `saveCallNotes` for the lead `currentLeadId` names: an empty outcome, a
     * meeting without date or time, or no such lead leave everything as it was;
     * otherwise the lead is written back with the journal entry, the call time and
     * the outcome.
     */
    method SaveCallNotes(notesText: string, outcome: string, m: MeetingForm, now: Timestamp, nowText: string)
      returns (res: NotesResult)
      requires Valid()
      modifies this
      ensures Valid()
      ensures res == NeedOutcome <==> outcome == ""
      ensures res == NeedMeetingTime <==>
        outcome == MeetingSet && currentLeadId.Some? && (m.date == "" || m.time == "")
      ensures res == NotesSaved <==>
        outcome != "" && currentLeadId.Some? && FindLead(old(leads), currentLeadId.value).Some? &&
        (outcome == MeetingSet ==> m.date != "" && m.time != "")
      ensures res == NotesSaved ==>
        leads == PutLead(old(leads), currentLeadId.value,
          AfterCallNotes(FindLead(old(leads), currentLeadId.value).value.data, now, nowText, outcome,
                         Trim(notesText, JsSpaces), m))
      ensures res != NotesSaved ==> leads == old(leads)
      ensures nextId == old(nextId)
      ensures Session() == old(Session()) && Pipeline() == old(Pipeline()) && Settings() == old(Settings())
    {
      var notes := Trim(notesText, JsSpaces);
      if outcome == "" {
        return NeedOutcome;
      }
      if currentLeadId.None? {
        return NotesFailed;
      }
      var id := currentLeadId.value;
      var lead := GetLeadById(id);
      if outcome == MeetingSet && (m.date == "" || m.time == "") {
        return NeedMeetingTime;
      }
      if lead.None? {
        return NotesFailed;
      }
      UpdateLead(id, AfterCallNotes(lead.value.data, now, nowText, outcome, notes, m));
      res := NotesSaved;
    }

    // ----- call mode

    /**
     * `enterCallMode`: the snapshot is the default call queue; an empty one does
     * not start call mode.
     */
    method EnterCallMode(now: Timestamp) returns (started: bool)
      requires Valid()
      modifies this
      ensures Valid()
      ensures callModeLeads == GetQueueLeads(leads, Default, customQueues, callQueueDays, now)
      ensures started <==> callModeLeads != []
      ensures started ==> callModeActive && callModeIndex == 0
      ensures !started ==> callModeActive == old(callModeActive) && callModeIndex == old(callModeIndex)
      ensures callLogs == old(callLogs)
      ensures Store() == old(Store()) && Pipeline() == old(Pipeline()) && Settings() == old(Settings())
    {
      var days := callQueueDays;
      callModeLeads := Filter(leads, (l: Lead) => l.data.lastCalled.None? ||
                                                  l.data.lastCalled.value < now - days * DayMs);
      DefaultQueueIs(leads, customQueues, days, now, (l: Lead) => l.data.lastCalled.None? ||
                                                                 l.data.lastCalled.value < now - days * DayMs);
      if |callModeLeads| == 0 {
        return false;
      }
      callModeActive := true;
      callModeIndex := 0;
      started := true;
    }

    /** `callModeNextLead`: one step on, except at the last lead. */
    method NextLead()
      requires Valid()
      modifies this
      ensures Valid()
      ensures callModeIndex == if old(callModeIndex) < |callModeLeads| - 1 then old(callModeIndex) + 1 else old(callModeIndex)
      ensures callModeLeads == old(callModeLeads) && callModeActive == old(callModeActive) && callLogs == old(callLogs)
      ensures Store() == old(Store()) && Pipeline() == old(Pipeline()) && Settings() == old(Settings())
    {
      if callModeIndex < |callModeLeads| - 1 {
        callModeIndex := callModeIndex + 1;
      }
    }

    /** `callModeNextLeadOrCycle`: one step on, or back to the first lead. */
    method NextLeadOrCycle()
      requires Valid()
      modifies this
      ensures Valid()
      ensures callModeIndex == NextOrCycle(old(callModeIndex), |callModeLeads|)
      ensures callModeLeads == old(callModeLeads) && callModeActive == old(callModeActive) && callLogs == old(callLogs)
      ensures Store() == old(Store()) && Pipeline() == old(Pipeline()) && Settings() == old(Settings())
    {
      if callModeIndex < |callModeLeads| - 1 {
        callModeIndex := callModeIndex + 1;
      } else {
        callModeIndex := 0;
      }
    }

    /** `callModePreviousLead`: one step back, except at the first lead. */
    method PreviousLead()
      requires Valid()
      modifies this
      ensures Valid()
      ensures callModeIndex == if old(callModeIndex) > 0 then old(callModeIndex) - 1 else old(callModeIndex)
      ensures callModeLeads == old(callModeLeads) && callModeActive == old(callModeActive) && callLogs == old(callLogs)
      ensures Store() == old(Store()) && Pipeline() == old(Pipeline()) && Settings() == old(Settings())
    {
      if callModeIndex > 0 {
        callModeIndex := callModeIndex - 1;
      }
    }

    /**
     * `callModeRandomLead`: `pick` is `Math.floor(Math.random() * length)`, a
     * position of the snapshot, or 0 for an empty one.
     */
    method RandomLead(pick: int)
      requires Valid()
      requires if |callModeLeads| == 0 then pick == 0 else 0 <= pick < |callModeLeads|
      modifies this
      ensures Valid()
      ensures callModeIndex == pick
      ensures callModeLeads == old(callModeLeads) && callModeActive == old(callModeActive) && callLogs == old(callLogs)
      ensures Store() == old(Store()) && Pipeline() == old(Pipeline()) && Settings() == old(Settings())
    {
      callModeIndex := pick;
    }

    /** `saveCallLog`: the entry is appended. */
    method SaveCallLog(log: CallLog)
      modifies this
      ensures callLogs == old(callLogs) + [log]
      ensures callModeLeads == old(callModeLeads) && callModeIndex == old(callModeIndex)
      ensures callModeActive == old(callModeActive)
      ensures Store() == old(Store()) && Pipeline() == old(Pipeline()) && Settings() == old(Settings())
    {
      callLogs := callLogs + [log];
    }

    /**
     * `saveCallCompletion`: with an outcome and a current lead, the call is logged,
     * the snapshot's lead gets the call time (the lead object is shared, so the
     * snapshot changes too) and is written back to the store, and the cursor
     * moves on or wraps.
     */
    method SaveCallCompletion(outcome: string, notes: string, followUpDate: string, nextAction: string,
                              now: Timestamp, nowText: string) returns (res: CompletionResult)
      requires Valid()
      modifies this
      ensures Valid()
      ensures res == MissingOutcome <==> outcome == ""
      ensures res == NoCurrentLead <==> outcome != "" && !(0 <= old(callModeIndex) < |old(callModeLeads)|)
      ensures res != Logged ==> Session() == old(Session()) && Store() == old(Store())
      ensures res == Logged ==>
        var cur := old(callModeLeads)[old(callModeIndex)];
        callLogs == old(callLogs) + [CompletionLog(cur, outcome, notes, followUpDate, nextAction, now, nowText)] &&
        callModeLeads == old(callModeLeads)[old(callModeIndex) := Lead(cur.id, AfterCompletion(cur.data, now))] &&
        leads == PutLead(old(leads), cur.id, AfterCompletion(cur.data, now)) &&
        callModeIndex == NextOrCycle(old(callModeIndex), |callModeLeads|)
      ensures callModeActive == old(callModeActive)
      ensures Pipeline() == old(Pipeline()) && Settings() == old(Settings())
    {
      if outcome == "" {
        return MissingOutcome;
      }
      if !(0 <= callModeIndex < |callModeLeads|) {
        return NoCurrentLead;
      }
      var cur := callModeLeads[callModeIndex];
      var log := CompletionLog(cur, outcome, notes, followUpDate, nextAction, now, nowText);
      SaveCallLog(log);
      var updated := AfterCompletion(cur.data, now);
      callModeLeads := callModeLeads[callModeIndex := Lead(cur.id, updated)];
      UpdateLead(cur.id, updated);
      NextLeadOrCycle();
      res := Logged;
    }

    // ----- prospects

    /**
     * `handleProspectCSVFile` over the chosen files: each file's rows are appended
     * as new unreviewed prospects, until a file without a non-blank line ends the
     * import; `allRead` says whether every file was imported.
     */
    method HandleProspectCSVFiles(files: seq<string>, idOf: (nat, nat) -> int, dateAdded: string)
      returns (allRead: bool)
      requires Valid()
      modifies this
      ensures Valid()
      ensures (prospects, allRead) == ImportFiles(old(prospects), ParseAll(files), idOf, dateAdded, |files|)
      ensures leadsSlot == old(leadsSlot) && currentProspectId == old(currentProspectId)
      ensures Store() == old(Store()) && Session() == old(Session()) && Settings() == old(Settings())
    {
      if |files| == 0 {
        return true;
      }
      prospects, allRead := ImportProspectFiles(prospects, files, idOf, dateAdded);
    }

    /**
     * `saveProspectReview`: the prospect `currentProspectId` names (an id of 0
     * counts as none) gets the form's fields and the stage its decision gives.
     */
    method SaveProspectReview(form: ReviewForm) returns (saved: bool)
      requires Valid()
      modifies this
      ensures Valid()
      ensures saved <==> (currentProspectId.Some? && currentProspectId.value != 0 &&
                          FindProspectIndex(old(prospects), currentProspectId.value) >= 0)
      ensures saved ==>
        var i := FindProspectIndex(old(prospects), currentProspectId.value);
        prospects == old(prospects)[i := Reviewed(old(prospects)[i], form)]
      ensures !saved ==> prospects == old(prospects)
      ensures leadsSlot == old(leadsSlot) && currentProspectId == old(currentProspectId)
      ensures Store() == old(Store()) && Session() == old(Session()) && Settings() == old(Settings())
    {
      if currentProspectId.None? || currentProspectId.value == 0 {
        return false;
      }
      var i := FindProspectIndex(prospects, currentProspectId.value);
      if i == -1 {
        return false;
      }
      prospects := prospects[i := Reviewed(prospects[i], form)];
      saved := true;
    }

    /** The `prospects.forEach` loop of the bulk buttons. */
    method MarkSelectedProspects(ids: seq<int>, stage: Stage, decision: string)
      requires Valid()
      modifies this
      ensures Valid()
      ensures prospects == MarkSelected(old(prospects), ids, stage, decision)
      ensures leadsSlot == old(leadsSlot) && currentProspectId == old(currentProspectId)
      ensures Store() == old(Store()) && Session() == old(Session()) && Settings() == old(Settings())
    {
      var i := 0;
      while i < |prospects|
        invariant 0 <= i <= |prospects| == |old(prospects)|
        invariant forall k :: 0 <= k < i ==> prospects[k] == MarkOne(old(prospects)[k], ids, stage, decision)
        invariant forall k :: i <= k < |prospects| ==> prospects[k] == old(prospects)[k]
        invariant leadsSlot == old(leadsSlot) && currentProspectId == old(currentProspectId)
        invariant Store() == old(Store()) && Session() == old(Session()) && Settings() == old(Settings())
      {
        if prospects[i].id in ids {
          prospects := prospects[i := Decided(prospects[i], stage, decision)];
        }
        i := i + 1;
      }
    }

    /** `bulkApproveProspects`: with a selection, every selected prospect is finalized. */
    method BulkApprove(ids: seq<int>) returns (done: bool)
      requires Valid()
      modifies this
      ensures Valid()
      ensures done <==> ids != []
      ensures prospects == if ids == [] then old(prospects) else MarkSelected(old(prospects), ids, Finalized, "approve")
      ensures leadsSlot == old(leadsSlot) && currentProspectId == old(currentProspectId)
      ensures Store() == old(Store()) && Session() == old(Session()) && Settings() == old(Settings())
    {
      if ids == [] {
        return false;
      }
      MarkSelectedProspects(ids, Finalized, "approve");
      done := true;
    }

    /** `bulkRejectProspects`: with a selection, every selected prospect is disqualified. */
    method BulkReject(ids: seq<int>) returns (done: bool)
      requires Valid()
      modifies this
      ensures Valid()
      ensures done <==> ids != []
      ensures prospects == if ids == [] then old(prospects) else MarkSelected(old(prospects), ids, Unqualified, "reject")
      ensures leadsSlot == old(leadsSlot) && currentProspectId == old(currentProspectId)
      ensures Store() == old(Store()) && Session() == old(Session()) && Settings() == old(Settings())
    {
      if ids == [] {
        return false;
      }
      MarkSelectedProspects(ids, Unqualified, "reject");
      done := true;
    }

    /** `bulkDeleteProspects`: with a selection and the user's confirmation, the selected ids are removed. */
    method BulkDelete(ids: seq<int>, confirmed: bool) returns (done: bool)
      requires Valid()
      modifies this
      ensures Valid()
      ensures done <==> ids != [] && confirmed
      ensures prospects == if done then DeleteSelected(old(prospects), ids) else old(prospects)
      ensures leadsSlot == old(leadsSlot) && currentProspectId == old(currentProspectId)
      ensures Store() == old(Store()) && Session() == old(Session()) && Settings() == old(Settings())
    {
      if ids == [] || !confirmed {
        return false;
      }
      prospects := DeleteSelected(prospects, ids);
      done := true;
    }

    /**
     * `finalizeProspects`: with at least one finalized prospect, their leads are
     * appended to the `leads` storage entry and only the others stay prospects.
     */
    method FinalizeProspects(dateAdded: string) returns (count: nat)
      requires Valid()
      modifies this
      ensures Valid()
      ensures count == |FinalizedOf(old(prospects))|
      ensures count == 0 ==> prospects == old(prospects) && leadsSlot == old(leadsSlot)
      ensures count > 0 ==> leadsSlot == old(leadsSlot) + NewLeads(old(prospects), dateAdded) &&
                            prospects == Remaining(old(prospects))
      ensures currentProspectId == old(currentProspectId)
      ensures Store() == old(Store()) && Session() == old(Session()) && Settings() == old(Settings())
    {
      var finalized := FinalizedOf(prospects);
      if |finalized| == 0 {
        return 0;
      }
      var newLeads := NewLeads(prospects, dateAdded);
      leadsSlot := leadsSlot + newLeads;
      prospects := Remaining(prospects);
      count := |newLeads|;
    }

    // ----- pagination

    /** `updatePagination`: the counts for the list, the current page clamped to them. */
    method UpdatePagination(totalItems: nat)
      requires Valid()
      modifies this
      ensures Valid()
      ensures var total := TotalPages(totalItems, old(pagination).pageSize);
        pagination == old(pagination).(totalItems := totalItems, totalPages := total,
                                       currentPage := ClampPage(old(pagination).currentPage, total))
      ensures Store() == old(Store()) && Session() == old(Session()) && Pipeline() == old(Pipeline())
      ensures callQueueDays == old(callQueueDays) && currentQueue == old(currentQueue)
      ensures customQueues == old(customQueues) && currentLeadId == old(currentLeadId)
    {
      pagination := pagination.(totalItems := totalItems,
                                totalPages := TotalPages(totalItems, pagination.pageSize));
      if pagination.currentPage > pagination.totalPages && pagination.totalPages > 0 {
        pagination := pagination.(currentPage := pagination.totalPages);
      }
      if pagination.currentPage < 1 {
        pagination := pagination.(currentPage := 1);
      }
    }

    /** `getPaginatedLeads`: the current page's slice of the list. */
    function GetPaginatedLeads(items: seq<Lead>): seq<Lead>
      reads this
    {
      PageSlice(items, pagination.currentPage, pagination.pageSize)
    }
  }

  lemma AddStep(leadsPrev: seq<Lead>, leadsNew: seq<Lead>, leads0: seq<Lead>, before: seq<LeadData>,
                d: LeadData, next0: int, nextPrev: int)
    requires leadsPrev == leads0 + Numbered(before, next0) && nextPrev == next0 + |before|
    requires leadsNew == leadsPrev + [Lead(nextPrev, d)]
    ensures leadsNew == leads0 + Numbered(before + [d], next0)
  {
    NumberedStep(leads0, before, d, next0);
  }

  lemma NumberedStep(leads0: seq<Lead>, kept: seq<LeadData>, d: LeadData, start: int)
    ensures leads0 + Numbered(kept + [d], start) == (leads0 + Numbered(kept, start)) + [Lead(start + |kept|, d)]
  {
    NumberedSnoc(kept, d, start);
  }

  /** One more kept lead is numbered with the next key. */
  lemma NumberedSnoc(ds: seq<LeadData>, d: LeadData, start: int)
    ensures Numbered(ds + [d], start) == Numbered(ds, start) + [Lead(start + |ds|, d)]
  {
    assert (ds + [d])[..|ds|] == ds;
  }

  /** The file loop of `handleProspectCSVFile`, over the stored prospects. */
  method ImportProspectFiles(ps: seq<Prospect>, files: seq<string>, idOf: (nat, nat) -> int, dateAdded: string)
    returns (r: seq<Prospect>, allRead: bool)
    ensures (r, allRead) == ImportFiles(ps, ParseAll(files), idOf, dateAdded, |files|)
  {
    r, allRead := ps, true;
    ghost var all := ParseAll(files);
    var i := 0;
    while i < |files| && allRead
      invariant 0 <= i <= |files|
      invariant (r, allRead) == ImportFiles(ps, all, idOf, dateAdded, i)
    {
      var parsed := ParseProspectCSV(files[i]);
      assert all[i] == parsed;
      ghost var n := i;
      if parsed.None? {
        allRead := false;
      } else {
        r := r + Stamped(parsed.value, i, idOf, dateAdded);
      }
      i := i + 1;
      ImportFilesSnoc(ps, all, idOf, dateAdded, n, i);
    }
    if !allRead {
      ImportFilesStops(ps, all, idOf, dateAdded, i, |files|);
    }
  }

  /** One more file, after files that all parsed, appends its rows or ends the import. */
  lemma ImportFilesSnoc(ps: seq<Prospect>, parsed: seq<Option<seq<ProspectRow>>>,
                        idOf: (nat, nat) -> int, dateAdded: string, n: nat, m: nat)
    requires n < |parsed| && m == n + 1 && ImportFiles(ps, parsed, idOf, dateAdded, n).1
    ensures parsed[n].None? ==>
      ImportFiles(ps, parsed, idOf, dateAdded, m) == (ImportFiles(ps, parsed, idOf, dateAdded, n).0, false)
    ensures parsed[n].Some? ==>
      ImportFiles(ps, parsed, idOf, dateAdded, m) ==
      (ImportFiles(ps, parsed, idOf, dateAdded, n).0 + Stamped(parsed[n].value, n, idOf, dateAdded), true)
  {
    ImportFilesUnfold(ps, parsed, idOf, dateAdded, n);
  }

  lemma ImportFilesUnfold(ps: seq<Prospect>, parsed: seq<Option<seq<ProspectRow>>>,
                          idOf: (nat, nat) -> int, dateAdded: string, n: nat)
    requires n < |parsed| && ImportFiles(ps, parsed, idOf, dateAdded, n).1
    ensures parsed[n].None? ==>
      ImportFiles(ps, parsed, idOf, dateAdded, n + 1) == (ImportFiles(ps, parsed, idOf, dateAdded, n).0, false)
    ensures parsed[n].Some? ==>
      ImportFiles(ps, parsed, idOf, dateAdded, n + 1) ==
      (ImportFiles(ps, parsed, idOf, dateAdded, n).0 + Stamped(parsed[n].value, n, idOf, dateAdded), true)
  {
  }

  /** Once a file fails, later files change nothing. */
  lemma {:induction false} ImportFilesStops(ps: seq<Prospect>, parsed: seq<Option<seq<ProspectRow>>>,
                                            idOf: (nat, nat) -> int, dateAdded: string, n: nat, m: nat)
    requires n <= m <= |parsed| && !ImportFiles(ps, parsed, idOf, dateAdded, n).1
    ensures ImportFiles(ps, parsed, idOf, dateAdded, m) == ImportFiles(ps, parsed, idOf, dateAdded, n)
    decreases m - n
  {
    if n < m {
      ImportFilesStops(ps, parsed, idOf, dateAdded, n, m - 1);
    }
  }
}
