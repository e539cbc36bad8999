/** The record kinds the CRM keeps: leads, custom queues, call logs and prospects. */
module Records {
  import opened Wrappers

  /** Milliseconds since the epoch, as `Date.now()` returns them. */
  type Timestamp = int

  /** The meeting block `saveCallNotes` attaches when the outcome is `meeting_set`. */
  datatype Meeting = Meeting(
    date: string, time: string, notes: string, googleCalendarLink: string,
    status: string, createdAt: string)

  /**
   * A lead's fields. An absent JavaScript property is the empty string here; the
   * nullable `lastCalled`, `callOutcome` and `meetingData` are options.
   */
  datatype LeadData = LeadData(
    company: string, contact: string, email: string, phone: string,
    industry: string, state: string, website: string,
    notes: string, comments: string, dateAdded: string,
    lastCalled: Option<Timestamp>, callOutcome: Option<string>,
    meetingData: Option<Meeting>)

  /** A lead as the `leads` object store holds it: its fields under a store-assigned key. */
  datatype Lead = Lead(id: int, data: LeadData)

  datatype CustomQueue = CustomQueue(id: int, name: string, description: string, leadIds: seq<int>)

  datatype CallLog = CallLog(
    id: string, leadId: int, leadName: string, outcome: string, notes: string,
    followUpDate: Option<string>, nextAction: string, timestamp: string, duration: int)

  datatype Stage = Unreviewed | Finalized | Unqualified

  datatype Prospect = Prospect(
    id: int, company: string, website: string, state: string, service: string,
    industry: string, revenue: string, employees: string, contact: string,
    email: string, phone: string, notes: string, decision: string,
    source: string, status: string, reason: string,
    stage: Stage, dateAdded: string)

  /** The six outcomes the call forms offer. */
  const CallOutcomes: seq<string> :=
    ["meeting_set", "receptionist", "not_interested", "voicemail", "spoke_w_contact", "no_answer"]
}
