/**
 * `getQueueLeads`: which leads the call queue shows. The default queue holds the
 * leads that are due for a call; a custom queue holds the leads whose ids its
 * `leadIds` list names.
 */
module Queue {
  import opened Wrappers
  import opened Seqs
  import opened Records

  /** `currentQueue`: the string 'default' or the id of a custom queue. */
  datatype QueueSel = Default | Custom(id: int)

  /** Milliseconds in a day, `24 * 60 * 60 * 1000`. */
  const DayMs: int := 86400000

  /** The cut-off `Date.now() - callQueueDays * DayMs`: calls at or after it are recent. */
  function Threshold(now: Timestamp, callQueueDays: int): Timestamp {
    now - callQueueDays * DayMs
  }

  /** Never called, or last called strictly before the threshold. */
  predicate DueForCall(l: Lead, now: Timestamp, callQueueDays: int) {
    l.data.lastCalled.None? || l.data.lastCalled.value < Threshold(now, callQueueDays)
  }

  /** `customQueues.find(q => q.id == id)`: the first queue with that id. */
  function FindQueue(queues: seq<CustomQueue>, id: int): (r: Option<CustomQueue>)
    ensures r.None? <==> forall k :: 0 <= k < |queues| ==> queues[k].id != id
    ensures r.Some? ==> r.value in queues && r.value.id == id
  {
    if queues == [] then None
    else if queues[0].id == id then Some(queues[0])
    else FindQueue(queues[1..], id)
  }

  /** The queue found is the first one with the id: every queue before it has another id. */
  lemma {:induction false} FindQueueFirst(queues: seq<CustomQueue>, id: int)
    requires FindQueue(queues, id).Some?
    ensures exists k :: 0 <= k < |queues| && queues[k] == FindQueue(queues, id).value &&
                        forall m :: 0 <= m < k ==> queues[m].id != id
  {
    if queues[0].id == id {
      assert queues[0] == FindQueue(queues, id).value;
    } else {
      var t := queues[1..];
      FindQueueFirst(t, id);
      var k :| 0 <= k < |t| && t[k] == FindQueue(t, id).value &&
               forall m :: 0 <= m < k ==> t[m].id != id;
      assert queues[k + 1] == t[k];
      forall m | 0 <= m < k + 1 ensures queues[m].id != id {
        if m > 0 { assert queues[m] == t[m - 1]; }
      }
    }
  }

  /** The queue's membership test: `leadIds.includes(lead.id)`. */
  predicate InQueue(q: CustomQueue, l: Lead) {
    l.id in q.leadIds
  }

  /**
   * `getQueueLeads(leads)` for the selected queue at time `now`. Default queue: a
   * lead is listed exactly when it is in the store and due for a call. Custom
   * queue: an id no queue has lists nothing; otherwise a lead is listed exactly
   * when it is in the store and its id is in the first matching queue's `leadIds`,
   * so an id with no lead behind it lists nothing and call times play no part.
   */
  function GetQueueLeads(leads: seq<Lead>, sel: QueueSel, queues: seq<CustomQueue>,
                         callQueueDays: int, now: Timestamp): (r: seq<Lead>)
    ensures sel.Default? ==>
      forall l :: l in r <==> l in leads && DueForCall(l, now, callQueueDays)
    ensures sel.Custom? && FindQueue(queues, sel.id).None? ==> r == []
    ensures sel.Custom? && FindQueue(queues, sel.id).Some? ==>
      forall l :: l in r <==> l in leads && l.id in FindQueue(queues, sel.id).value.leadIds
  {
    match sel
    case Default => Filter(leads, l => DueForCall(l, now, callQueueDays))
    case Custom(id) =>
      match FindQueue(queues, id)
      case None => []
      case Some(q) => Filter(leads, l => InQueue(q, l))
  }

  /** The threshold is exclusive: a lead last called exactly at it is not due. */
  lemma ThresholdExcluded(leads: seq<Lead>, queues: seq<CustomQueue>, days: int,
                          now: Timestamp, l: Lead)
    requires l.data.lastCalled == Some(now - days * DayMs)
    ensures l !in GetQueueLeads(leads, Default, queues, days, now)
  {
  }

  /**
   * Both kinds of queue keep store order and never repeat a lead: the result is a
   * subsequence of the store, each lead in it as often as in the store.
   */
  lemma {:induction false} QueueIsSubsequence(leads: seq<Lead>, sel: QueueSel,
                                            queues: seq<CustomQueue>, days: int, now: Timestamp)
    ensures var r := GetQueueLeads(leads, sel, queues, days, now);
      Subsequence(r, leads) &&
      forall l :: l in r ==> multiset(r)[l] == multiset(leads)[l]
  {
    var r := GetQueueLeads(leads, sel, queues, days, now);
    match sel
    case Default =>
      var p := l => DueForCall(l, now, days);
      FilterSubsequence(leads, p);
      forall l | l in r ensures multiset(r)[l] == multiset(leads)[l] {
        FilterCount(leads, p, l);
      }
    case Custom(id) =>
      match FindQueue(queues, id)
      case None =>
      case Some(q) =>
        var p := l => InQueue(q, l);
        FilterSubsequence(leads, p);
        forall l | l in r ensures multiset(r)[l] == multiset(leads)[l] {
          FilterCount(leads, p, l);
        }
  }

  /** The default queue is the store filtered by any test that agrees with being due. */
  lemma DefaultQueueIs(leads: seq<Lead>, queues: seq<CustomQueue>, days: int, now: Timestamp,
                       p: Lead -> bool)
    requires forall l :: p(l) == DueForCall(l, now, days)
    ensures GetQueueLeads(leads, Default, queues, days, now) == Filter(leads, p)
  {
    FilterExt(leads, l => DueForCall(l, now, days), p);
  }
}
