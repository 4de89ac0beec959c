/** The dead-letter queue (events/dead_letter.py): bounded retries with backoff. */
module DeadLetter {
  import opened Sorting

  type EventId = nat
  type Time = int  // microseconds

  const MINUTE: Time := 60_000_000

  const MAX_RETRIES: nat := 5
  const BACKOFF_MINUTES: seq<int> := [1, 5, 15, 60, 240]
  const BATCH: nat := 50

  datatype Event = Event(retryCount: nat, nextRetryAt: Time, resolved: bool)

  type Queue = map<EventId, Event>

  /** One delivery attempt at an event, in a batch run at `at`. */
  datatype Attempt = Attempt(at: Time, delivered: bool)

  /** The delay after `retryCount` failures. */
  function Delay(retryCount: nat): Time {
    MINUTE * if retryCount < |BACKOFF_MINUTES| then BACKOFF_MINUTES[retryCount]
             else BACKOFF_MINUTES[|BACKOFF_MINUTES| - 1]
  }

  function Persist(q: Queue, id: EventId, now: Time): Queue {
    if id in q then q else q[id := Event(0, now + MINUTE * BACKOFF_MINUTES[0], false)]
  }

  predicate Due(q: Queue, id: EventId, now: Time) {
    id in q && !q[id].resolved && q[id].retryCount < MAX_RETRIES && q[id].nextRetryAt <= now
  }

  /** The rows the query may return: distinct due events, at most a batch of them,
      and fewer only when there are no others. */
  ghost predicate Selection(q: Queue, now: Time, ids: seq<EventId>) {
    && (forall id | id in ids :: Due(q, id, now))
    && Distinct(ids) && |ids| <= BATCH
    && (|ids| < BATCH ==> forall id | Due(q, id, now) :: id in ids)
  }

  function Retried(e: Event, delivered: bool, now: Time): Event {
    if delivered then e.(resolved := true)
    else e.(retryCount := e.retryCount + 1, nextRetryAt := now + Delay(e.retryCount + 1))
  }

  /** One batch: `up(id)` says whether the broker accepts the event. */
  function Retry(q: Queue, ids: seq<EventId>, up: EventId -> bool, now: Time): Queue {
    map id | id in q :: if id in ids then Retried(q[id], up(id), now) else q[id]
  }

  function Delivered(ids: seq<EventId>, up: EventId -> bool): nat {
    if ids == [] then 0 else Delivered(ids[..|ids| - 1], up) + if up(ids[|ids| - 1]) then 1 else 0
  }

  class DeadLetterQueue {
    var events: Queue

    constructor ()
      ensures events == map[]
    {
      events := map[];
    }

    method PersistFailedEvent(id: EventId, now: Time)
      modifies this
      ensures events == Persist(old(events), id, now)
    {
      if id !in events {
        events := events[id := Event(0, now + MINUTE * BACKOFF_MINUTES[0], false)];
      }
    }

    /** One scheduled run over the selected rows. */
    method RetryPendingEvents(ids: seq<EventId>, up: EventId -> bool, now: Time) returns (replayed: nat)
      requires Selection(events, now, ids)
      modifies this
      ensures events == Retry(old(events), ids, up, now)
      ensures replayed == |NewlyResolved(old(events), events)| <= 50
    {
      replayed := 0;
      ghost var before := events;
      assert forall id | id in ids :: id in before;
      RetryNone(events, up, now);
      for i := 0 to |ids|
        invariant events == Retry(before, ids[..i], up, now)
        invariant replayed == Delivered(ids[..i], up) <= i
      {
        assert ids[i] in ids && ids[i] in before;
        RetryNext(before, ids, i, up, now);
        ghost var retried := Retried(before[ids[i]], up(ids[i]), now);
        var event := events[ids[i]];
        if up(ids[i]) {
          event := event.(resolved := true);
          replayed := replayed + 1;
        } else {
          event := event.(retryCount := event.retryCount + 1);
          event := event.(nextRetryAt := now + Delay(event.retryCount));
        }
        assert event == retried;
        events := events[ids[i] := event];
      }
      assert ids[..|ids|] == ids;
      ResolvedCount(before, ids, up, now);
    }
  }

  lemma RetryNone(q: Queue, up: EventId -> bool, now: Time)
    ensures Retry(q, [], up, now) == q
  {
  }

  lemma RetryNext(q: Queue, ids: seq<EventId>, i: nat, up: EventId -> bool, now: Time)
    requires i < |ids| && ids[i] in q && Distinct(ids)
    ensures ids[i] in Retry(q, ids[..i], up, now) && Retry(q, ids[..i], up, now)[ids[i]] == q[ids[i]]
    ensures Retry(q, ids[..i + 1], up, now) ==
            Retry(q, ids[..i], up, now)[ids[i] := Retried(q[ids[i]], up(ids[i]), now)]
    ensures Delivered(ids[..i + 1], up) == Delivered(ids[..i], up) + if up(ids[i]) then 1 else 0
  {
    assert ids[..i + 1] == ids[..i] + [ids[i]] && ids[..i + 1][..i] == ids[..i];
  }

  function NewlyResolved(q: Queue, q': Queue): set<EventId> {
    set id | id in q && id in q' && !q[id].resolved && q'[id].resolved
  }

  function Accepted(ids: seq<EventId>, up: EventId -> bool): set<EventId> {
    set id | id in ids && up(id)
  }

  lemma AcceptedGrows(ids: seq<EventId>, id: EventId, up: EventId -> bool)
    requires id !in ids
    ensures id !in Accepted(ids, up)
    ensures Accepted(ids + [id], up) == Accepted(ids, up) + if up(id) then {id} else {}
  {
  }

  lemma {:induction false} DeliveredSet(ids: seq<EventId>, up: EventId -> bool)
    requires Distinct(ids)
    ensures Delivered(ids, up) == |Accepted(ids, up)|
  {
    if ids == [] {
      assert Accepted([], up) == {};
    } else {
      var before := ids[..|ids| - 1];
      DeliveredSet(before, up);
      AcceptedGrows(before, ids[|ids| - 1], up);
      assert ids == before + [ids[|ids| - 1]];
    }
  }

  /** The returned count is the number of events this batch resolved. */
  lemma ResolvedCount(q: Queue, ids: seq<EventId>, up: EventId -> bool, now: Time)
    requires Selection(q, now, ids)
    ensures Delivered(ids, up) == |NewlyResolved(q, Retry(q, ids, up, now))|
  {
    DeliveredSet(ids, up);
    assert NewlyResolved(q, Retry(q, ids, up, now)) == Accepted(ids, up);
  }

  // ----- runs -----

  datatype Act = Fail(id: EventId, now: Time) | Batch(ids: seq<EventId>, up: EventId -> bool, now: Time)

  function Do(q: Queue, a: Act): Queue {
    match a
    case Fail(id, now) => Persist(q, id, now)
    case Batch(ids, up, now) => Retry(q, ids, up, now)
  }

  function Run(acts: seq<Act>): Queue {
    if acts == [] then map[] else Do(Run(acts[..|acts| - 1]), acts[|acts| - 1])
  }

  /** Every batch is a selection the query could have returned, each failed publish
      is a new event, and the clock never runs backwards. */
  ghost predicate Scheduled(acts: seq<Act>) {
    acts != [] ==>
      var before, last := acts[..|acts| - 1], acts[|acts| - 1];
      && Scheduled(before)
      && (before != [] ==> before[|before| - 1].now <= last.now)
      && (last.Batch? ==> Selection(Run(before), last.now, last.ids))
      && (last.Fail? ==> last.id !in Run(before))
  }

  /** The attempts at one event, in order. */
  function Attempts(acts: seq<Act>, id: EventId): seq<Attempt> {
    if acts == [] then [] else
    var last := acts[|acts| - 1];
    Attempts(acts[..|acts| - 1], id) +
    if last.Batch? && id in last.ids then [Attempt(last.now, last.up(id))] else []
  }

  /** When the event was persisted. */
  function Created(acts: seq<Act>, id: EventId): Time {
    if acts == [] then 0
    else if acts[|acts| - 1].Fail? && acts[|acts| - 1].id == id then acts[|acts| - 1].now
    else Created(acts[..|acts| - 1], id)
  }

  /** The first `k` backoffs added up: 1, 6, 21, 81, 321 minutes. */
  function Waited(k: nat): Time {
    if k == 0 then 0 else Waited(k - 1) + Delay(k - 1)
  }

  /** How an event's row records its attempts so far. */
  ghost predicate Recorded(e: Event, attempts: seq<Attempt>, created: Time) {
    && e.retryCount <= MAX_RETRIES
    && e.retryCount == |attempts| - (if e.resolved then 1 else 0)
    && (e.resolved ==> attempts[|attempts| - 1].delivered && e.retryCount < MAX_RETRIES)
    && (forall k | 0 <= k < e.retryCount :: !attempts[k].delivered)
    && (forall k | 0 <= k < |attempts| :: attempts[k].at >= created + Waited(k + 1))
    && e.nextRetryAt >= created + Waited(e.retryCount + 1)
    && e.nextRetryAt == (if e.retryCount == 0 then created else attempts[e.retryCount - 1].at) + Delay(e.retryCount)
  }

  lemma RecordedAttempt(e: Event, attempts: seq<Attempt>, created: Time, now: Time, delivered: bool)
    requires Recorded(e, attempts, created) && !e.resolved && e.retryCount < MAX_RETRIES && e.nextRetryAt <= now
    ensures Recorded(Retried(e, delivered, now), attempts + [Attempt(now, delivered)], created)
  {
  }

  lemma BatchRecorded(q: Queue, ids: seq<EventId>, up: EventId -> bool, now: Time,
                      id: EventId, attempts: seq<Attempt>, created: Time)
    requires Selection(q, now, ids) && id in q && Recorded(q[id], attempts, created)
    ensures id in Retry(q, ids, up, now)
    ensures Recorded(Retry(q, ids, up, now)[id],
                     if id in ids then attempts + [Attempt(now, up(id))] else attempts, created)
  {
    if id in ids {
      assert Due(q, id, now);
      RecordedAttempt(q[id], attempts, created, now, up(id));
    }
  }

  lemma {:induction false} RunRecorded(acts: seq<Act>, id: EventId)
    requires Scheduled(acts)
    ensures id in Run(acts) ==> Recorded(Run(acts)[id], Attempts(acts, id), Created(acts, id))
    ensures id !in Run(acts) ==> Attempts(acts, id) == []
  {
    if acts != [] {
      var before, last := acts[..|acts| - 1], acts[|acts| - 1];
      RunRecorded(before, id);
      match last
      case Fail(other, now) =>
        if other == id { assert Attempts(acts, id) == []; }
      case Batch(ids, up, now) =>
        if id in Run(before) {
          BatchRecorded(Run(before), ids, up, now, id, Attempts(before, id), Created(before, id));
        }
        assert id in ids || Attempts(acts, id) == Attempts(before, id);
    }
  }

  /** At most five attempts, no sooner than the backoffs allow, and none after a delivery. */
  ghost predicate WithinBounds(attempts: seq<Attempt>, created: Time) {
    && |attempts| <= MAX_RETRIES
    && (forall k | 0 <= k < |attempts| - 1 :: !attempts[k].delivered)
    && (forall k | 0 <= k < |attempts| :: attempts[k].at >= created + Waited(k + 1))
  }

  predicate EndsDelivered(attempts: seq<Attempt>) {
    attempts != [] && attempts[|attempts| - 1].delivered
  }

  lemma RecordedWithinBounds(e: Event, attempts: seq<Attempt>, created: Time)
    requires Recorded(e, attempts, created)
    ensures WithinBounds(attempts, created) && (e.resolved <==> EndsDelivered(attempts))
  {
  }

  /** Over every run of batches an event is attempted at most five times, never again
      once delivered, and its k-th attempt comes no earlier than its creation plus
      the first k backoffs. */
  lemma {:induction false} AttemptsBounded(acts: seq<Act>, id: EventId)
    requires Scheduled(acts)
    ensures WithinBounds(Attempts(acts, id), Created(acts, id))
    ensures id in Run(acts) ==> (Run(acts)[id].resolved <==> EndsDelivered(Attempts(acts, id)))
  {
    RunRecorded(acts, id);
    if id in Run(acts) {
      RecordedWithinBounds(Run(acts)[id], Attempts(acts, id), Created(acts, id));
    }
  }

  /** The backoff schedule as the caller sees it; the table is never read past its end. */
  lemma BackoffSchedule()
    ensures Waited(1) == MINUTE && Waited(2) == 6 * MINUTE && Waited(3) == 21 * MINUTE
    ensures Waited(4) == 81 * MINUTE && Waited(5) == 321 * MINUTE
    ensures forall k: nat | k < MAX_RETRIES :: Delay(k) == MINUTE * BACKOFF_MINUTES[k]
  {
  }

  /** A publish of the event failed and was stored. */
  predicate Stored(acts: seq<Act>, id: EventId) {
    exists k | 0 <= k < |acts| :: acts[k].Fail? && acts[k].id == id
  }

  lemma {:induction false} StoredInRun(acts: seq<Act>, id: EventId)
    ensures Stored(acts, id) <==> id in Run(acts)
  {
    if acts != [] {
      var before := acts[..|acts| - 1];
      StoredInRun(before, id);
      assert forall k | 0 <= k < |before| :: before[k] == acts[k];
      if acts[|acts| - 1].Fail? && acts[|acts| - 1].id == id { assert Stored(acts, id); }
    }
  }

  /** When the event may be tried again: one minute after it was stored, and then 5,
      15, 60 and 240 minutes after its latest failed attempt. */
  function NextDue(attempts: seq<Attempt>, created: Time): Time
    requires |attempts| < MAX_RETRIES
  {
    if attempts == [] then created + MINUTE
    else attempts[|attempts| - 1].at + [5, 15, 60, 240][|attempts| - 1] * MINUTE
  }

  /** Over every run: a batch may pick an event exactly when it was stored, was not
      delivered yet, had fewer than five attempts, and its next time has come. */
  lemma {:induction false} DueExactly(acts: seq<Act>, id: EventId, now: Time)
    requires Scheduled(acts)
    ensures Due(Run(acts), id, now) <==>
            && Stored(acts, id)
            && |Attempts(acts, id)| < 5 && !EndsDelivered(Attempts(acts, id))
            && NextDue(Attempts(acts, id), Created(acts, id)) <= now
  {
    StoredInRun(acts, id);
    RunRecorded(acts, id);
    if id in Run(acts) {
      RecordedWithinBounds(Run(acts)[id], Attempts(acts, id), Created(acts, id));
    }
  }
}
