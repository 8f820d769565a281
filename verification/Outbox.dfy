/** The transactional outbox: app/db/outbox.py and the delivery loop of app/workflows/outbox.py.

    Every transaction is one step; OutboxRaces splits the one that records a publish. Any number of
    delivery workers may be anywhere in their batches, with leases that have long expired, and a worker
    may die between any two of its steps. */
module Outbox {
  import opened Arithmetic
  import opened Options

  type EventId = nat
  type Worker = nat

  datatype Key = Key(eventName: string, idempotencyKey: string)

  datatype Status = Pending | Publishing | Published | Failed

  datatype Event = Event(
    key: Key, payload: string, workspace: Option<nat>, createdAt: nat,
    status: Status, attempts: nat, availableAt: nat, lease: Option<nat>,
    publishedAt: Option<nat>, lastError: Option<string>)

  /** An event of a claimed batch, with the attempts that the worker's copy of it shows. */
  datatype Claimed = Claimed(id: EventId, attempts: nat)

  datatype Tally = Tally(claimed: nat, published: nat, retried: nat, failed: nat)

  /** A delivery call after its claim: the events still to deliver, and whether publishing the
      first of them has already succeeded or failed. */
  datatype Delivery = Delivery(at: nat, queue: seq<Claimed>, result: Option<bool>, tally: Tally)

  datatype State = State(maxAttempts: int, events: map<EventId, Event>, workers: map<Worker, Delivery>,
                         accepted: set<EventId>)

  datatype Step =
    | Enqueue(id: EventId, key: Key, payload: string, workspace: Option<nat>, availableAt: nat, now: nat)
    | Claim(worker: Worker, now: nat, limit: int, lease: int, workspace: Option<nat>, locked: set<EventId>)
    | Send(worker: Worker, ok: bool)
    | Record(worker: Worker)
    | Leave(worker: Worker)

  // ----- The claim -----

  /** The order of the claim: available_at, then created_at, then id. */
  predicate Before(events: map<EventId, Event>, a: EventId, b: EventId)
    requires a in events && b in events
  {
    var x, y := events[a], events[b];
    || x.availableAt < y.availableAt
    || (x.availableAt == y.availableAt && (x.createdAt < y.createdAt || (x.createdAt == y.createdAt && a < b)))
  }

  predicate IsEligible(e: Event, now: nat, workspace: Option<nat>) {
    && e.availableAt <= now
    && (e.status == Pending || (e.status == Publishing && e.lease.Some? && e.lease.value <= now))
    && (workspace.Some? ==> e.workspace == workspace)
  }

  /** The rows the claim's query sees: those that no concurrent transaction holds. */
  function Eligible(events: map<EventId, Event>, now: nat, workspace: Option<nat>, locked: set<EventId>): set<EventId> {
    set id | id in events && id !in locked && IsEligible(events[id], now, workspace)
  }

  predicate IsLeast(events: map<EventId, Event>, ids: set<EventId>, m: EventId)
    requires ids <= events.Keys
  {
    m in ids && forall x :: x in ids && x != m ==> Before(events, m, x)
  }

  lemma {:induction false} LeastExists(events: map<EventId, Event>, ids: set<EventId>)
    requires ids != {} && ids <= events.Keys
    ensures exists m :: IsLeast(events, ids, m)
  {
    var x :| x in ids;
    var rest := ids - {x};
    assert forall y :: y in ids ==> y == x || y in rest;
    if rest == {} {
      assert IsLeast(events, ids, x);
    } else {
      LeastExists(events, rest);
      var m :| IsLeast(events, rest, m);
      if Before(events, x, m) {
        forall y | y in ids && y != x
          ensures Before(events, x, y)
        {
          assert y in rest && (y == m || Before(events, m, y));
        }
        assert IsLeast(events, ids, x);
      } else {
        assert IsLeast(events, ids, m);
      }
    }
  }

  function Least(events: map<EventId, Event>, ids: set<EventId>): EventId
    requires ids != {} && ids <= events.Keys
  {
    LeastExists(events, ids);
    var m :| m in ids && IsLeast(events, ids, m);
    m
  }

  /** ORDER BY ... LIMIT. */
  function FirstOf(events: map<EventId, Event>, ids: set<EventId>, limit: nat): seq<EventId>
    requires ids <= events.Keys
    decreases limit
  {
    if limit == 0 || ids == {} then []
    else
      var m := Least(events, ids);
      [m] + FirstOf(events, ids - {m}, limit - 1)
  }

  function BatchOf(events: map<EventId, Event>, now: nat, limit: int, lease: int, workspace: Option<nat>,
                   locked: set<EventId>)
    : seq<EventId>
  {
    if limit < 1 || lease <= 0 then [] else FirstOf(events, Eligible(events, now, workspace, locked), limit)
  }

  function Batch(events: map<EventId, Event>, step: Step): seq<EventId>
    requires step.Claim?
  {
    BatchOf(events, step.now, step.limit, step.lease, step.workspace, step.locked)
  }

  function Leased(events: map<EventId, Event>, batch: seq<EventId>, until: nat): map<EventId, Event> {
    map id | id in events ::
      if id in batch
      then events[id].(status := Publishing, lease := Some(until), attempts := events[id].attempts + 1)
      else events[id]
  }

  function Copies(events: map<EventId, Event>, batch: seq<EventId>): seq<Claimed>
    requires forall id :: id in batch ==> id in events
  {
    seq(|batch|, i requires 0 <= i < |batch| => Claimed(batch[i], events[batch[i]].attempts))
  }

  // ----- The other transactions -----

  function Power2(n: nat): nat {
    if n == 0 then 1 else 2 * Power2(n - 1)
  }

  /** The backoff in seconds after the attempt that a worker's copy shows. */
  function Delay(attempts: nat): nat {
    Min(300, Power2(Min(attempts, 8)))
  }

  function MarkedPublished(e: Event, at: nat): Event {
    e.(status := Published, publishedAt := Some(at), lease := None, lastError := None)
  }

  function Released(e: Event, availableAt: nat, maxAttempts: int): Event {
    e.(status := if e.attempts >= maxAttempts then Failed else Pending,
       availableAt := availableAt, lease := None, lastError := Some("transport"))
  }

  /** The transaction after a publish: the event's new row, or None if it raises ValueError. */
  function Recorded(s: State, d: Delivery): Option<Event>
    requires d.queue != [] && d.result.Some?
  {
    var id := d.queue[0].id;
    if id !in s.events || s.events[id].status != Publishing then None
    else if d.result.value then Some(MarkedPublished(s.events[id], d.at))
    else if s.maxAttempts < 1 then None
    else Some(Released(s.events[id], d.at + Delay(d.queue[0].attempts), s.maxAttempts))
  }

  function Counted(tally: Tally, status: Status): Tally {
    match status
    case Published => tally.(published := tally.published + 1)
    case Failed => tally.(failed := tally.failed + 1)
    case _ => tally.(retried := tally.retried + 1)
  }

  predicate Owned(events: map<EventId, Event>, key: Key) {
    exists id :: id in events && events[id].key == key
  }

  function EnqueuedEvent(step: Step): Event
    requires step.Enqueue?
  {
    Event(step.key, step.payload, step.workspace, step.now, Pending, 0, step.availableAt, None, None, None)
  }

  function Apply(s: State, step: Step): State {
    match step
    case Enqueue(id, key, _, _, _, _) =>
      // An id that is taken violates the primary key, and the caller's transaction rolls back.
      if Owned(s.events, key) || id in s.events then s
      else s.(events := s.events[id := EnqueuedEvent(step)])
    case Claim(w, now, _, lease, _, _) =>
      if w in s.workers || step.limit < 1 || lease <= 0 then s
      else
        var batch := Batch(s.events, step);
        var events := Leased(s.events, batch, now + lease);
        BatchIsKnown(s.events, step);
        s.(events := events,
           workers := s.workers[w := Delivery(now, Copies(events, batch), None, Tally(|batch|, 0, 0, 0))])
    case Send(w, ok) =>
      if w !in s.workers || s.workers[w].queue == [] || s.workers[w].result.Some? then s
      else
        s.(workers := s.workers[w := s.workers[w].(result := Some(ok))],
           accepted := if ok then s.accepted + {s.workers[w].queue[0].id} else s.accepted)
    case Record(w) =>
      if w !in s.workers || s.workers[w].queue == [] || s.workers[w].result.None? then s
      else
        var d := s.workers[w];
        var row := Recorded(s, d);
        if row.None? then s.(workers := s.workers - {w})
        else
          s.(events := s.events[d.queue[0].id := row.value],
             workers := s.workers[w := d.(queue := d.queue[1..], result := None,
                                          tally := Counted(d.tally, row.value.status))])
    case Leave(w) =>
      s.(workers := s.workers - {w})
  }

  lemma {:induction false} FirstOfIsKnown(events: map<EventId, Event>, ids: set<EventId>, limit: nat)
    requires ids <= events.Keys
    ensures forall id :: id in FirstOf(events, ids, limit) ==> id in ids
    decreases limit
  {
    if limit > 0 && ids != {} {
      FirstOfIsKnown(events, ids - {Least(events, ids)}, limit - 1);
    }
  }

  lemma BatchIsKnown(events: map<EventId, Event>, step: Step)
    requires step.Claim?
    ensures forall id :: id in Batch(events, step) ==> id in Eligible(events, step.now, step.workspace, step.locked)
  {
    if step.limit >= 1 {
      FirstOfIsKnown(events, Eligible(events, step.now, step.workspace, step.locked), step.limit);
    }
  }

  function Run(s: State, steps: seq<Step>): State
    decreases |steps|
  {
    if steps == [] then s else Run(Apply(s, steps[0]), steps[1..])
  }

  ghost predicate Init(s: State) {
    s.events == map[] && s.workers == map[] && s.accepted == {}
  }

  // ----- What a claim returns -----

  /** No repeats; as many as the limit and the eligible rows allow; in order; and nothing that is
      left out comes before anything that is taken. */
  ghost predicate TakesTheFirst(events: map<EventId, Event>, ids: set<EventId>, limit: nat, batch: seq<EventId>)
    requires ids <= events.Keys
  {
    && (forall i :: 0 <= i < |batch| ==> batch[i] in ids)
    && |batch| == Min(limit, |ids|)
    && (forall i, j :: 0 <= i < j < |batch| ==> batch[i] != batch[j] && Before(events, batch[i], batch[j]))
    && (forall i, x :: 0 <= i < |batch| && x in ids && x !in batch ==> Before(events, batch[i], x))
  }

  lemma {:induction false} FirstOfTakesTheFirst(events: map<EventId, Event>, ids: set<EventId>, limit: nat)
    requires ids <= events.Keys
    ensures TakesTheFirst(events, ids, limit, FirstOf(events, ids, limit))
    decreases limit
  {
    if limit > 0 && ids != {} {
      var m := Least(events, ids);
      assert IsLeast(events, ids, m);
      FirstOfTakesTheFirst(events, ids - {m}, limit - 1);
      assert |ids - {m}| == |ids| - 1;
    }
  }

  /** The claim returns exactly the first min(limit, eligible) unlocked events in claim order. */
  lemma ClaimTakesTheFirst(s: State, step: Step)
    requires step.Claim? && step.limit >= 1 && step.lease > 0
    ensures TakesTheFirst(s.events, Eligible(s.events, step.now, step.workspace, step.locked), step.limit,
                          Batch(s.events, step))
  {
    FirstOfTakesTheFirst(s.events, Eligible(s.events, step.now, step.workspace, step.locked), step.limit);
  }

  lemma TheOnlyEventIsClaimed(events: map<EventId, Event>, id: EventId, now: nat)
    requires events.Keys == {id} && IsEligible(events[id], now, None)
    ensures BatchOf(events, now, 1, 120, None, {}) == [id]
  {
    var ids := Eligible(events, now, None, {});
    assert ids == {id};
    FirstOfTakesTheFirst(events, ids, 1);
  }

  lemma TheOnlyCopy(events: map<EventId, Event>, id: EventId)
    requires id in events
    ensures Copies(events, [id]) == [Claimed(id, events[id].attempts)]
  {
  }
}
