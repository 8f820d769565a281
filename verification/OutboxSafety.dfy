/** What the outbox keeps over every run, late workers and crashes included, as long as each recording
    transaction is done before another touches its row. The row is read without a lock, so that is not
    guaranteed: OutboxRaces shows which of this survives overlapping records, and that the runs here are
    exactly those without overlap. */
module OutboxSafety {
  import opened Options
  import opened Outbox
  import Idempotency

  ghost predicate EventInv(s: State, id: EventId)
    requires id in s.events
  {
    var e := s.events[id];
    && (e.status == Publishing <==> e.lease.Some?)
    && (e.status == Pending ==> e.attempts == 0 || e.attempts < s.maxAttempts)
    && (e.status == Failed ==> e.attempts >= s.maxAttempts >= 1)
    && (e.status == Published ==> id in s.accepted)
    && (e.status == Published <==> e.publishedAt.Some?)
    && (e.status != Pending ==> e.attempts >= 1)
  }

  ghost predicate WorkerInv(s: State, w: Worker)
    requires w in s.workers
  {
    var d := s.workers[w];
    && (d.result == Some(true) ==> d.queue != [] && d.queue[0].id in s.accepted)
    && d.tally.claimed == d.tally.published + d.tally.retried + d.tally.failed + |d.queue|
    && (forall i :: 0 <= i < |d.queue| ==>
        d.queue[i].id in s.events && 1 <= d.queue[i].attempts <= s.events[d.queue[i].id].attempts)
    && (forall i, j :: 0 <= i < j < |d.queue| ==> d.queue[i].id != d.queue[j].id)
  }

  ghost predicate Inv(s: State) {
    && (forall id :: id in s.events ==> EventInv(s, id))
    && (forall w :: w in s.workers ==> WorkerInv(s, w))
    && KeysAreUnique(s.events)
  }

  ghost predicate KeysAreUnique(events: map<EventId, Event>) {
    forall a, b :: a in events && b in events && events[a].key == events[b].key ==> a == b
  }

  /** What no step takes back. */
  ghost predicate Continues(was: Event, e: Event) {
    && e.key == was.key && e.payload == was.payload && e.workspace == was.workspace && e.createdAt == was.createdAt
    && e.attempts >= was.attempts
    && (was.status in {Published, Failed} ==> e == was)
  }

  ghost predicate EventsContinue(s: State, t: State) {
    && t.maxAttempts == s.maxAttempts && s.accepted <= t.accepted
    && (forall id :: id in s.events ==> id in t.events && Continues(s.events[id], t.events[id]))
  }

  /** A worker that a step leaves alone is not disturbed by what the step does to events. */
  lemma OtherWorker(s: State, t: State, w: Worker)
    requires w in s.workers && WorkerInv(s, w) && EventsContinue(s, t)
    requires w in t.workers && t.workers[w] == s.workers[w]
    ensures WorkerInv(t, w)
  {
  }

  lemma WorkerOf(s: State, w: Worker)
    requires Inv(s) && w in s.workers
    ensures WorkerInv(s, w)
  {
  }

  lemma ClaimKeepsEvents(s: State, step: Step)
    requires Inv(s) && step.Claim?
    ensures EventsContinue(s, Apply(s, step))
    ensures forall id :: id in Apply(s, step).events ==> id in s.events && EventInv(Apply(s, step), id)
  {
    var t := Apply(s, step);
    BatchIsKnown(s.events, step);
    hide Batch;
    forall id | id in t.events
      ensures id in s.events && EventInv(t, id)
    {
      assert EventInv(s, id);
    }
  }

  lemma ClaimKeepsWorkers(s: State, step: Step)
    requires Inv(s) && step.Claim?
    ensures forall w :: w in Apply(s, step).workers ==> WorkerInv(Apply(s, step), w)
  {
    var t := Apply(s, step);
    if t != s {
      ClaimKeepsEvents(s, step);
      BatchIsKnown(s.events, step);
      FirstOfTakesTheFirst(s.events, Eligible(s.events, step.now, step.workspace, step.locked), step.limit);
      hide FirstOf, Inv, EventInv;
      assert WorkerInv(t, step.worker);
      hide Batch;
      forall w | w in t.workers
        ensures WorkerInv(t, w)
      {
        if w != step.worker {
          WorkerOf(s, w);
          OtherWorker(s, t, w);
        }
      }
    }
  }

  lemma RecordKeepsEvents(s: State, w: Worker)
    requires Inv(s)
    ensures EventsContinue(s, Apply(s, Record(w)))
    ensures forall id :: id in Apply(s, Record(w)).events ==> id in s.events && EventInv(Apply(s, Record(w)), id)
  {
    var t := Apply(s, Record(w));
    if w in s.workers { assert WorkerInv(s, w); }
    forall id | id in t.events
      ensures id in s.events && EventInv(t, id)
    {
      assert EventInv(s, id);
    }
  }

  lemma RecordKeepsWorkers(s: State, w: Worker)
    requires Inv(s)
    ensures forall v :: v in Apply(s, Record(w)).workers ==> WorkerInv(Apply(s, Record(w)), v)
  {
    var t := Apply(s, Record(w));
    RecordKeepsEvents(s, w);
    forall v | v in t.workers
      ensures WorkerInv(t, v)
    {
      assert WorkerInv(s, v);
      hide Inv, EventInv;
      if v != w { OtherWorker(s, t, v); }
    }
  }

  lemma OtherStepsKeepEvents(s: State, step: Step)
    requires Inv(s) && !step.Claim? && !step.Record?
    ensures EventsContinue(s, Apply(s, step))
    ensures forall id :: id in Apply(s, step).events ==> EventInv(Apply(s, step), id)
    ensures KeysAreUnique(Apply(s, step).events)
  {
    var t := Apply(s, step);
    hide WorkerInv;
    forall id | id in t.events
      ensures EventInv(t, id)
    {
      if id in s.events { assert EventInv(s, id); }
    }
  }

  lemma OtherStepsKeepWorkers(s: State, step: Step)
    requires Inv(s) && !step.Claim? && !step.Record?
    ensures forall w :: w in Apply(s, step).workers ==> WorkerInv(Apply(s, step), w)
  {
    var t := Apply(s, step);
    OtherStepsKeepEvents(s, step);
    forall w | w in t.workers
      ensures WorkerInv(t, w)
    {
      WorkerOf(s, w);
      hide Inv, EventInv;
      if t.workers[w] == s.workers[w] { OtherWorker(s, t, w); }
    }
  }

  lemma ApplyKeepsInv(s: State, step: Step)
    requires Inv(s)
    ensures Inv(Apply(s, step)) && EventsContinue(s, Apply(s, step))
  {
    if step.Claim? {
      ClaimKeepsEvents(s, step);
      ClaimKeepsWorkers(s, step);
      hide Apply, EventInv, WorkerInv;
    } else if step.Record? {
      RecordKeepsEvents(s, step.worker);
      RecordKeepsWorkers(s, step.worker);
      hide Apply, EventInv, WorkerInv;
    } else {
      OtherStepsKeepEvents(s, step);
      OtherStepsKeepWorkers(s, step);
      hide Apply, EventInv, WorkerInv;
    }
  }

  lemma {:induction false} RunKeepsInv(s: State, steps: seq<Step>)
    requires Inv(s)
    ensures Inv(Run(s, steps)) && EventsContinue(s, Run(s, steps))
    decreases |steps|
  {
    if steps != [] {
      ApplyKeepsInv(s, steps[0]);
      RunKeepsInv(Apply(s, steps[0]), steps[1..]);
      hide Inv, Apply;
    }
  }

  // ----- The results -----

  /** Over every run with serial records: a lease is present exactly while publishing; a pending event
      has attempts left, a failed one has none; published means that some publish succeeded. */
  lemma EventsStayConsistent(s: State, steps: seq<Step>, id: EventId)
    requires Init(s) && id in Run(s, steps).events
    ensures
      var t := Run(s, steps);
      var e := t.events[id];
      && (e.lease.Some? <==> e.status == Publishing)
      && (e.status == Pending ==> e.attempts == 0 || e.attempts < s.maxAttempts)
      && (e.status == Failed ==> e.attempts >= s.maxAttempts)
      && (e.status == Published ==> id in t.accepted)
      && (e.publishedAt.Some? <==> e.status == Published)
  {
    RunKeepsInv(s, steps);
    assert EventInv(Run(s, steps), id);
  }

  /** With serial records published and failed are absorbing: not a field of the row changes again. No
      step ever changes what an event is about or takes back an attempt. */
  lemma TerminalEventsNeverChange(s: State, steps: seq<Step>, id: EventId)
    requires Inv(s) && id in s.events
    ensures id in Run(s, steps).events && Continues(s.events[id], Run(s, steps).events[id])
  {
    RunKeepsInv(s, steps);
  }

  /** A delivery call that raises nothing, and so reaches the end of its batch, reports
      claimed = published + retried + failed. */
  lemma ReportAddsUp(s: State, steps: seq<Step>, w: Worker)
    requires Init(s) && w in Run(s, steps).workers && Run(s, steps).workers[w].queue == []
    ensures
      var tally := Run(s, steps).workers[w].tally;
      tally.claimed == tally.published + tally.retried + tally.failed
  {
    RunKeepsInv(s, steps);
    assert WorkerInv(Run(s, steps), w);
  }

  // ----- Enqueueing -----

  /** The table as callers of `enqueue_outbox_event` see it: what is stored under each key. */
  ghost predicate Indexes(index: map<Key, string>, events: map<EventId, Event>) {
    && (forall id :: id in events ==> events[id].key in index && index[events[id].key] == events[id].payload)
    && (forall key :: key in index ==> Owned(events, key))
  }

  /** The enqueue, if the step is one and its event id does not collide. */
  function RequestOf(s: State, step: Step): seq<Idempotency.Request<Key, string>> {
    if step.Enqueue? && (step.id !in s.events || Owned(s.events, step.key))
    then [Idempotency.Request(step.key, step.payload)]
    else []
  }

  /** The enqueues of a run, in order. */
  function Requests(s: State, steps: seq<Step>): seq<Idempotency.Request<Key, string>>
    decreases |steps|
  {
    if steps == [] then []
    else
      var before := steps[..|steps| - 1];
      Requests(s, before) + RequestOf(Run(s, before), steps[|steps| - 1])
  }

  lemma {:induction false} RunLast(s: State, steps: seq<Step>, last: Step)
    ensures Run(s, steps + [last]) == Apply(Run(s, steps), last)
    decreases |steps|
  {
    hide Apply;
    if steps == [] {
      assert Run(s, [last]) == Run(Apply(s, last), [last][1..]);
    } else {
      RunLast(Apply(s, steps[0]), steps[1..], last);
      assert (steps + [last])[1..] == steps[1..] + [last];
    }
  }

  lemma NoOtherEvents(s: State, step: Step)
    requires Inv(s) && !step.Enqueue?
    ensures Apply(s, step).events.Keys == s.events.Keys
  {
    ApplyKeepsInv(s, step);
    if step.Claim? {
      ClaimKeepsEvents(s, step);
      hide Apply, Inv, EventInv;
    } else if step.Record? {
      RecordKeepsEvents(s, step.worker);
      hide Apply, Inv, EventInv;
    }
  }

  lemma IndexSurvives(index: map<Key, string>, s: State, t: State)
    requires Indexes(index, s.events) && EventsContinue(s, t) && t.events.Keys == s.events.Keys
    ensures Indexes(index, t.events)
  {
    forall key | key in index
      ensures Owned(t.events, key)
    {
      var id :| id in s.events && s.events[id].key == key;
      assert id in t.events && t.events[id].key == key;
    }
  }

  lemma EnqueueIndexes(index: map<Key, string>, s: State, step: Step)
    requires Indexes(index, s.events) && step.Enqueue? && (step.id !in s.events || Owned(s.events, step.key))
    ensures Indexes(Idempotency.Inserted(index, step.key, step.payload), Apply(s, step).events)
  {
    var t := Apply(s, step);
    if Owned(s.events, step.key) {
      assert step.key in index;
    } else {
      assert t.events[step.id].key == step.key;
      forall key | key in index
        ensures Owned(t.events, key)
      {
        var id :| id in s.events && s.events[id].key == key;
        assert t.events[id].key == key;
      }
    }
  }

  lemma StepRefinesInsertOrReplay(requests: seq<Idempotency.Request<Key, string>>, s: State, step: Step)
    requires Inv(s) && Indexes(Idempotency.RowsAfter(requests), s.events)
    ensures Indexes(Idempotency.RowsAfter(requests + RequestOf(s, step)), Apply(s, step).events)
  {
    if !step.Enqueue? {
      NoOtherEvents(s, step);
      ApplyKeepsInv(s, step);
      IndexSurvives(Idempotency.RowsAfter(requests), s, Apply(s, step));
      assert requests + [] == requests;
      hide Apply, Inv, Indexes;
    } else if step.id !in s.events || Owned(s.events, step.key) {
      EnqueueIndexes(Idempotency.RowsAfter(requests), s, step);
      assert (requests + RequestOf(s, step))[..|requests|] == requests;
      hide Apply, Inv, Indexes, Idempotency.Inserted;
    } else {
      assert requests + [] == requests;
    }
  }

  /** Whatever else happens between them, the enqueues of a run refine the table of
      `insert_or_replay`: each key keeps the payload it was first given. */
  lemma {:induction false} EnqueueRefinesInsertOrReplay(s: State, steps: seq<Step>)
    requires Init(s)
    ensures Indexes(Idempotency.RowsAfter(Requests(s, steps)), Run(s, steps).events)
    decreases |steps|
  {
    if steps != [] {
      assert Inv(s);
      hide Run, Apply, Inv, Indexes, Idempotency.RowsAfter, RequestOf;
      var before, last := steps[..|steps| - 1], steps[|steps| - 1];
      assert steps == before + [last];
      EnqueueRefinesInsertOrReplay(s, before);
      RunLast(s, before, last);
      RunKeepsInv(s, before);
      StepRefinesInsertOrReplay(Requests(s, before), Run(s, before), last);
    }
  }
}
