/** The outbox table with the primitives of app/db/outbox.py, and the delivery loop of
    app/workflows/outbox.py running against it while other workers interfere. */
module OutboxDelivery {
  import opened Arithmetic
  import opened Options
  import opened Outbox

  class OutboxTable {
    var events: map<EventId, Event>
    // Where the delivery calls stand, and which events some publish has succeeded for.
    var workers: map<Worker, Delivery>
    var accepted: set<EventId>
    const maxAttempts: int

    function Abs(): State
      reads this
    {
      State(maxAttempts, events, workers, accepted)
    }

    constructor (maxAttempts: int)
      ensures Init(Abs()) && this.maxAttempts == maxAttempts
    {
      this.maxAttempts := maxAttempts;
      events, workers, accepted := map[], map[], {};
    }

    method EnqueueEvent(id: EventId, key: Key, payload: string, workspace: Option<nat>, availableAt: nat, now: nat)
      returns (stored: Option<EventId>, inserted: bool)
      modifies this
      ensures Abs() == Apply(old(Abs()), Enqueue(id, key, payload, workspace, availableAt, now))
      ensures inserted <==> !Owned(old(events), key) && id !in old(events)
      ensures stored.Some? ==> stored.value in events && events[stored.value].key == key
      ensures stored.None? <==> !Owned(old(events), key) && id in old(events)
    {
      inserted := false;
      if Owned(events, key) {
        var owner :| owner in events && events[owner].key == key;
        stored := Some(owner);
      } else if id in events {
        stored := None;
      } else {
        events := events[id := Event(key, payload, workspace, now, Pending, 0, availableAt, None, None, None)];
        stored, inserted := Some(id), true;
      }
    }

    /** Lease a batch; None is the ValueError for a limit or a duration that is not positive. */
    method ClaimEvents(now: nat, limit: int, lease: int, workspace: Option<nat>, locked: set<EventId>)
      returns (claimed: Option<seq<Claimed>>)
      modifies this`events
      ensures claimed.None? <==> limit < 1 || lease <= 0
      ensures claimed.None? ==> events == old(events)
      ensures
        var batch := BatchOf(old(events), now, limit, lease, workspace, locked);
        claimed.Some? ==>
          && events == Leased(old(events), batch, now + lease)
          && (forall id :: id in batch ==> id in events)
          && claimed.value == Copies(events, batch)
    {
      if limit < 1 || lease <= 0 {
        return None;
      }
      var ids := FirstOf(events, Eligible(events, now, workspace, locked), limit);
      FirstOfTakesTheFirst(events, Eligible(events, now, workspace, locked), limit);
      var i := 0;
      while i < |ids|
        invariant 0 <= i <= |ids|
        invariant events == Leased(old(events), ids[..i], now + lease)
      {
        var event := events[ids[i]];
        assert ids[i] !in ids[..i];
        events := events[ids[i] := event.(status := Publishing, lease := Some(now + lease),
                                          attempts := event.attempts + 1)];
        assert ids[..i + 1] == ids[..i] + [ids[i]];
        i := i + 1;
      }
      assert ids[..|ids|] == ids;
      claimed := Some(Copies(events, ids));
    }

    /** None is the ValueError for an event that is not publishing. */
    method MarkPublished(id: EventId, at: nat) returns (marked: Option<Event>)
      modifies this`events
      ensures marked.Some? <==> id in old(events) && old(events)[id].status == Publishing
      ensures marked.Some? ==>
        marked == Some(MarkedPublished(old(events)[id], at)) && events == old(events)[id := marked.value]
      ensures marked.None? ==> events == old(events)
    {
      if id !in events || events[id].status != Publishing {
        return None;
      }
      var event := events[id].(status := Published, publishedAt := Some(at), lease := None, lastError := None);
      events := events[id := event];
      return Some(event);
    }

    method ReleaseForRetry(id: EventId, availableAt: nat, maxAttempts: int) returns (released: Option<Event>)
      modifies this`events
      ensures released.Some? <==> maxAttempts >= 1 && id in old(events) && old(events)[id].status == Publishing
      ensures released.Some? ==>
        released == Some(Released(old(events)[id], availableAt, maxAttempts))
            && events == old(events)[id := released.value]
      ensures released.None? ==> events == old(events)
    {
      if maxAttempts < 1 || id !in events || events[id].status != Publishing {
        return None;
      }
      var event := events[id];
      var status := if event.attempts >= maxAttempts then Failed else Pending;
      event := event.(status := status, availableAt := availableAt, lease := None, lastError := Some("transport"));
      events := events[id := event];
      return Some(event);
    }

    /** Any steps of other workers. */
    method Interfere(steps: seq<Step>)
      modifies this
      ensures Abs() == Run(old(Abs()), steps)
    {
      MaxAttemptsIsFixed(Abs(), steps);
      var s := Run(Abs(), steps);
      events, workers, accepted := s.events, s.workers, s.accepted;
    }
  }

  lemma {:induction false} MaxAttemptsIsFixed(s: State, steps: seq<Step>)
    ensures Run(s, steps).maxAttempts == s.maxAttempts
    decreases |steps|
  {
    if steps != [] { MaxAttemptsIsFixed(Apply(s, steps[0]), steps[1..]); }
  }

  predicate ByOthers(steps: seq<Step>, w: Worker) {
    forall i :: 0 <= i < |steps| ==> !steps[i].Enqueue? ==> steps[i].worker != w
  }

  lemma {:induction false} OthersLeaveWorkerAlone(s: State, steps: seq<Step>, w: Worker)
    requires ByOthers(steps, w) && w in s.workers
    ensures w in Run(s, steps).workers && Run(s, steps).workers[w] == s.workers[w]
    decreases |steps|
  {
    if steps != [] {
      assert w in Apply(s, steps[0]).workers && Apply(s, steps[0]).workers[w] == s.workers[w];
      OthersLeaveWorkerAlone(Apply(s, steps[0]), steps[1..], w);
    }
  }

  lemma {:induction false} RunAppend(s: State, steps: seq<Step>, more: seq<Step>)
    ensures Run(s, steps + more) == Run(Run(s, steps), more)
    decreases |steps|
  {
    hide Apply;
    if steps == [] {
      assert steps + more == more;
    } else {
      RunAppend(Apply(s, steps[0]), steps[1..], more);
      assert (steps + more)[1..] == steps[1..] + more;
    }
  }

  lemma RunNothing(s: State)
    ensures Run(s, []) == s
  {
  }

  lemma RunThen(s: State, steps: seq<Step>, last: Step)
    ensures Run(s, steps + [last]) == Apply(Run(s, steps), last)
  {
    hide Apply;
    RunAppend(s, steps, [last]);
    assert [last][1..] == [];
  }

  /** One event of a batch: it is published, others are at work, and the outcome is recorded. */
  function Attempt(worker: Worker, ok: bool, others: seq<Step>): seq<Step> {
    [Send(worker, ok)] + others + [Record(worker)]
  }

  class DeliveryWorkflow {
    const table: OutboxTable
    const batchSize: int

    constructor (table: OutboxTable, batchSize: int)
      ensures this.table == table && this.batchSize == batchSize
    {
      this.table := table;
      this.batchSize := batchSize;
    }

    /** One delivery call at time `now`. Publishing the i-th claimed event succeeds iff `succeeds(i)`.
        Other workers take the steps `before(i)` before it is published and the steps `during(i)` while it
        is being published, before the outcome is recorded. The result is the report, or None if the call
        raises. The call and the steps of the others together are one of the runs that the other modules
        reason about. */
    method Deliver(worker: Worker, now: nat, locked: set<EventId>, succeeds: nat -> bool,
                   before: nat -> seq<Step>, during: nat -> seq<Step>)
      returns (report: Option<Tally>, ghost trace: seq<Step>)
      requires worker !in table.workers
      requires forall i :: ByOthers(before(i), worker) && ByOthers(during(i), worker)
      modifies table
      ensures table.Abs() == Run(old(table.Abs()), trace)
      ensures report.Some? ==>
        && worker in table.workers && table.workers[worker].queue == [] && report.value == table.workers[worker].tally
        && report.value.claimed == report.value.published + report.value.retried + report.value.failed
    {
      hide Run, Apply;
      ghost var start := table.Abs();
      var claimed := ClaimBatch(worker, now, locked);
      if claimed.None? {
        trace := [];
        RunNothing(start);
        return None, trace;
      }
      var batch := claimed.value;
      trace := [Claim(worker, now, batchSize, 120, None, locked)];
      var published, retried, failed := 0, 0, 0;
      var i := 0;
      while i < |batch|
        invariant 0 <= i <= |batch|
        invariant table.Abs() == Run(start, trace)
        invariant worker in table.workers
        invariant table.workers[worker] == Delivery(now, batch[i..], None, Tally(|batch|, published, retried, failed))
        invariant |batch| == published + retried + failed + |batch| - i
      {
        trace := Interlude(worker, before(i), start, trace);
        assert batch[i..][0] == batch[i] && batch[i..][1..] == batch[i + 1..];
        ghost var steps := Attempt(worker, succeeds(i), during(i));
        RunAppend(start, trace, steps);
        trace := trace + steps;
        var status := DeliverEvent(worker, batch[i], now, succeeds(i), during(i));
        match status {
          case None => return None, trace;
          case Some(Published) => published := published + 1;
          case Some(Failed) => failed := failed + 1;
          case Some(_) => retried := retried + 1;
        }
        i := i + 1;
      }
      report := Some(Tally(|batch|, published, retried, failed));
    }

    /** The claim of a batch; None if it raises. */
    method ClaimBatch(worker: Worker, now: nat, locked: set<EventId>) returns (batch: Option<seq<Claimed>>)
      requires worker !in table.workers
      modifies table
      ensures batch.None? ==> table.Abs() == old(table.Abs())
      ensures batch.Some? ==>
        && table.Abs() == Run(old(table.Abs()), [Claim(worker, now, batchSize, 120, None, locked)])
        && worker in table.workers
        && table.workers[worker] == Delivery(now, batch.value, None, Tally(|batch.value|, 0, 0, 0))
    {
      ghost var start := table.Abs();
      ghost var claim := Claim(worker, now, batchSize, 120, None, locked);
      batch := table.ClaimEvents(now, batchSize, 120, None, locked);
      if batch.None? {
        return;
      }
      table.workers := table.workers[worker := Delivery(now, batch.value, None, Tally(|batch.value|, 0, 0, 0))];
      BatchIsKnown(start.events, claim);
      assert table.Abs() == Apply(start, claim);
      RunThen(start, [], claim);
      assert [] + [claim] == [claim];
    }

    /** Publish one claimed event and record the outcome, with the others at work in between; the event's
        new status, or None if the record raises. */
    method DeliverEvent(worker: Worker, event: Claimed, at: nat, ok: bool, others: seq<Step>)
      returns (status: Option<Status>)
      requires worker in table.workers && table.workers[worker].queue != [] && table.workers[worker].queue[0] == event
      requires table.workers[worker].result.None? && table.workers[worker].at == at && ByOthers(others, worker)
      modifies table
      ensures table.Abs() == Run(old(table.Abs()), Attempt(worker, ok, others))
      ensures status.Some? ==> status.value != Publishing && worker in table.workers
      ensures status.Some? ==>
        var was := old(table.workers[worker]);
        table.workers[worker] == was.(queue := was.queue[1..], tally := Counted(was.tally, status.value))
    {
      ghost var start := table.Abs();
      PublishEvent(worker, event, ok);
      ghost var trace := Interlude(worker, others, start, [Send(worker, ok)]);
      RunThen(start, trace, Record(worker));
      status := RecordEvent(worker, event, at, ok);
    }

    /** The publisher call; whether it raises is the environment's choice. */
    method PublishEvent(worker: Worker, event: Claimed, ok: bool)
      requires worker in table.workers && table.workers[worker].queue != [] && table.workers[worker].queue[0] == event
      requires table.workers[worker].result.None?
      modifies table
      ensures table.Abs() == Run(old(table.Abs()), [Send(worker, ok)])
      ensures worker in table.workers && table.workers[worker] == old(table.workers[worker]).(result := Some(ok))
    {
      ghost var start := table.Abs();
      RunThen(start, [], Send(worker, ok));
      assert [] + [Send(worker, ok)] == [Send(worker, ok)];
      table.workers := table.workers[worker := table.workers[worker].(result := Some(ok))];
      if ok {
        table.accepted := table.accepted + {event.id};
      }
    }

    /** The transaction after the publish. */
    method RecordEvent(worker: Worker, event: Claimed, at: nat, ok: bool) returns (status: Option<Status>)
      requires worker in table.workers && table.workers[worker].queue != [] && table.workers[worker].queue[0] == event
      requires table.workers[worker].result == Some(ok) && table.workers[worker].at == at
      modifies table
      ensures table.Abs() == Apply(old(table.Abs()), Record(worker))
      ensures status.Some? ==> status.value != Publishing && worker in table.workers
      ensures status.Some? ==>
        var was := old(table.workers[worker]);
        table.workers[worker] == was.(queue := was.queue[1..], result := None,
                                      tally := Counted(was.tally, status.value))
    {
      var d := table.workers[worker];
      if !ok {
        var delay := Min(300, Power2(Min(event.attempts, 8)));
        var released := table.ReleaseForRetry(event.id, at + delay, table.maxAttempts);
        if released.None? {
          table.workers := table.workers - {worker};
          return None;
        }
        status := Some(released.value.status);
      } else {
        var marked := table.MarkPublished(event.id, at);
        if marked.None? {
          table.workers := table.workers - {worker};
          return None;
        }
        status := Some(Published);
      }
      table.workers :=
        table.workers[worker := d.(queue := d.queue[1..], result := None, tally := Counted(d.tally, status.value))];
    }

    method Interlude(worker: Worker, steps: seq<Step>, ghost start: State, ghost trace: seq<Step>)
      returns (ghost longer: seq<Step>)
      requires worker in table.workers && ByOthers(steps, worker) && table.Abs() == Run(start, trace)
      modifies table
      ensures table.Abs() == Run(start, longer) && longer == trace + steps
      ensures worker in table.workers && table.workers[worker] == old(table.workers[worker])
    {
      OthersLeaveWorkerAlone(table.Abs(), steps, worker);
      RunAppend(start, trace, steps);
      table.Interfere(steps);
      longer := trace + steps;
    }
  }
}
