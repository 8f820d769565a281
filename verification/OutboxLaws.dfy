/** What each step of the outbox does, said of the rows and the worker alone, and that an event is not
    claimed before it is due. */
module OutboxLaws {
  import opened Arithmetic
  import opened Options
  import opened Outbox
  import OutboxRaces
  import OutboxSafety
  import OutboxSchedule

  /** An insert leaves a pending event without attempts or lease, with what the caller gave: due at
      `availableAt`, created now. A key that is owned changes nothing. */
  lemma EnqueueLaw(s: State, id: EventId, key: Key, payload: string, workspace: Option<nat>, availableAt: nat, now: nat)
    ensures
      var t := Apply(s, Enqueue(id, key, payload, workspace, availableAt, now));
      if (exists other :: other in s.events && s.events[other].key == key) || id in s.events then t == s
      else
        t == s.(events := s.events[id := Event(key, payload, workspace, now, Pending, 0, availableAt, None, None,
                                               None)])
  {
  }

  predicate IsDue(e: Event, now: nat, workspace: Option<nat>) {
    && e.availableAt <= now
    && (e.status == Pending || (e.status == Publishing && e.lease.Some? && e.lease.value <= now))
    && (workspace.Some? ==> e.workspace == workspace)
  }

  /** available_at, then created_at, then id. */
  predicate IsEarlier(x: Event, a: EventId, y: Event, b: EventId) {
    || x.availableAt < y.availableAt
    || (x.availableAt == y.availableAt && x.createdAt < y.createdAt)
    || (x.availableAt == y.availableAt && x.createdAt == y.createdAt && a < b)
  }

  predicate IsTaken(d: Delivery, id: EventId) {
    exists i :: 0 <= i < |d.queue| && d.queue[i].id == id
  }

  /** The events that a claim takes: due and unlocked ones, the earliest first, each once, no more than the
      limit, and all of them unless the limit is reached. */
  ghost predicate TakesTheEarliest(s: State, d: Delivery, now: nat, limit: int, workspace: Option<nat>,
                                   locked: set<EventId>) {
    && |d.queue| <= limit
    && (forall i :: 0 <= i < |d.queue| ==>
          d.queue[i].id in s.events && d.queue[i].id !in locked && IsDue(s.events[d.queue[i].id], now, workspace))
    && (forall i, j :: 0 <= i < j < |d.queue| ==>
          d.queue[i].id in s.events && d.queue[j].id in s.events
          && IsEarlier(s.events[d.queue[i].id], d.queue[i].id, s.events[d.queue[j].id], d.queue[j].id))
    && (forall id :: id in s.events && id !in locked && IsDue(s.events[id], now, workspace) && !IsTaken(d, id) ==>
          |d.queue| == limit && forall i :: 0 <= i < |d.queue| ==>
            d.queue[i].id in s.events && IsEarlier(s.events[d.queue[i].id], d.queue[i].id, s.events[id], id))
  }

  /** What a claim leaves: each taken event publishing, with one attempt more and a lease from now; no
      other row changed; and the worker with copies of them in order and a tally of their number. */
  lemma ClaimLaw(s: State, w: Worker, now: nat, limit: int, lease: int, workspace: Option<nat>, locked: set<EventId>)
    requires w !in s.workers && limit >= 1 && lease > 0
    ensures
      var t := Apply(s, Claim(w, now, limit, lease, workspace, locked));
      && t.maxAttempts == s.maxAttempts && t.accepted == s.accepted && t.events.Keys == s.events.Keys
      && w in t.workers && t.workers == s.workers[w := t.workers[w]]
      && var d := t.workers[w];
         && d.at == now && d.result == None && d.tally == Tally(|d.queue|, 0, 0, 0)
         && TakesTheEarliest(s, d, now, limit, workspace, locked)
         && (forall id :: id in s.events ==>
               t.events[id] ==
                 if IsTaken(d, id)
                 then s.events[id].(status := Publishing, lease := Some(now + lease),
                                    attempts := s.events[id].attempts + 1)
                 else s.events[id])
         && (forall i :: 0 <= i < |d.queue| ==>
               d.queue[i].id in s.events && d.queue[i].attempts == s.events[d.queue[i].id].attempts + 1)
  {
    var step := Claim(w, now, limit, lease, workspace, locked);
    var t, batch, ids := Apply(s, step), Batch(s.events, step), Eligible(s.events, now, workspace, locked);
    FirstOfTakesTheFirst(s.events, ids, limit);
    BatchIsKnown(s.events, step);
    var d := t.workers[w];
    assert forall i :: 0 <= i < |batch| ==> batch[i] in ids;
    hide FirstOf;
    TakenIsInBatch(d, batch);
    EarliestTaken(s, step, d, batch, ids);
    hide TakesTheFirst, TakesTheEarliest, IsTaken, Eligible;
  }

  lemma TakenIsInBatch(d: Delivery, batch: seq<EventId>)
    requires |d.queue| == |batch| && forall i :: 0 <= i < |batch| ==> d.queue[i].id == batch[i]
    ensures forall id :: IsTaken(d, id) <==> id in batch
  {
    forall id
      ensures IsTaken(d, id) <==> id in batch
    {
      if id in batch {
        var i :| 0 <= i < |batch| && batch[i] == id;
        assert d.queue[i].id == id;
      }
    }
  }

  lemma EarliestTaken(s: State, step: Step, d: Delivery, batch: seq<EventId>, ids: set<EventId>)
    requires step.Claim? && step.limit >= 1 && ids == Eligible(s.events, step.now, step.workspace, step.locked)
    requires TakesTheFirst(s.events, ids, step.limit, batch)
    requires |d.queue| == |batch| && forall i :: 0 <= i < |batch| ==> d.queue[i].id == batch[i]
    requires forall id :: IsTaken(d, id) <==> id in batch
    ensures TakesTheEarliest(s, d, step.now, step.limit, step.workspace, step.locked)
  {
    forall id | id in s.events && id !in step.locked && IsDue(s.events[id], step.now, step.workspace) && !IsTaken(d, id)
      ensures |d.queue| == step.limit
      ensures forall i :: 0 <= i < |d.queue| ==>
        d.queue[i].id in s.events && IsEarlier(s.events[d.queue[i].id], d.queue[i].id, s.events[id], id)
    {
      assert id in ids && id !in batch;
      if |batch| == |ids| { AllTaken(batch, ids, id); }
    }
  }

  /** A sequence without repeats of as many members as the set has lists all of them. */
  lemma {:induction false} AllTaken(batch: seq<EventId>, ids: set<EventId>, id: EventId)
    requires |batch| == |ids| && forall i :: 0 <= i < |batch| ==> batch[i] in ids
    requires forall i, j :: 0 <= i < j < |batch| ==> batch[i] != batch[j]
    requires id in ids
    ensures id in batch
  {
    if batch[0] != id {
      assert |ids - {batch[0]}| == |ids| - 1;
      AllTaken(batch[1..], ids - {batch[0]}, id);
    }
  }

  lemma RefusedClaimLaw(s: State, w: Worker, now: nat, limit: int, lease: int, workspace: Option<nat>,
                        locked: set<EventId>)
    requires limit < 1 || lease <= 0
    ensures Apply(s, Claim(w, now, limit, lease, workspace, locked)) == s
  {
  }

  lemma SendLaw(s: State, w: Worker, ok: bool)
    requires w in s.workers && s.workers[w].queue != [] && s.workers[w].result.None?
    ensures Apply(s, Send(w, ok)) ==
      s.(workers := s.workers[w := s.workers[w].(result := Some(ok))],
         accepted := if ok then s.accepted + {s.workers[w].queue[0].id} else s.accepted)
  {
  }

  /** The backoff in seconds, by the attempts that the worker's copy shows. */
  lemma DelayLaw(attempts: nat)
    ensures Delay(attempts) ==
      if attempts >= 8 then 256
      else [1, 2, 4, 8, 16, 32, 64, 128][attempts]
  {
    OutboxSchedule.CapNeverBinds(attempts);
    assert Power2(2) == 4 && Power2(4) == 16 && Power2(6) == 64 && Power2(8) == 256;
    assert Power2(1) == 2 && Power2(3) == 8 && Power2(5) == 32 && Power2(7) == 128;
  }

  /** What a record leaves: an event that is publishing is published at the worker's time, or given back
      with the backoff, or failed if its attempts are used up, and counted as what it became; for any
      other event, and for a maximum below 1, the call raises and leaves the rows alone. */
  lemma RecordLaw(s: State, w: Worker)
    requires w in s.workers && s.workers[w].queue != [] && s.workers[w].result.Some?
    ensures
      var t, d, id := Apply(s, Record(w)), s.workers[w], s.workers[w].queue[0].id;
      var rest := d.(queue := d.queue[1..], result := None);
      if id !in s.events || s.events[id].status != Publishing || (d.result == Some(false) && s.maxAttempts < 1)
      then t == s.(workers := s.workers - {w})
      else
        var e := s.events[id];
        if d.result == Some(true)
        then t == s.(events := s.events[id := e.(status := Published, publishedAt := Some(d.at), lease := None,
                                                 lastError := None)],
                     workers := s.workers[w := rest.(tally := d.tally.(published := d.tally.published + 1))])
        else
          var back := e.(availableAt := d.at + Delay(d.queue[0].attempts), lease := None,
                         lastError := Some("transport"));
          if e.attempts >= s.maxAttempts
          then t == s.(events := s.events[id := back.(status := Failed)],
                       workers := s.workers[w := rest.(tally := d.tally.(failed := d.tally.failed + 1))])
          else t == s.(events := s.events[id := back.(status := Pending)],
                       workers := s.workers[w := rest.(tally := d.tally.(retried := d.tally.retried + 1))])
  {
    hide Delay;
  }

  // ----- When an event is due -----

  /** Some worker gives the event back after a failed publish. */
  predicate GivesBack(s: State, step: Step, id: EventId) {
    && step.Record? && step.worker in s.workers && s.workers[step.worker].queue != []
    && s.workers[step.worker].queue[0].id == id && s.workers[step.worker].result == Some(false)
  }

  predicate IsEverGivenBack(s: State, steps: seq<Step>, id: EventId)
    decreases |steps|
  {
    steps != [] && (GivesBack(s, steps[0], id) || IsEverGivenBack(Apply(s, steps[0]), steps[1..], id))
  }

  lemma StepKeepsDueTime(s: State, step: Step, id: EventId)
    requires id in s.events && !GivesBack(s, step, id)
    ensures id in Apply(s, step).events && Apply(s, step).events[id].availableAt == s.events[id].availableAt
  {
    hide Batch, Delay, Copies;
  }

  lemma {:induction false} DueTimeStays(s: State, steps: seq<Step>, id: EventId)
    requires id in s.events && !IsEverGivenBack(s, steps, id)
    ensures id in Run(s, steps).events && Run(s, steps).events[id].availableAt == s.events[id].availableAt
    decreases |steps|
  {
    if steps != [] {
      hide Apply, GivesBack;
      StepKeepsDueTime(s, steps[0], id);
      DueTimeStays(Apply(s, steps[0]), steps[1..], id);
    }
  }

  /** Whatever follows an insert, no claim takes the event before the time that the caller gave, unless a
      worker has given it back in between. */
  lemma NotClaimedBeforeItIsDue(s: State, enqueue: Step, steps: seq<Step>, claim: Step)
    requires enqueue.Enqueue? && enqueue.id !in s.events && enqueue.id in Apply(s, enqueue).events
    requires !IsEverGivenBack(Apply(s, enqueue), steps, enqueue.id)
    requires claim.Claim? && claim.now < enqueue.availableAt
    ensures
      var t := Run(Apply(s, enqueue), steps);
      enqueue.id in t.events && enqueue.id in Apply(t, claim).events
      && Apply(t, claim).events[enqueue.id] == t.events[enqueue.id]
  {
    var u := Apply(s, enqueue);
    EnqueueLaw(s, enqueue.id, enqueue.key, enqueue.payload, enqueue.workspace, enqueue.availableAt, enqueue.now);
    assert u.events[enqueue.id].availableAt == enqueue.availableAt;
    DueTimeStays(u, steps, enqueue.id);
    hide Run, IsEverGivenBack;
    UndueIsNotClaimed(Run(u, steps), claim, enqueue.id);
  }

  lemma UndueIsNotClaimed(s: State, claim: Step, id: EventId)
    requires claim.Claim? && id in s.events && claim.now < s.events[id].availableAt
    ensures id in Apply(s, claim).events && Apply(s, claim).events[id] == s.events[id]
  {
    if claim.worker !in s.workers && claim.limit >= 1 && claim.lease > 0 {
      hide Apply;
      ClaimLaw(s, claim.worker, claim.now, claim.limit, claim.lease, claim.workspace, claim.locked);
      var d := Apply(s, claim).workers[claim.worker];
      assert IsTaken(d, id) ==> IsDue(s.events[id], claim.now, claim.workspace);
    }
  }

  // ----- The same when records overlap -----

  predicate WritesBack(s: OutboxRaces.State, step: OutboxRaces.Step, id: EventId) {
    && step.Write? && step.worker in s.base.workers && s.base.workers[step.worker].queue != []
    && s.base.workers[step.worker].queue[0].id == id && s.base.workers[step.worker].result == Some(false)
  }

  predicate IsEverWrittenBack(s: OutboxRaces.State, steps: seq<OutboxRaces.Step>, id: EventId)
    decreases |steps|
  {
    steps != []
    && (WritesBack(s, steps[0], id) || IsEverWrittenBack(OutboxRaces.Apply(s, steps[0]), steps[1..], id))
  }

  lemma OverlapKeepsDueTime(s: OutboxRaces.State, step: OutboxRaces.Step, id: EventId)
    requires id in s.base.events && !WritesBack(s, step, id)
    ensures id in OutboxRaces.Apply(s, step).base.events
    ensures OutboxRaces.Apply(s, step).base.events[id].availableAt == s.base.events[id].availableAt
  {
    hide Delay;
    if step.Whole? && !step.step.Record? {
      assert !GivesBack(s.base, step.step, id);
      StepKeepsDueTime(s.base, step.step, id);
      hide Outbox.Apply;
    }
  }

  lemma {:induction false} DueTimeStaysUnderOverlap(s: OutboxRaces.State, steps: seq<OutboxRaces.Step>, id: EventId)
    requires id in s.base.events && !IsEverWrittenBack(s, steps, id)
    ensures id in OutboxRaces.Run(s, steps).base.events
    ensures OutboxRaces.Run(s, steps).base.events[id].availableAt == s.base.events[id].availableAt
    decreases |steps|
  {
    if steps != [] {
      hide OutboxRaces.Apply, WritesBack;
      OverlapKeepsDueTime(s, steps[0], id);
      DueTimeStaysUnderOverlap(OutboxRaces.Apply(s, steps[0]), steps[1..], id);
    }
  }

  /** Overlap or not, no claim takes an event before its time unless a write has given it back. */
  lemma NotClaimedBeforeItIsDueUnderOverlap(s: OutboxRaces.State, steps: seq<OutboxRaces.Step>, id: EventId,
                                            claim: Step)
    requires id in s.base.events && !IsEverWrittenBack(s, steps, id)
    requires claim.Claim? && claim.now < s.base.events[id].availableAt
    ensures
      var t := OutboxRaces.Run(s, steps);
      id in t.base.events && id in OutboxRaces.Apply(t, OutboxRaces.Whole(claim)).base.events
      && OutboxRaces.Apply(t, OutboxRaces.Whole(claim)).base.events[id] == t.base.events[id]
  {
    DueTimeStaysUnderOverlap(s, steps, id);
    hide OutboxRaces.Run, IsEverWrittenBack;
    UndueIsNotClaimed(OutboxRaces.Run(s, steps).base, claim, id);
  }

  // ----- Records that overlap -----

  /** A record that overlaps reads the row first: nothing but the reading changes, and a row that has moved
      on ends the worker. */
  lemma ReadLaw(s: OutboxRaces.State, w: Worker)
    requires OutboxRaces.CanRecord(s.base, w) && w !in s.readings
    ensures
      var t, d := OutboxRaces.Apply(s, OutboxRaces.Read(w)), s.base.workers[w];
      var id := d.queue[0].id;
      if id !in s.base.events || s.base.events[id].status != Publishing
         || (d.result == Some(false) && s.base.maxAttempts < 1)
      then t == s.(base := s.base.(workers := s.base.workers - {w}))
      else t == s.(readings := s.readings[w := s.base.events[id]])
  {
    hide Delay;
  }

  /** Then it writes the columns that it wants changed over the row as it is now. What the row and the
      reading agree on becomes what it wants; the identity and the attempts of the row stay. */
  lemma WriteLaw(s: OutboxRaces.State, w: Worker)
    requires OutboxRaces.Inv(s) && w in s.readings
    ensures
      var t, d, seen := OutboxRaces.Apply(s, OutboxRaces.Write(w)), s.base.workers[w], s.readings[w];
      var id := d.queue[0].id;
      && id in s.base.events && id in t.base.events && d.result.Some? && w in t.base.workers
      && t.readings == s.readings - {w} && t.base.accepted == s.base.accepted
      && t.base.events == s.base.events[id := t.base.events[id]]
      && t.base.workers == s.base.workers[w := t.base.workers[w]]
      && var e, after := s.base.events[id], t.base.events[id];
         && after == e.(status := after.status, availableAt := after.availableAt, lease := None,
                        publishedAt := after.publishedAt, lastError := after.lastError)
         && t.base.workers[w] == d.(queue := d.queue[1..], result := None, tally := t.base.workers[w].tally)
         && (d.result == Some(true) ==>
               && after.status == Published && after.availableAt == e.availableAt
               && after.publishedAt == (if seen.publishedAt == Some(d.at) then e.publishedAt else Some(d.at))
               && after.lastError == (if seen.lastError.None? then e.lastError else None)
               && t.base.workers[w].tally == d.tally.(published := d.tally.published + 1))
         && (d.result == Some(false) ==>
               && after.status == (if seen.attempts >= s.base.maxAttempts then Failed else Pending)
               && after.publishedAt == e.publishedAt
               && after.availableAt ==
                    (if seen.availableAt == d.at + Delay(d.queue[0].attempts) then e.availableAt
                     else d.at + Delay(d.queue[0].attempts))
               && after.lastError == (if seen.lastError == Some("transport") then e.lastError else Some("transport"))
               && t.base.workers[w].tally ==
                    if seen.attempts >= s.base.maxAttempts then d.tally.(failed := d.tally.failed + 1)
                    else d.tally.(retried := d.tally.retried + 1))
  {
    assert OutboxRaces.ReadInv(s, w);
    hide Delay, OutboxRaces.EventInv, OutboxSafety.WorkerInv;
  }
}
