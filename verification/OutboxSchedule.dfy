/** When an outbox event is claimed again: leases, releases and the backoff, in runs with serial
    records. OutboxRaces says what changes when the records of late workers overlap. */
module OutboxSchedule {
  import opened Arithmetic
  import opened Options
  import opened Outbox
  import OutboxSafety

  predicate Claims(s: State, step: Step, id: EventId) {
    step.Claim? && step.worker !in s.workers && id in Batch(s.events, step)
  }

  /** A worker gives the event back: it records a failed publish while the event is publishing. */
  predicate Releases(s: State, step: Step, id: EventId) {
    && step.Record? && step.worker in s.workers
    && var d := s.workers[step.worker];
       d.queue != [] && d.queue[0].id == id && d.result == Some(false) && Recorded(s, d).Some?
  }

  predicate NeverClaimed(s: State, steps: seq<Step>, id: EventId)
    decreases |steps|
  {
    steps == [] || (!Claims(s, steps[0], id) && NeverClaimed(Apply(s, steps[0]), steps[1..], id))
  }

  predicate EverReleased(s: State, steps: seq<Step>, id: EventId)
    decreases |steps|
  {
    steps != [] && (Releases(s, steps[0], id) || EverReleased(Apply(s, steps[0]), steps[1..], id))
  }

  // ----- Leases -----

  predicate LeasedOrDone(s: State, id: EventId, until: nat) {
    id in s.events && (s.events[id].status in {Published, Failed} || s.events[id].lease == Some(until))
  }

  lemma ApplyKeepsLease(s: State, step: Step, id: EventId, until: nat)
    requires OutboxSafety.Inv(s) && LeasedOrDone(s, id, until)
    requires !Claims(s, step, id) && !Releases(s, step, id)
    ensures LeasedOrDone(Apply(s, step), id, until)
  {
    assert OutboxSafety.EventInv(s, id);
    hide OutboxSafety.Inv;
  }

  lemma {:induction false} UnreleasedStaysLeased(s: State, steps: seq<Step>, id: EventId, until: nat)
    requires OutboxSafety.Inv(s) && LeasedOrDone(s, id, until)
    requires NeverClaimed(s, steps, id) && !EverReleased(s, steps, id)
    ensures LeasedOrDone(Run(s, steps), id, until)
    decreases |steps|
  {
    if steps != [] {
      hide OutboxSafety.Inv, Claims, Releases, LeasedOrDone, Apply;
      ApplyKeepsLease(s, steps[0], id, until);
      OutboxSafety.ApplyKeepsInv(s, steps[0]);
      UnreleasedStaysLeased(Apply(s, steps[0]), steps[1..], id, until);
    }
  }

  lemma ClaimedIsLeased(s: State, claim: Step, id: EventId)
    requires OutboxSafety.Inv(s) && Claims(s, claim, id)
    ensures claim.lease > 0 && LeasedOrDone(Apply(s, claim), id, claim.now + claim.lease)
    ensures id in s.events && IsEligible(s.events[id], claim.now, claim.workspace)
  {
    BatchIsKnown(s.events, claim);
  }

  lemma LeaseExcludesClaims(s: State, claim: Step, id: EventId, until: nat)
    requires OutboxSafety.Inv(s) && LeasedOrDone(s, id, until) && claim.Claim? && claim.now < until
    ensures !Claims(s, claim, id)
  {
    BatchIsKnown(s.events, claim);
    assert OutboxSafety.EventInv(s, id);
    hide Batch, OutboxSafety.Inv;
  }

  lemma ReleasedBeforeNextClaim(s: State, steps: seq<Step>, again: Step, id: EventId, until: nat)
    requires OutboxSafety.Inv(s) && LeasedOrDone(s, id, until) && NeverClaimed(s, steps, id)
    requires Claims(Run(s, steps), again, id) && again.Claim? && again.now < until
    ensures EverReleased(s, steps, id)
  {
    hide Run, Claims, OutboxSafety.Inv, LeasedOrDone, NeverClaimed, EverReleased;
    OutboxSafety.RunKeepsInv(s, steps);
    if !EverReleased(s, steps, id) {
      UnreleasedStaysLeased(s, steps, id, until);
      LeaseExcludesClaims(Run(s, steps), again, id, until);
    }
  }

  /** An event claimed at t is claimed again before t + lease only if it was given back in between,
      and then only once its new available_at has passed. */
  lemma ClaimedAgainOnlyIfReleased(s: State, claim: Step, steps: seq<Step>, again: Step, id: EventId)
    requires OutboxSafety.Inv(s) && Claims(s, claim, id)
    requires NeverClaimed(Apply(s, claim), steps, id)
    requires Claims(Run(Apply(s, claim), steps), again, id)
    requires again.now < claim.now + claim.lease
    ensures EverReleased(Apply(s, claim), steps, id)
    ensures id in Run(Apply(s, claim), steps).events
         && Run(Apply(s, claim), steps).events[id].availableAt <= again.now
  {
    hide Apply, Run, OutboxSafety.Inv, LeasedOrDone, NeverClaimed, EverReleased;
    assert claim.Claim? && again.Claim?;
    hide Claims;
    var t, until := Apply(s, claim), claim.now + claim.lease;
    ClaimedIsLeased(s, claim, id);
    OutboxSafety.ApplyKeepsInv(s, claim);
    OutboxSafety.RunKeepsInv(t, steps);
    ReleasedBeforeNextClaim(t, steps, again, id, until);
    ClaimedIsLeased(Run(t, steps), again, id);
  }

  // ----- Backoff -----

  /** The times at which a run claims the event. */
  function ClaimTimes(s: State, steps: seq<Step>, id: EventId): seq<nat>
    decreases |steps|
  {
    if steps == [] then []
    else ClaimTime(s, steps[0], id) + ClaimTimes(Apply(s, steps[0]), steps[1..], id)
  }

  function ClaimTime(s: State, step: Step, id: EventId): seq<nat> {
    if Claims(s, step, id) then [step.now] else []
  }

  /** Publishing the event always fails, and no batch is still at work on it when its lease ends:
      whoever claims it finds it given back. */
  predicate FailsInTime(s: State, steps: seq<Step>, id: EventId)
    decreases |steps|
  {
    steps == [] || (StepFailsInTime(s, steps[0], id) && FailsInTime(Apply(s, steps[0]), steps[1..], id))
  }

  predicate StepFailsInTime(s: State, step: Step, id: EventId) {
    && (Claims(s, step, id) ==> id in s.events && s.events[id].status == Pending)
    && (step.Send? && Holds(s, step.worker, 0, id) ==> !step.ok)
  }

  predicate Holds(s: State, w: Worker, p: nat, id: EventId) {
    w in s.workers && p < |s.workers[w].queue| && s.workers[w].queue[p].id == id
  }

  ghost predicate Spaced(times: seq<nat>) {
    forall k :: 1 <= k < |times| ==> times[k] >= times[k - 1] + Power2(Min(k, 8))
  }

  ghost predicate Idle(s: State, id: EventId) {
    forall w, p: nat :: !Holds(s, w, p, id)
  }

  ghost predicate ScheduleInv(s: State, times: seq<nat>, id: EventId) {
    && s.maxAttempts >= 1 && id in s.events
    && var e, n := s.events[id], |times|;
    && e.attempts == n && Spaced(times)
    && (e.status == Pending ==>
          Idle(s, id) && n < s.maxAttempts && (n > 0 ==> e.availableAt >= times[n - 1] + Power2(Min(n, 8))))
    && (e.status == Failed ==> Idle(s, id) && n == s.maxAttempts)
    && (e.status == Publishing ==> 1 <= n <= s.maxAttempts)
    && e.status != Published
    && (forall w, p: nat :: Holds(s, w, p, id) ==>
          && n >= 1 && s.workers[w].at == times[n - 1] && s.workers[w].queue[p].attempts == n
          && (p == 0 ==> s.workers[w].result != Some(true)))
    && (forall w, p: nat, v, q: nat :: Holds(s, w, p, id) && Holds(s, v, q, id) ==> w == v && p == q)
  }

  /** The cap of 300 seconds never binds, because the exponent is capped at 8 first. */
  lemma CapNeverBinds(attempts: nat)
    ensures Delay(attempts) == Power2(Min(attempts, 8))
  {
    var n := Min(attempts, 8);
    assert Power2(8) == 256 by {
      assert Power2(2) == 4 && Power2(4) == 16 && Power2(6) == 64;
    }
    Power2Grows(n, 8);
  }

  lemma {:induction false} Power2Grows(m: nat, n: nat)
    requires m <= n
    ensures Power2(m) <= Power2(n)
  {
    if m < n { Power2Grows(m, n - 1); }
  }

  // ----- Every step -----

  /** Who has a claimed event that no one had before: the claimer, once. */
  lemma ClaimerHolds(s: State, step: Step, id: EventId)
    requires Claims(s, step, id) && id in s.events && Idle(s, id)
    ensures
      var t := Apply(s, step);
      && id in t.events && t.events[id] ==
           s.events[id].(status := Publishing, attempts := s.events[id].attempts + 1, lease := t.events[id].lease)
      && t.maxAttempts == s.maxAttempts
      && (forall w, p: nat :: Holds(t, w, p, id) ==>
            && w == step.worker && t.workers[w].at == step.now && t.workers[w].result.None?
            && t.workers[w].queue[p].attempts == s.events[id].attempts + 1)
      && (forall w, p: nat, v, q: nat :: Holds(t, w, p, id) && Holds(t, v, q, id) ==> w == v && p == q)
  {
    var t := Apply(s, step);
    FirstOfTakesTheFirst(s.events, Eligible(s.events, step.now, step.workspace, step.locked), step.limit);
    BatchIsKnown(s.events, step);
    hide FirstOf, Eligible;
    forall w, p: nat | Holds(t, w, p, id)
      ensures w == step.worker && p < |Batch(s.events, step)| && Batch(s.events, step)[p] == id
    {
      assert w != step.worker ==> Holds(s, w, p, id);
    }
  }

  lemma ClaimKeepsSchedule(s: State, step: Step, times: seq<nat>, id: EventId)
    requires OutboxSafety.Inv(s) && ScheduleInv(s, times, id) && Claims(s, step, id) && s.events[id].status == Pending
    ensures ScheduleInv(Apply(s, step), times + [step.now], id)
  {
    ClaimedIsLeased(s, step, id);
    ClaimerHolds(s, step, id);
    hide OutboxSafety.Inv, Apply, Batch, Idle, Holds;
    assert Spaced(times + [step.now]);
  }

  lemma OtherClaimKeepsSchedule(s: State, step: Step, times: seq<nat>, id: EventId)
    requires OutboxSafety.Inv(s) && ScheduleInv(s, times, id) && step.Claim? && !Claims(s, step, id)
    ensures ScheduleInv(Apply(s, step), times, id)
  {
    var t := Apply(s, step);
    BatchIsKnown(s.events, step);
    hide OutboxSafety.Inv, FirstOf, Batch;
    assert t.events[id] == s.events[id];
    forall w, p: nat | Holds(t, w, p, id)
      ensures Holds(s, w, p, id) && t.workers[w] == s.workers[w]
    {
    }
  }

  lemma SendKeepsSchedule(s: State, step: Step, times: seq<nat>, id: EventId)
    requires ScheduleInv(s, times, id) && step.Send?
    requires Holds(s, step.worker, 0, id) ==> !step.ok
    ensures ScheduleInv(Apply(s, step), times, id)
  {
    var t := Apply(s, step);
    forall w, p: nat | Holds(t, w, p, id)
      ensures Holds(s, w, p, id) && t.workers[w].at == s.workers[w].at && t.workers[w].queue == s.workers[w].queue
    {
    }
  }

  /** After a record the others have what they had, and the recorder the rest of its queue. */
  lemma RecorderMovesOn(s: State, w: Worker, id: EventId)
    requires Apply(s, Record(w)) != s
    ensures
      var t := Apply(s, Record(w));
      forall v, p: nat :: Holds(t, v, p, id) ==>
        var was := if v == w then p + 1 else p;
        && Holds(s, v, was, id) && t.workers[v].at == s.workers[v].at
             && t.workers[v].queue[p] == s.workers[v].queue[was]
        && t.workers[v].result == if v == w then None else s.workers[v].result
  {
    hide Recorded;
  }

  lemma RecordedRow(s: State, w: Worker, times: seq<nat>, id: EventId)
    requires OutboxSafety.Inv(s) && ScheduleInv(s, times, id) && Apply(s, Record(w)) != s
    ensures
      var t := Apply(s, Record(w));
      && t.maxAttempts == s.maxAttempts && id in t.events
      && (Holds(s, w, 0, id) ==>
            && s.workers[w].queue[0].attempts == |times| && s.workers[w].result == Some(false)
            && t.events[id] == Released(s.events[id], times[|times| - 1] + Delay(|times|), s.maxAttempts))
      && (!Holds(s, w, 0, id) ==> t.events[id] == s.events[id])
  {
    if Holds(s, w, 0, id) {
      assert s.events[id].status == Publishing;
    }
    hide OutboxSafety.Inv, Delay;
  }

  lemma OwnRecordKeepsSchedule(s: State, w: Worker, times: seq<nat>, id: EventId)
    requires OutboxSafety.Inv(s) && ScheduleInv(s, times, id) && Apply(s, Record(w)) != s && Holds(s, w, 0, id)
    ensures ScheduleInv(Apply(s, Record(w)), times, id)
  {
    RecorderMovesOn(s, w, id);
    RecordedRow(s, w, times, id);
    CapNeverBinds(|times|);
    hide OutboxSafety.Inv, Delay, Power2, Apply, Spaced;
    assert Idle(Apply(s, Record(w)), id);
  }

  lemma ForeignRecordKeepsSchedule(s: State, w: Worker, times: seq<nat>, id: EventId)
    requires OutboxSafety.Inv(s) && ScheduleInv(s, times, id) && Apply(s, Record(w)) != s && !Holds(s, w, 0, id)
    ensures ScheduleInv(Apply(s, Record(w)), times, id)
  {
    RecorderMovesOn(s, w, id);
    RecordedRow(s, w, times, id);
    hide OutboxSafety.Inv, Delay, Power2, Apply, Spaced;
  }

  lemma RecordKeepsSchedule(s: State, w: Worker, times: seq<nat>, id: EventId)
    requires OutboxSafety.Inv(s) && ScheduleInv(s, times, id)
    ensures ScheduleInv(Apply(s, Record(w)), times, id)
  {
    hide OutboxSafety.Inv, ScheduleInv, Apply;
    if Apply(s, Record(w)) != s {
      if Holds(s, w, 0, id) {
        OwnRecordKeepsSchedule(s, w, times, id);
      } else {
        ForeignRecordKeepsSchedule(s, w, times, id);
      }
    }
  }

  lemma OtherStepKeepsSchedule(s: State, step: Step, times: seq<nat>, id: EventId)
    requires ScheduleInv(s, times, id) && (step.Enqueue? || step.Leave?)
    ensures ScheduleInv(Apply(s, step), times, id)
  {
    var t := Apply(s, step);
    forall w, p: nat | Holds(t, w, p, id)
      ensures Holds(s, w, p, id) && t.workers[w] == s.workers[w]
    {
    }
  }

  lemma ApplyKeepsSchedule(s: State, step: Step, times: seq<nat>, id: EventId)
    requires OutboxSafety.Inv(s) && ScheduleInv(s, times, id) && StepFailsInTime(s, step, id)
    ensures ScheduleInv(Apply(s, step), times + ClaimTime(s, step, id), id)
  {
    assert times + [] == times;
    hide OutboxSafety.Inv, ScheduleInv, Apply;
    if Claims(s, step, id) {
      ClaimKeepsSchedule(s, step, times, id);
    } else {
      match step
      case Claim(_, _, _, _, _, _) => OtherClaimKeepsSchedule(s, step, times, id);
      case Send(_, _) => SendKeepsSchedule(s, step, times, id);
      case Record(w) => RecordKeepsSchedule(s, w, times, id);
      case _ => OtherStepKeepsSchedule(s, step, times, id);
    }
  }

  lemma {:induction false} RunKeepsSchedule(s: State, steps: seq<Step>, times: seq<nat>, id: EventId)
    requires OutboxSafety.Inv(s) && ScheduleInv(s, times, id) && FailsInTime(s, steps, id)
    ensures ScheduleInv(Run(s, steps), times + ClaimTimes(s, steps, id), id)
    decreases |steps|
  {
    hide OutboxSafety.Inv, ScheduleInv, Apply, ClaimTime, StepFailsInTime;
    if steps == [] {
      assert times + [] == times;
    } else {
      var t, claimed := Apply(s, steps[0]), ClaimTime(s, steps[0], id);
      OutboxSafety.ApplyKeepsInv(s, steps[0]);
      ApplyKeepsSchedule(s, steps[0], times, id);
      RunKeepsSchedule(t, steps[1..], times + claimed, id);
      assert times + claimed + ClaimTimes(t, steps[1..], id) == times + (claimed + ClaimTimes(t, steps[1..], id));
    }
  }

  // ----- The last attempt -----

  /** The step ends a worker that still has the event to record: it dies, or a record raises. */
  ghost predicate Abandons(s: State, step: Step, id: EventId) {
    && (step.Record? || step.Leave?) && (exists p: nat :: Holds(s, step.worker, p, id))
    && step.worker !in Apply(s, step).workers
  }

  ghost predicate NeverAbandoned(s: State, steps: seq<Step>, id: EventId)
    decreases |steps|
  {
    steps == [] || (!Abandons(s, steps[0], id) && NeverAbandoned(Apply(s, steps[0]), steps[1..], id))
  }

  /** An event that is being published has a worker. */
  ghost predicate IsCarried(s: State, id: EventId) {
    id in s.events && s.events[id].status == Publishing ==> !Idle(s, id)
  }

  /** Recording an attempt decides: the event is failed after exactly max_attempts claims, pending
      after fewer, and no worker has it any more. */
  lemma RecordDecides(s: State, w: Worker, times: seq<nat>, id: EventId)
    requires OutboxSafety.Inv(s) && ScheduleInv(s, times, id)
    requires Holds(s, w, 0, id) && s.workers[w].result.Some?
    ensures
      var t := Apply(s, Record(w));
      && id in t.events && Idle(t, id)
      && t.events[id].status == if |times| == s.maxAttempts then Failed else Pending
  {
    RecordKeepsSchedule(s, w, times, id);
    hide OutboxSafety.Inv;
  }

  lemma ClaimKeepsCarried(s: State, step: Step, times: seq<nat>, id: EventId)
    requires OutboxSafety.Inv(s) && ScheduleInv(s, times, id) && IsCarried(s, id) && step.Claim?
    ensures IsCarried(Apply(s, step), id)
  {
    var t := Apply(s, step);
    BatchIsKnown(s.events, step);
    hide OutboxSafety.Inv, ScheduleInv, FirstOf;
    if Claims(s, step, id) && t != s {
      var p :| 0 <= p < |Batch(s.events, step)| && Batch(s.events, step)[p] == id;
      assert Holds(t, step.worker, p, id);
    } else if t.events[id].status == Publishing {
      hide Batch;
      assert t.events[id] == s.events[id];
      var w, p: nat :| Holds(s, w, p, id);
      assert Holds(t, w, p, id);
    }
  }

  lemma RecordKeepsCarried(s: State, v: Worker, times: seq<nat>, id: EventId)
    requires OutboxSafety.Inv(s) && ScheduleInv(s, times, id) && IsCarried(s, id) && !Abandons(s, Record(v), id)
    ensures IsCarried(Apply(s, Record(v)), id)
  {
    var t := Apply(s, Record(v));
    if t != s && t.events[id].status == Publishing && !Holds(s, v, 0, id) {
      hide OutboxSafety.Inv, ScheduleInv;
      assert s.events[id].status == Publishing;
      var w, p: nat :| Holds(s, w, p, id);
      assert w == v ==> v in t.workers;
      assert Holds(t, w, if w == v then p - 1 else p, id);
    }
  }

  lemma ApplyKeepsCarried(s: State, step: Step, times: seq<nat>, id: EventId)
    requires OutboxSafety.Inv(s) && ScheduleInv(s, times, id) && IsCarried(s, id) && !Abandons(s, step, id)
    ensures IsCarried(Apply(s, step), id)
  {
    if step.Claim? {
      hide OutboxSafety.Inv, ScheduleInv, IsCarried, Apply;
      ClaimKeepsCarried(s, step, times, id);
    } else if step.Record? {
      hide OutboxSafety.Inv, ScheduleInv, IsCarried, Apply;
      RecordKeepsCarried(s, step.worker, times, id);
    } else {
      var t := Apply(s, step);
      hide OutboxSafety.Inv;
      assert t.events[id] == s.events[id];
      if t.events[id].status == Publishing {
        var w, p: nat :| Holds(s, w, p, id);
        assert Holds(t, w, p, id);
      }
    }
  }

  lemma {:induction false} RunKeepsCarried(s: State, steps: seq<Step>, times: seq<nat>, id: EventId)
    requires OutboxSafety.Inv(s) && ScheduleInv(s, times, id) && IsCarried(s, id)
    requires FailsInTime(s, steps, id) && NeverAbandoned(s, steps, id)
    ensures IsCarried(Run(s, steps), id)
    decreases |steps|
  {
    hide OutboxSafety.Inv, ScheduleInv, IsCarried, Abandons, Apply, StepFailsInTime;
    if steps != [] {
      OutboxSafety.ApplyKeepsInv(s, steps[0]);
      ApplyKeepsSchedule(s, steps[0], times, id);
      ApplyKeepsCarried(s, steps[0], times, id);
      RunKeepsCarried(Apply(s, steps[0]), steps[1..], times + ClaimTime(s, steps[0], id), id);
    }
  }

  /** If publishing an event always fails, its k-th and (k+1)-th claims are at least 2^min(k, 8)
      seconds apart, and it is claimed at most max_attempts times. Unless a worker dies with it, it is
      publishing exactly while a worker has it; and once none has, it is failed exactly if it was
      claimed max_attempts times, and otherwise pending. */
  lemma FailingEventBacksOffAndFails(s: State, steps: seq<Step>, id: EventId)
    requires OutboxSafety.Inv(s) && s.maxAttempts >= 1
    requires id in s.events && s.events[id].status == Pending && s.events[id].attempts == 0 && Idle(s, id)
    requires FailsInTime(s, steps, id)
    ensures
      var times, t := ClaimTimes(s, steps, id), Run(s, steps);
      && Spaced(times) && |times| <= s.maxAttempts
      && id in t.events && t.events[id].attempts == |times|
      && (t.events[id].status == Failed ==> |times| == s.maxAttempts)
      && (t.events[id].status == Pending ==> |times| < s.maxAttempts)
      && t.events[id].status != Published
      && (NeverAbandoned(s, steps, id) ==>
            && (t.events[id].status == Publishing <==> !Idle(t, id))
            && (Idle(t, id) ==> t.events[id].status == if |times| == s.maxAttempts then Failed else Pending))
  {
    assert ScheduleInv(s, [], id);
    RunKeepsSchedule(s, steps, [], id);
    assert [] + ClaimTimes(s, steps, id) == ClaimTimes(s, steps, id);
    OutboxSafety.RunKeepsInv(s, steps);
    if NeverAbandoned(s, steps, id) {
      RunKeepsCarried(s, steps, [], id);
    }
    hide OutboxSafety.Inv, Apply, FailsInTime, NeverAbandoned;
  }

  // ----- Attempts past the maximum -----

  /** The claim takes over an event whose lease has ended and whose attempts are used up. */
  predicate TakesOverSpent(s: State, step: Step, id: EventId) {
    Claims(s, step, id) && id in s.events && s.events[id].status == Publishing && s.events[id].attempts >= s.maxAttempts
  }

  predicate EverTakesOverSpent(s: State, steps: seq<Step>, id: EventId)
    decreases |steps|
  {
    steps != [] && (TakesOverSpent(s, steps[0], id) || EverTakesOverSpent(Apply(s, steps[0]), steps[1..], id))
  }

  predicate WithinMaximum(s: State, id: EventId) {
    id in s.events ==> s.events[id].attempts <= s.maxAttempts
  }

  /** With serial records a claim brings an event's attempts past the maximum exactly if it takes over a
      publishing event whose attempts are used up. */
  lemma ClaimExceedsIffSpent(s: State, step: Step, id: EventId)
    requires OutboxSafety.Inv(s) && s.maxAttempts >= 1 && Claims(s, step, id)
    ensures id in Apply(s, step).events
    ensures Apply(s, step).events[id].attempts > s.maxAttempts <==> TakesOverSpent(s, step, id)
  {
    ClaimedIsLeased(s, step, id);
    assert OutboxSafety.EventInv(s, id);
    hide Batch, OutboxSafety.Inv;
  }

  lemma StepExceedsIffSpent(s: State, step: Step, id: EventId)
    requires OutboxSafety.Inv(s) && s.maxAttempts >= 1 && WithinMaximum(s, id)
    ensures WithinMaximum(Apply(s, step), id) <==> !TakesOverSpent(s, step, id)
  {
    if Claims(s, step, id) {
      ClaimExceedsIffSpent(s, step, id);
    }
    hide Batch, OutboxSafety.Inv;
  }

  /** Over every run with serial records: the attempts of an event pass the maximum exactly if some
      claim took it over from a late worker when they were already used up. */
  lemma {:induction false} AttemptsExceedIffSpentTakenOver(s: State, steps: seq<Step>, id: EventId)
    requires OutboxSafety.Inv(s) && s.maxAttempts >= 1 && WithinMaximum(s, id)
    ensures WithinMaximum(Run(s, steps), id) <==> !EverTakesOverSpent(s, steps, id)
    decreases |steps|
  {
    if steps != [] {
      var t := Apply(s, steps[0]);
      OutboxSafety.ApplyKeepsInv(s, steps[0]);
      StepExceedsIffSpent(s, steps[0], id);
      hide OutboxSafety.Inv, Apply, TakesOverSpent;
      if WithinMaximum(t, id) {
        AttemptsExceedIffSpentTakenOver(t, steps[1..], id);
      } else {
        OutboxSafety.RunKeepsInv(t, steps[1..]);
      }
    }
  }

  /** In particular they stay within it in every such run in which each claim finds the event given back. */
  lemma {:induction false} GivenBackStaysWithinMaximum(s: State, steps: seq<Step>, id: EventId)
    requires OutboxSafety.Inv(s) && s.maxAttempts >= 1 && WithinMaximum(s, id) && ClaimedOnlyPending(s, steps, id)
    ensures WithinMaximum(Run(s, steps), id)
  {
    AttemptsExceedIffSpentTakenOver(s, steps, id);
    NeverTakesOverSpent(s, steps, id);
  }

  predicate ClaimedOnlyPending(s: State, steps: seq<Step>, id: EventId)
    decreases |steps|
  {
    steps == []
    || ((Claims(s, steps[0], id) ==> id in s.events && s.events[id].status == Pending)
        && ClaimedOnlyPending(Apply(s, steps[0]), steps[1..], id))
  }

  lemma {:induction false} NeverTakesOverSpent(s: State, steps: seq<Step>, id: EventId)
    requires ClaimedOnlyPending(s, steps, id)
    ensures !EverTakesOverSpent(s, steps, id)
    decreases |steps|
  {
    hide Apply, Claims;
    if steps != [] { NeverTakesOverSpent(Apply(s, steps[0]), steps[1..], id); }
  }

  /** It happens, and without a crash: with one attempt allowed, the event is claimed a second time when
      the lease of the first worker has ended, who is still at work. */
  lemma AttemptsCanExceedTheMaximum(s: State, key: Key)
    requires Init(s) && s.maxAttempts == 1
    ensures
      var steps := [Enqueue(7, key, "", None, 0, 0), Claim(1, 0, 1, 120, None, {}), Claim(2, 120, 1, 120, None, {})];
      var t := Run(s, steps);
      && 7 in t.events && t.events[7].attempts == 2 > s.maxAttempts
      && 1 in t.workers && t.workers[1].queue == [Claimed(7, 1)]
  {
    var a := Enqueue(7, key, "", None, 0, 0);
    var b, c := Claim(1, 0, 1, 120, None, {}), Claim(2, 120, 1, 120, None, {});
    var s1 := Apply(s, a);
    assert s1.events == map[7 := EnqueuedEvent(a)];
    TheOnlyEventIsClaimed(s1.events, 7, 0);
    var s2 := Apply(s1, b);
    assert s2.events == map[7 := EnqueuedEvent(a).(status := Publishing, attempts := 1, lease := Some(120))];
    TheOnlyCopy(s2.events, 7);
    assert s2.workers == map[1 := Delivery(0, [Claimed(7, 1)], None, Tally(1, 0, 0, 0))];
    TheOnlyEventIsClaimed(s2.events, 7, 120);
    var s3 := Apply(s2, c);
    assert s3.workers[1] == s2.workers[1];
    hide Apply;
    assert [a, b, c][1..] == [b, c] && [b, c][1..] == [c] && [c][1..] == [];
    assert Run(s, [a, b, c]) == Run(s1, [b, c]) == Run(s2, [c]) == s3;
  }
}
