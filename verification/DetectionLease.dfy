/** The lease on an opportunity-detection run, app/workflows/opportunity_detection.py.

    Every call of `process` draws a fresh owner token, which also names the worker here. Between
    its claim and its end a worker renews, completes, stops or gives the run back in any order and
    at any time, and may die anywhere: this allows every schedule that the code allows. */
module DetectionLease {
  import opened Options

  type RunId = nat
  type Token = nat

  datatype Status = Pending | Running | Completed | Stopped | Failed

  datatype Row = Row(isDetection: bool, workspace: nat, product: nat, status: Status,
                     owner: Option<Token>, expiresAt: Option<nat>, asOf: Option<nat>, failure: bool)

  /** A live call after its claim, with the cutoff it works with. */
  datatype Worker = Worker(run: RunId, asOf: nat)

  datatype State = State(duration: nat, rows: map<RunId, Row>, workers: map<Token, Worker>, used: set<Token>)

  datatype Step =
    | Claim(token: Token, run: RunId, workspace: nat, product: nat, now: nat)
    | Renew(token: Token, now: nat)
    | Complete(token: Token)
    | Stop(token: Token)
    | GiveBack(token: Token)
    | Crash(token: Token)

  datatype Reply = Claimed(asOf: nat) | NotFound | TenantMismatch | Ended(status: Status) | Busy

  const TERMINAL := {Completed, Stopped, Failed}

  function ClaimReply(rows: map<RunId, Row>, run: RunId, workspace: nat, product: nat, now: nat): Reply {
    if run !in rows || !rows[run].isDetection then NotFound
    else
      var row := rows[run];
      if row.workspace != workspace || row.product != product then TenantMismatch
      else if row.status in TERMINAL then Ended(row.status)
      else if row.status == Running && row.expiresAt.Some? && row.expiresAt.value > now then Busy
      else Claimed(if row.asOf.Some? then row.asOf.value else now)
  }

  function ClaimedRow(row: Row, token: Token, now: nat, duration: nat): Row {
    row.(status := Running, owner := Some(token), expiresAt := Some(now + duration),
         asOf := if row.asOf.Some? then row.asOf else Some(now), failure := false)
  }

  function Unleased(row: Row, status: Status): Row {
    row.(status := status, owner := None, expiresAt := None)
  }

  /** The WHERE clauses of the later writes. */
  predicate Owns(rows: map<RunId, Row>, run: RunId, token: Token) {
    run in rows && rows[run].owner == Some(token)
  }

  function Apply(s: State, step: Step): State {
    match step
    case Claim(token, run, workspace, product, now) =>
      if token in s.used then s
      else
        var t := s.(used := s.used + {token});
        var reply := ClaimReply(s.rows, run, workspace, product, now);
        if reply.Claimed? && run in s.rows then
          t.(rows := s.rows[run := ClaimedRow(s.rows[run], token, now, s.duration)],
             workers := s.workers[token := Worker(run, reply.asOf)])
        else if reply.Ended? && run in s.rows then
          t.(rows := s.rows[run := Unleased(s.rows[run], s.rows[run].status)])
        else t
    case Renew(token, now) =>
      if token !in s.workers || !Owns(s.rows, s.workers[token].run, token)
          || s.rows[s.workers[token].run].status != Running then s
      else
        var run := s.workers[token].run;
        s.(rows := s.rows[run := s.rows[run].(expiresAt := Some(now + s.duration))])
    case Complete(token) =>
      // `persist_detection` rolls back unless the caller still owns the run.
      if token !in s.workers || !Owns(s.rows, s.workers[token].run, token) then s
      else
        var run := s.workers[token].run;
        s.(rows := s.rows[run := Unleased(s.rows[run], Completed)], workers := s.workers - {token})
    case Stop(token) =>
      if token !in s.workers then s
      else
        var run := s.workers[token].run;
        s.(rows := if Owns(s.rows, run, token) then s.rows[run := Unleased(s.rows[run], Stopped)] else s.rows,
           workers := s.workers - {token})
    case GiveBack(token) =>
      if token !in s.workers then s
      else
        var run := s.workers[token].run;
        s.(rows := if Owns(s.rows, run, token) && s.rows[run].status != Completed
                   then s.rows[run := Unleased(s.rows[run], Pending).(failure := true)] else s.rows,
           workers := s.workers - {token})
    case Crash(token) =>
      s.(workers := s.workers - {token})
  }

  function Run(s: State, steps: seq<Step>): State
    decreases |steps|
  {
    if steps == [] then s else Run(Apply(s, steps[0]), steps[1..])
  }

  // ----- What every run keeps -----

  /** operator_runs_lease_pair, and every owner is a token that has been drawn. */
  ghost predicate RowInv(s: State, run: RunId)
    requires run in s.rows
  {
    var row := s.rows[run];
    && (row.owner.Some? <==> row.expiresAt.Some?)
    && (row.owner.Some? ==> row.owner.value in s.used)
  }

  ghost predicate WorkerInv(s: State, token: Token)
    requires token in s.workers
  {
    var w := s.workers[token];
    && token in s.used && w.run in s.rows && s.rows[w.run].asOf == Some(w.asOf)
    && (forall run :: run in s.rows && s.rows[run].owner == Some(token) ==> run == w.run)
  }

  ghost predicate Inv(s: State) {
    && (forall run :: run in s.rows ==> RowInv(s, run))
    && (forall token :: token in s.workers ==> WorkerInv(s, token))
  }

  /** Any table of runs, before any call; leases left over from before are allowed. */
  ghost predicate Init(s: State) {
    s.workers == map[] && forall run :: run in s.rows ==> RowInv(s, run)
  }

  lemma ClaimKeepsInv(s: State, step: Step)
    requires Inv(s) && step.Claim?
    ensures Inv(Apply(s, step))
  {
    var t := Apply(s, step);
    forall run | run in t.rows
      ensures RowInv(t, run)
    {
      assert RowInv(s, run);
    }
    forall token | token in t.workers
      ensures WorkerInv(t, token)
    {
      if token in s.workers { assert WorkerInv(s, token); }
      if token == step.token {
        forall run | run in t.rows && t.rows[run].owner == Some(token)
          ensures run == t.workers[token].run
        {
          assert RowInv(s, run);
        }
      }
    }
  }

  lemma OwnersStepKeepsInv(s: State, step: Step)
    requires Inv(s) && !step.Claim?
    ensures Inv(Apply(s, step))
  {
    var t := Apply(s, step);
    forall run | run in t.rows
      ensures RowInv(t, run)
    {
      assert RowInv(s, run);
    }
    forall token | token in t.workers
      ensures WorkerInv(t, token)
    {
      assert WorkerInv(s, token);
    }
  }

  lemma ApplyKeepsInv(s: State, step: Step)
    requires Inv(s)
    ensures Inv(Apply(s, step))
  {
    hide Inv, Apply;
    if step.Claim? { ClaimKeepsInv(s, step); } else { OwnersStepKeepsInv(s, step); }
  }

  lemma {:induction false} RunKeepsInv(s: State, steps: seq<Step>)
    requires Inv(s)
    ensures Inv(Run(s, steps))
    decreases |steps|
  {
    if steps != [] {
      hide Inv, Apply;
      ApplyKeepsInv(s, steps[0]);
      RunKeepsInv(Apply(s, steps[0]), steps[1..]);
    }
  }

  // ----- Mutual exclusion -----

  predicate Holds(s: State, run: RunId, token: Token, until: nat) {
    run in s.rows && s.rows[run].owner == Some(token) && s.rows[run].status == Running
    && s.rows[run].expiresAt.Some? && s.rows[run].expiresAt.value >= until
  }

  /** The step is not the holder's own end, and its clock reads less than `until` if it claims, and
      not less than at the holder's last renewal if it renews. */
  predicate Before(step: Step, token: Token, until: nat, duration: nat) {
    match step
    case Claim(_, _, _, _, now) => now < until
    case Renew(t, now) => t == token ==> now + duration >= until
    case Complete(t) => t != token
    case Stop(t) => t != token
    case GiveBack(t) => t != token
    case Crash(_) => true
  }

  lemma ApplyKeepsHold(s: State, step: Step, run: RunId, token: Token, until: nat)
    requires Inv(s) && Holds(s, run, token, until) && Before(step, token, until, s.duration)
    ensures Holds(Apply(s, step), run, token, until)
    ensures step.Claim? && step.run == run ==> !ClaimReply(s.rows, run, step.workspace, step.product, step.now).Claimed?
  {
    hide Inv;
  }

  /** While a lease is unexpired no other worker claims the run: the owner keeps it, whatever the
      others attempt and even if the owner has died. */
  lemma {:induction false} UnexpiredLeaseExcludesOthers(s: State, steps: seq<Step>, run: RunId, token: Token,
                                                        until: nat)
    requires Inv(s) && Holds(s, run, token, until)
    requires forall i :: 0 <= i < |steps| ==> Before(steps[i], token, until, s.duration)
    ensures Holds(Run(s, steps), run, token, until)
    decreases |steps|
  {
    if steps != [] {
      hide Inv, Before, Holds;
      var t := Apply(s, steps[0]);
      assert t.duration == s.duration;
      ApplyKeepsInv(s, steps[0]);
      ApplyKeepsHold(s, steps[0], run, token, until);
      UnexpiredLeaseExcludesOthers(t, steps[1..], run, token, until);
    }
  }

  // ----- Fencing -----

  /** The token was drawn, and owns no run. */
  ghost predicate Lost(s: State, token: Token) {
    token in s.used && forall run :: run in s.rows ==> s.rows[run].owner != Some(token)
  }

  lemma ApplyKeepsLost(s: State, step: Step, token: Token)
    requires Lost(s, token)
    ensures Lost(Apply(s, step), token)
  {
  }

  /** Once its lease is gone - taken over, completed, stopped or given back - a worker never owns a
      run again, and none of its later writes changes a row. */
  lemma {:induction false} LostWorkerIsFenced(s: State, steps: seq<Step>, token: Token, now: nat)
    requires Lost(s, token)
    ensures
      var t := Run(s, steps);
      && Lost(t, token)
      && Apply(t, Renew(token, now)).rows == t.rows
      && Apply(t, Complete(token)).rows == t.rows
      && Apply(t, Stop(token)).rows == t.rows
      && Apply(t, GiveBack(token)).rows == t.rows
    decreases |steps|
  {
    if steps != [] {
      ApplyKeepsLost(s, steps[0], token);
      LostWorkerIsFenced(Apply(s, steps[0]), steps[1..], token, now);
    }
  }

  /** A takeover is such a loss. */
  lemma TakeoverFencesTheOldOwner(s: State, claim: Step, owner: Token)
    requires Inv(s) && claim.Claim? && claim.token !in s.used && owner in s.workers
    requires Owns(s.rows, claim.run, owner) && s.workers[owner].run == claim.run
    requires ClaimReply(s.rows, claim.run, claim.workspace, claim.product, claim.now).Claimed?
    ensures Lost(Apply(s, claim), owner)
    ensures s.rows[claim.run].status == Running ==>
      s.rows[claim.run].expiresAt.Some? && s.rows[claim.run].expiresAt.value <= claim.now
  {
    assert WorkerInv(s, owner) && RowInv(s, claim.run);
    hide Inv;
  }

  // ----- The cutoff -----

  /** as_of is written once, and every call that ever works on the run uses that cutoff. */
  lemma {:induction false} CutoffIsWrittenOnce(s: State, steps: seq<Step>, run: RunId, token: Token)
    requires Inv(s) && run in s.rows && s.rows[run].asOf.Some?
    ensures run in Run(s, steps).rows && Run(s, steps).rows[run].asOf == s.rows[run].asOf
    ensures token in Run(s, steps).workers && Run(s, steps).workers[token].run == run ==>
      Some(Run(s, steps).workers[token].asOf) == s.rows[run].asOf
    decreases |steps|
  {
    if steps == [] {
      if token in s.workers { assert WorkerInv(s, token); }
    } else {
      ApplyKeepsInv(s, steps[0]);
      ApplyKeepsCutoff(s, steps[0], run);
      hide Inv, Apply;
      CutoffIsWrittenOnce(Apply(s, steps[0]), steps[1..], run, token);
    }
  }

  lemma ApplyKeepsCutoff(s: State, step: Step, run: RunId)
    requires run in s.rows && s.rows[run].asOf.Some?
    ensures run in Apply(s, step).rows && Apply(s, step).rows[run].asOf == s.rows[run].asOf
  {
  }

  // ----- Terminal runs -----

  /** Only running runs are leased. */
  ghost predicate NoStaleLease(s: State) {
    forall run :: run in s.rows && s.rows[run].owner.Some? ==> s.rows[run].status == Running
  }

  /** A run that has ended stays as it ended, provided that no lease was left on an ended run at
      the start; the claim's clearing of stale leases is never needed then. */
  lemma {:induction false} EndedRunsNeverChange(s: State, steps: seq<Step>, run: RunId)
    requires Inv(s) && NoStaleLease(s) && run in s.rows && s.rows[run].status in TERMINAL
    ensures run in Run(s, steps).rows && Run(s, steps).rows[run] == s.rows[run]
    ensures NoStaleLease(Run(s, steps))
    decreases |steps|
  {
    if steps != [] {
      ApplyKeepsInv(s, steps[0]);
      EndedRunsSurvive(s, steps[0], run);
      hide Inv, Apply, NoStaleLease;
      EndedRunsNeverChange(Apply(s, steps[0]), steps[1..], run);
    }
  }

  lemma EndedRunsSurvive(s: State, step: Step, run: RunId)
    requires Inv(s) && NoStaleLease(s) && run in s.rows && s.rows[run].status in TERMINAL
    ensures run in Apply(s, step).rows && Apply(s, step).rows[run] == s.rows[run]
    ensures NoStaleLease(Apply(s, step))
  {
    assert RowInv(s, run);
    hide Inv;
  }

  // ----- The table and the workflow's transactions -----

  class RunTable {
    var rows: map<RunId, Row>
    var workers: map<Token, Worker>
    ghost var used: set<Token>
    const duration: nat

    ghost function Abs(): State
      reads this
    {
      State(duration, rows, workers, used)
    }

    /** Runs that no call has worked on yet. */
    constructor (rows: map<RunId, Row>, duration: nat)
      requires forall run :: run in rows ==> rows[run].owner.None? && rows[run].expiresAt.None?
      ensures Init(Abs()) && this.rows == rows && this.duration == duration
    {
      this.rows, this.duration := rows, duration;
      workers, used := map[], {};
    }

    method ClaimRun(token: Token, run: RunId, workspace: nat, product: nat, now: nat) returns (reply: Reply)
      requires token !in used
      modifies this
      ensures Abs() == Apply(old(Abs()), Claim(token, run, workspace, product, now))
      ensures reply == ClaimReply(old(rows), run, workspace, product, now)
    {
      used := used + {token};
      if run !in rows || !rows[run].isDetection {
        return NotFound;
      }
      var row := rows[run];
      if row.workspace != workspace || row.product != product {
        return TenantMismatch;
      }
      if row.status in TERMINAL {
        if row.owner.Some? || row.expiresAt.Some? {
          rows := rows[run := row.(owner := None, expiresAt := None)];
        }
        assert rows == old(rows)[run := Unleased(row, row.status)];
        return Ended(row.status);
      }
      if row.status == Running && row.expiresAt.Some? && row.expiresAt.value > now {
        return Busy;
      }
      row := row.(status := Running, owner := Some(token), expiresAt := Some(now + duration), failure := false);
      if row.asOf.None? {
        row := row.(asOf := Some(now));
      }
      rows := rows[run := row];
      workers := workers[token := Worker(run, row.asOf.value)];
      return Claimed(row.asOf.value);
    }

    method RenewLease(token: Token, now: nat) returns (kept: bool)
      requires token in workers
      modifies this
      ensures Abs() == Apply(old(Abs()), Renew(token, now))
      ensures kept <==>
        Owns(old(rows), old(workers[token].run), token) && old(rows)[old(workers[token].run)].status == Running
    {
      var run := workers[token].run;
      kept := run in rows && rows[run].status == Running && rows[run].owner == Some(token);
      if kept {
        rows := rows[run := rows[run].(expiresAt := Some(now + duration))];
      }
    }

    method StopRun(token: Token) returns (stopped: bool)
      requires token in workers
      modifies this
      ensures Abs() == Apply(old(Abs()), Stop(token))
      ensures stopped <==> Owns(old(rows), old(workers[token].run), token)
    {
      var run := workers[token].run;
      stopped := run in rows && rows[run].owner == Some(token);
      if stopped {
        rows := rows[run := rows[run].(status := Stopped, owner := None, expiresAt := None)];
      }
      workers := workers - {token};
    }

    method GiveBackRun(token: Token)
      requires token in workers
      modifies this
      ensures Abs() == Apply(old(Abs()), GiveBack(token))
    {
      var run := workers[token].run;
      if run in rows && rows[run].owner == Some(token) && rows[run].status != Completed {
        rows := rows[run := rows[run].(status := Pending, failure := true, owner := None, expiresAt := None)];
      }
      workers := workers - {token};
    }
  }
}
