/** `deliver_stored_digest` in app/modules/achievement_digests/services/delivery.py: mark the
    intent, send, record the outcome.

    A call is two transactions around one provider call. Any number of workers may be anywhere in
    a call, and a worker may die between any two of its steps. */
module DigestDelivery {
  import Fresh
  import opened Options

  type DigestId = nat
  type WorkspaceId = nat
  type Worker = nat

  datatype Status = Pending | Delivered | Failed | UnknownOutcome | Suppressed

  datatype Row = Row(workspace: WorkspaceId, shouldSend: bool, status: Option<Status>,
                     providerId: Option<nat>, sentAt: Option<nat>)

  /** What `sender.send` did: it returned an id, raised EmailSendOutcomeUnknown, or raised
      anything else. */
  datatype Outcome = Accepted(providerId: Option<nat>) | Uncertain | Refused

  /** One provider call, and whether its outcome has reached the row. */
  datatype SendEvent = SendEvent(digest: DigestId, outcome: Outcome, recorded: bool)

  /** Where a live call stands: intent committed and about to send, or back from send number
      `event` with the outcome still in memory. */
  datatype Phase = Marked(digest: DigestId) | Returned(digest: DigestId, event: nat)

  datatype State = State(rows: map<DigestId, Row>, workers: map<Worker, Phase>, sends: seq<SendEvent>)

  datatype Step =
    | Begin(worker: Worker, workspace: WorkspaceId, digest: DigestId)
    | Send(worker: Worker, outcome: Outcome)
    | Record(worker: Worker, at: nat)
    | Crash(worker: Worker)

  // ----- One transaction or provider call at a time -----

  predicate Readable(rows: map<DigestId, Row>, workspace: WorkspaceId, digest: DigestId) {
    digest in rows && rows[digest].workspace == workspace && rows[digest].shouldSend
  }

  /** The reply with which a call ends in its first transaction, or None if it goes on to send. */
  function FirstReply(rows: map<DigestId, Row>, workspace: WorkspaceId, digest: DigestId): Option<Status> {
    if !Readable(rows, workspace, digest) then Some(Suppressed)
    else
      var row := rows[digest];
      if row.sentAt.Some? || row.status in {Some(Delivered), Some(UnknownOutcome), Some(Suppressed)} then
        if row.status.Some? then row.status else Some(Delivered)
      else if row.status == Some(Pending) then Some(UnknownOutcome)
      else None
  }

  function FirstRow(row: Row, reply: Option<Status>): Row {
    if reply.None? then row.(status := Some(Pending))
    else if row.status == Some(Pending) && row.sentAt.None? then row.(status := Some(UnknownOutcome))
    else row
  }

  function RecordedRow(row: Row, outcome: Outcome, at: nat): Row {
    match outcome
    case Uncertain => row.(status := Some(UnknownOutcome))
    case Refused => row.(status := Some(Failed))
    case Accepted(id) => row.(status := Some(Delivered), providerId := id, sentAt := Some(at))
  }

  function Apply(s: State, step: Step): State {
    match step
    case Begin(w, workspace, d) =>
      if w in s.workers || !Readable(s.rows, workspace, d) then s
      else
        var reply := FirstReply(s.rows, workspace, d);
        s.(rows := s.rows[d := FirstRow(s.rows[d], reply)],
           workers := if reply.None? then s.workers[w := Marked(d)] else s.workers)
    case Send(w, outcome) =>
      if w in s.workers && s.workers[w].Marked? then
        var d := s.workers[w].digest;
        s.(workers := s.workers[w := Returned(d, |s.sends|)],
           sends := s.sends + [SendEvent(d, outcome, false)])
      else s
    case Record(w, at) =>
      if w in s.workers && s.workers[w].Returned? && s.workers[w].digest in s.rows
         && s.workers[w].event < |s.sends| then
        var Returned(d, e) := s.workers[w];
        s.(rows := s.rows[d := RecordedRow(s.rows[d], s.sends[e].outcome, at)],
           workers := s.workers - {w},
           sends := s.sends[e := s.sends[e].(recorded := true)])
      else s
    case Crash(w) =>
      s.(workers := s.workers - {w})
  }

  function Run(s: State, steps: seq<Step>): State
    decreases |steps|
  {
    if steps == [] then s else Run(Apply(s, steps[0]), steps[1..])
  }

  /** Any table, before any call. */
  ghost predicate Init(s: State) {
    s.workers == map[] && s.sends == []
  }

  // ----- The table and its transactions as the service runs them -----

  class DigestTable {
    var rows: map<DigestId, Row>
    var workers: map<Worker, Phase>
    var sends: seq<SendEvent>

    ghost function Abs(): State
      reads this
    {
      State(rows, workers, sends)
    }

    constructor (rows: map<DigestId, Row>)
      ensures Init(Abs()) && this.rows == rows
    {
      this.rows := rows;
      workers, sends := map[], [];
    }

    method BeginDelivery(worker: Worker, workspace: WorkspaceId, digest: DigestId)
      returns (reply: Option<Status>)
      requires worker !in workers
      modifies this
      ensures Abs() == Apply(old(Abs()), Begin(worker, workspace, digest))
      ensures reply == FirstReply(old(rows), workspace, digest)
    {
      if !Readable(rows, workspace, digest) {
        return Some(Suppressed);
      }
      var row := rows[digest];
      if row.sentAt.Some? || row.status in {Some(Delivered), Some(UnknownOutcome), Some(Suppressed)} {
        assert rows == rows[digest := row];
        return if row.status.Some? then row.status else Some(Delivered);
      }
      if row.status == Some(Pending) {
        rows := rows[digest := row.(status := Some(UnknownOutcome))];
        return Some(UnknownOutcome);
      }
      rows := rows[digest := row.(status := Some(Pending))];
      workers := workers[worker := Marked(digest)];
      return None;
    }

    /** The provider call; its outcome is the environment's choice. */
    method SendDigest(worker: Worker, outcome: Outcome)
      requires worker in workers && workers[worker].Marked?
      modifies this
      ensures Abs() == Apply(old(Abs()), Send(worker, outcome))
    {
      var digest := workers[worker].digest;
      workers := workers[worker := Returned(digest, |sends|)];
      sends := sends + [SendEvent(digest, outcome, false)];
    }

    method RecordOutcome(worker: Worker, at: nat) returns (reply: Option<Status>)
      requires worker in workers && workers[worker].Returned?
      requires workers[worker].digest in rows && workers[worker].event < |sends|
      modifies this
      ensures Abs() == Apply(old(Abs()), Record(worker, at))
      // The call raises, and so replies nothing, exactly when the provider refused.
      ensures reply == match old(sends[workers[worker].event].outcome)
                       case Accepted(_) => Some(Delivered)
                       case Uncertain => Some(UnknownOutcome)
                       case Refused => None
      ensures reply.Some? ==> reply == rows[old(workers[worker].digest)].status
    {
      var Returned(digest, event) := workers[worker];
      var row := rows[digest];
      match sends[event].outcome {
        case Uncertain =>
          rows := rows[digest := row.(status := Some(UnknownOutcome))];
          reply := Some(UnknownOutcome);
        case Refused =>
          rows := rows[digest := row.(status := Some(Failed))];
          reply := None;
        case Accepted(id) =>
          rows := rows[digest := row.(status := Some(Delivered), providerId := id, sentAt := Some(at))];
          reply := Some(Delivered);
      }
      workers := workers - {worker};
      sends := sends[event := sends[event].(recorded := true)];
    }
  }

  // ----- What every run keeps -----

  /** The only kind of send after which another may follow: a failure the row has been told of. */
  predicate KnownFailure(e: SendEvent) {
    e.outcome == Refused && e.recorded
  }

  ghost predicate WorkerInv(s: State, w: Worker)
    requires w in s.workers
  {
    var p := s.workers[w];
    && p.digest in s.rows
    && s.rows[p.digest].status in {Some(Pending), Some(UnknownOutcome)}
    && s.rows[p.digest].sentAt.None?
    && (p.Returned? ==> p.event < |s.sends| && s.sends[p.event].digest == p.digest && !s.sends[p.event].recorded)
  }

  ghost predicate SendInv(s: State, i: nat)
    requires i < |s.sends|
  {
    var d := s.sends[i].digest;
    && d in s.rows
    && (!KnownFailure(s.sends[i]) ==>
          && (s.rows[d].status in {Some(Pending), Some(UnknownOutcome), Some(Delivered)})
          && (forall w :: w in s.workers && s.workers[w].digest == d ==> s.workers[w] == Returned(d, i))
          && (forall j :: i < j < |s.sends| ==> s.sends[j].digest != d))
  }

  ghost predicate Inv(s: State) {
    && (forall w :: w in s.workers ==> WorkerInv(s, w))
    && (forall w, v :: w in s.workers && v in s.workers && s.workers[w].digest == s.workers[v].digest ==> w == v)
    && (forall i :: 0 <= i < |s.sends| ==> SendInv(s, i))
  }

  lemma ApplyKeepsInv(s: State, step: Step)
    requires Inv(s)
    ensures Inv(Apply(s, step))
  {
    match step
    case Begin(w, workspace, d) => BeginKeepsInv(s, w, workspace, d);
    case Send(w, outcome) => SendKeepsInv(s, w, outcome);
    case Record(w, at) => RecordKeepsInv(s, w, at);
    case Crash(w) => CrashKeepsInv(s, w);
  }

  lemma BeginKeepsInv(s: State, w: Worker, workspace: WorkspaceId, d: DigestId)
    requires Inv(s)
    ensures Inv(Apply(s, Begin(w, workspace, d)))
  {
    var t := Apply(s, Begin(w, workspace, d));
    forall v | v in t.workers
      ensures WorkerInv(t, v)
    {
      if v in s.workers { assert WorkerInv(s, v); }
    }
    forall i | 0 <= i < |t.sends|
      ensures SendInv(t, i)
    {
      assert SendInv(s, i);
    }
  }

  lemma SendKeepsInv(s: State, w: Worker, outcome: Outcome)
    requires Inv(s)
    ensures Inv(Apply(s, Send(w, outcome)))
  {
    if w in s.workers && s.workers[w].Marked? {
      var t := Apply(s, Send(w, outcome));
      assert WorkerInv(s, w);
      forall v | v in t.workers
        ensures WorkerInv(t, v)
      {
        assert WorkerInv(s, v);
      }
      forall i | 0 <= i < |t.sends|
        ensures SendInv(t, i)
      {
        if i < |s.sends| { assert SendInv(s, i); }
      }
    }
  }

  lemma RecordKeepsInv(s: State, w: Worker, at: nat)
    requires Inv(s)
    ensures Inv(Apply(s, Record(w, at)))
  {
    if w in s.workers && s.workers[w].Returned? {
      var t := Apply(s, Record(w, at));
      assert WorkerInv(s, w);
      forall v | v in t.workers
        ensures WorkerInv(t, v)
      {
        assert WorkerInv(s, v);
      }
      forall i | 0 <= i < |t.sends|
        ensures SendInv(t, i)
      {
        assert SendInv(s, i);
      }
    }
  }

  lemma CrashKeepsInv(s: State, w: Worker)
    requires Inv(s)
    ensures Inv(Apply(s, Crash(w)))
  {
    var t := Apply(s, Crash(w));
    forall v | v in t.workers
      ensures WorkerInv(t, v)
    {
      assert WorkerInv(s, v);
    }
    forall i | 0 <= i < |t.sends|
      ensures SendInv(t, i)
    {
      assert SendInv(s, i);
    }
  }

  lemma {:induction false} RunKeepsInv(s: State, steps: seq<Step>)
    requires Inv(s)
    ensures Inv(Run(s, steps))
    decreases |steps|
  {
    if steps != [] {
      ApplyKeepsInv(s, steps[0]);
      RunKeepsInv(Apply(s, steps[0]), steps[1..]);
    }
  }

  /** At most once modulo known failures: whatever the interleaving and the crashes, two sends of
      one digest happen only if the first was refused and its refusal recorded. */
  lemma SentAtMostOnceModuloKnownFailures(s: State, steps: seq<Step>, i: nat, j: nat)
    requires Init(s)
    requires i < j < |Run(s, steps).sends|
    requires Run(s, steps).sends[i].digest == Run(s, steps).sends[j].digest
    ensures KnownFailure(Run(s, steps).sends[i])
  {
    RunKeepsInv(s, steps);
    assert SendInv(Run(s, steps), i);
  }

  // ----- What a row says about the provider -----

  ghost predicate Supports(e: SendEvent, d: DigestId, row: Row) {
    && e.digest == d && e.recorded
    && match e.outcome
       case Accepted(id) => row.status == Some(Delivered) && row.providerId == id && row.sentAt.Some?
       case Refused => row.status == Some(Failed)
       case Uncertain => row.status == Some(UnknownOutcome)
  }

  /** A row that says delivered or failed said so from the start, or a recorded send supports it. */
  ghost predicate Supported(was: Row, s: State, d: DigestId)
    requires d in s.rows
  {
    s.rows[d].status in {Some(Delivered), Some(Failed)} ==>
      s.rows[d] == was || exists i :: 0 <= i < |s.sends| && Supports(s.sends[i], d, s.rows[d])
  }

  lemma ApplyKeepsSupport(was: Row, s: State, step: Step, d: DigestId)
    requires Inv(s) && d in s.rows && Supported(was, s, d)
    ensures d in Apply(s, step).rows && Supported(was, Apply(s, step), d)
  {
    var t := Apply(s, step);
    if step.Record? && step.worker in s.workers && s.workers[step.worker].Returned? {
      var Returned(digest, event) := s.workers[step.worker];
      assert WorkerInv(s, step.worker);
      if digest == d {
        assert Supports(t.sends[event], d, t.rows[d]);
      }
    }
    if i :| 0 <= i < |s.sends| && Supports(s.sends[i], d, s.rows[d]) {
      assert t.rows[d] == s.rows[d] ==> Supports(t.sends[i], d, t.rows[d]);
    }
  }

  /** Over every run, "delivered" with its provider id and "failed" are never invented. */
  lemma {:induction false} RowsTellTheProvidersOutcome(was: Row, s: State, steps: seq<Step>, d: DigestId)
    requires Inv(s) && d in s.rows && Supported(was, s, d)
    ensures d in Run(s, steps).rows && Supported(was, Run(s, steps), d)
    decreases |steps|
  {
    if steps != [] {
      ApplyKeepsSupport(was, s, steps[0], d);
      ApplyKeepsInv(s, steps[0]);
      RowsTellTheProvidersOutcome(was, Apply(s, steps[0]), steps[1..], d);
    }
  }

  // ----- When a digest can be sent again -----

  predicate CanSendAgain(s: State, d: DigestId) {
    || (exists w :: w in s.workers && s.workers[w] == Marked(d))
    || (exists w :: w in s.workers && ReturnedRefused(s, w, d))
    || (d in s.rows && s.rows[d].shouldSend && s.rows[d].sentAt.None? && s.rows[d].status in {None, Some(Failed)})
  }

  predicate ReturnedRefused(s: State, w: Worker, d: DigestId) {
    && w in s.workers && s.workers[w].Returned? && s.workers[w].digest == d
    && s.workers[w].event < |s.sends| && s.sends[s.workers[w].event].outcome == Refused
    && d in s.rows && s.rows[d].shouldSend && s.rows[d].sentAt.None?
  }

  ghost predicate SendsMoreOf(s: State, steps: seq<Step>, d: DigestId) {
    exists i :: |s.sends| <= i < |Run(s, steps).sends| && Run(s, steps).sends[i].digest == d
  }

  lemma {:induction false} SendsOnlyGrow(s: State, steps: seq<Step>)
    ensures |s.sends| <= |Run(s, steps).sends|
    ensures forall i :: 0 <= i < |s.sends| ==> Run(s, steps).sends[i].digest == s.sends[i].digest
    decreases |steps|
  {
    if steps != [] { SendsOnlyGrow(Apply(s, steps[0]), steps[1..]); }
  }

  lemma ApplyKeepsClosed(s: State, step: Step, d: DigestId)
    requires Inv(s) && !CanSendAgain(s, d)
    ensures !CanSendAgain(Apply(s, step), d)
  {
    var t := Apply(s, step);
    forall w | w in t.workers
      ensures t.workers[w] != Marked(d) && !ReturnedRefused(t, w, d)
    {
      if w in s.workers {
        assert WorkerInv(s, w);
        assert s.workers[w] != Marked(d) && !ReturnedRefused(s, w, d);
        match step
        case Begin(v, workspace, e) =>
          assert t.workers[w] == s.workers[w];
        case Send(v, outcome) =>
          assert s.workers[w].Marked? ==> s.workers[w] == Marked(s.workers[w].digest);
        case Record(v, at) =>
          if v in s.workers { assert WorkerInv(s, v); }
          assert t.workers[w] == s.workers[w];
        case Crash(v) =>
          assert t.workers[w] == s.workers[w];
      } else {
        assert step.Begin? && t.workers[w] == Marked(step.digest);
        assert FirstReply(s.rows, step.workspace, step.digest).None?;
        var status := s.rows[step.digest].status;
        match status {
          case None =>
          case Some(Failed) =>
          case Some(Pending) =>
          case Some(Delivered) =>
          case Some(UnknownOutcome) =>
          case Some(Suppressed) =>
        }
      }
    }
    if step.Record? && step.worker in s.workers {
      assert WorkerInv(s, step.worker);
      assert !ReturnedRefused(s, step.worker, d);
    }
  }

  lemma {:induction false} ClosedStaysClosed(s: State, steps: seq<Step>, d: DigestId)
    requires Inv(s) && !CanSendAgain(s, d)
    ensures !SendsMoreOf(s, steps, d) && !CanSendAgain(Run(s, steps), d)
    decreases |steps|
  {
    if steps != [] {
      var t := Apply(s, steps[0]);
      ApplyKeepsInv(s, steps[0]);
      ApplyKeepsClosed(s, steps[0], d);
      ClosedStaysClosed(t, steps[1..], d);
      SendsOnlyGrow(t, steps[1..]);
    }
  }

  /** In every reachable state another send of a digest is possible exactly when a call is about to
      send, a refusal is still to be recorded, or the row is open. In particular the reply
      "unknown_outcome" does not by itself exclude another send. */
  lemma AnotherSendIffStillOpen(s: State, d: DigestId)
    requires Inv(s)
    ensures CanSendAgain(s, d) <==> exists steps :: SendsMoreOf(s, steps, d)
  {
    if CanSendAgain(s, d) {
      var steps := WayToSend(s, d);
    } else {
      forall steps
        ensures !SendsMoreOf(s, steps, d)
      {
        ClosedStaysClosed(s, steps, d);
      }
    }
  }

  lemma WayToSend(s: State, d: DigestId) returns (steps: seq<Step>)
    requires Inv(s) && CanSendAgain(s, d)
    ensures SendsMoreOf(s, steps, d)
  {
    if w :| w in s.workers && s.workers[w] == Marked(d) {
      steps := [Send(w, Refused)];
      assert Run(s, steps) == Apply(s, steps[0]);
      assert Run(s, steps).sends[|s.sends|].digest == d;
    } else if w :| w in s.workers && ReturnedRefused(s, w, d) {
      var t := Apply(s, Record(w, 0));
      var rest := WayFromOpen(t, d);
      steps := [Record(w, 0)] + rest;
      assert steps[1..] == rest;
      assert Run(s, steps) == Run(t, rest);
    } else {
      steps := WayFromOpen(s, d);
    }
  }

  lemma WayFromOpen(s: State, d: DigestId) returns (steps: seq<Step>)
    requires d in s.rows && s.rows[d].shouldSend && s.rows[d].sentAt.None?
    requires s.rows[d].status in {None, Some(Failed)}
    ensures SendsMoreOf(s, steps, d)
  {
    var w := Fresh.FreshId(s.workers);
    var t := Apply(s, Begin(w, s.rows[d].workspace, d));
    var u := Apply(t, Send(w, Refused));
    steps := [Begin(w, s.rows[d].workspace, d), Send(w, Refused)];
    assert steps[1..][1..] == [];
    assert Run(s, steps) == Run(t, steps[1..]) == Run(u, []) == u;
    assert u.sends[|s.sends|].digest == d;
  }

  /** A concrete run in which one worker is told "unknown_outcome" and another sends afterwards: the
      first worker marks, the second reads the mark, the first is refused and records it, and the
      third finds the row open. */
  lemma UnknownReplyCanBeFollowedByASend(s: State, at: nat)
    requires s == State(map[0 := Row(0, true, None, None, None)], map[], [])
    ensures
      var marked := Apply(s, Begin(1, 0, 0));
      var told := Apply(marked, Begin(2, 0, 0));
      && FirstReply(marked.rows, 0, 0) == Some(UnknownOutcome) && told.rows[0].status == Some(UnknownOutcome)
      && SendsMoreOf(told, [Send(1, Refused), Record(1, at), Begin(3, 0, 0), Send(3, Accepted(Some(0)))], 0)
      && |Run(told, [Send(1, Refused), Record(1, at), Begin(3, 0, 0), Send(3, Accepted(Some(0)))]).sends| == 2
  {
    var told := Apply(Apply(s, Begin(1, 0, 0)), Begin(2, 0, 0));
    var sent := Apply(told, Send(1, Refused));
    var open := Apply(sent, Record(1, at));
    assert open.rows[0].status == Some(Failed) && open.workers == map[];
    var again := Apply(open, Begin(3, 0, 0));
    assert again.workers == map[3 := Marked(0)];
    var end := Apply(again, Send(3, Accepted(Some(0))));
    RunOfFour(told, Send(1, Refused), Record(1, at), Begin(3, 0, 0), Send(3, Accepted(Some(0))));
    assert end.sends[1].digest == 0;
  }

  lemma RunOfFour(s: State, a: Step, b: Step, c: Step, d: Step)
    ensures Run(s, [a, b, c, d]) == Apply(Apply(Apply(Apply(s, a), b), c), d)
  {
    hide Apply;
    assert [a, b, c, d][1..] == [b, c, d] && [b, c, d][1..] == [c, d] && [c, d][1..] == [d] && [d][1..] == [];
    assert Run(Apply(Apply(s, a), b), [c, d]) == Run(Apply(Apply(Apply(s, a), b), c), [d]);
  }
}
