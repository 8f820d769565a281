/** What each transaction of a digest delivery leaves, said of the rows and replies alone, and that a
    recorded outcome stays. */
module DigestLaws {
  import opened Options
  import opened DigestDelivery

  /** The first transaction: it answers what is settled, calls a pending intent an unknown outcome, and
      marks a digest that was never sent or failed. */
  lemma BeginLaw(s: State, w: Worker, workspace: WorkspaceId, d: DigestId)
    requires w !in s.workers
    ensures
      var t, reply := Apply(s, Begin(w, workspace, d)), FirstReply(s.rows, workspace, d);
      if d !in s.rows || s.rows[d].workspace != workspace || !s.rows[d].shouldSend
      then t == s && reply == Some(Suppressed)
      else
        var row := s.rows[d];
        if row.sentAt.Some? || row.status in {Some(Delivered), Some(UnknownOutcome), Some(Suppressed)}
        then t == s && reply == (if row.status.Some? then row.status else Some(Delivered))
        else if row.status == Some(Pending)
        then t == s.(rows := s.rows[d := row.(status := Some(UnknownOutcome))]) && reply == Some(UnknownOutcome)
        else
          && t == s.(rows := s.rows[d := row.(status := Some(Pending))], workers := s.workers[w := Marked(d)])
          && reply == None && row.status in {None, Some(Failed)}
  {
    if d in s.rows {
      assert s.rows[d := s.rows[d]] == s.rows;
      if s.rows[d].status.Some? {
        match s.rows[d].status.value
        case Pending =>
        case Delivered =>
        case Failed =>
        case UnknownOutcome =>
        case Suppressed =>
      }
    }
  }

  lemma SendLaw(s: State, w: Worker, outcome: Outcome)
    requires w in s.workers && s.workers[w].Marked?
    ensures
      var d := s.workers[w].digest;
      Apply(s, Send(w, outcome)) ==
        s.(workers := s.workers[w := Returned(d, |s.sends|)], sends := s.sends + [SendEvent(d, outcome, false)])
  {
  }

  /** The last transaction, for each outcome. */
  lemma RecordLaw(s: State, w: Worker, at: nat)
    requires w in s.workers && s.workers[w].Returned? && s.workers[w].digest in s.rows
    requires s.workers[w].event < |s.sends|
    ensures
      var Returned(d, e) := s.workers[w];
      var row := s.rows[d];
      var recorded := match s.sends[e].outcome
                      case Accepted(id) => row.(status := Some(Delivered), providerId := id, sentAt := Some(at))
                      case Uncertain => row.(status := Some(UnknownOutcome))
                      case Refused => row.(status := Some(Failed));
      Apply(s, Record(w, at)) ==
        s.(rows := s.rows[d := recorded], workers := s.workers - {w},
           sends := s.sends[e := s.sends[e].(recorded := true)])
  {
  }

  // ----- Recorded outcomes stay -----

  /** Nobody is delivering the digest. */
  ghost predicate IsQuiet(s: State, d: DigestId) {
    d in s.rows && forall w :: w in s.workers ==> s.workers[w].digest != d
  }

  predicate IsBeginOf(step: Step, d: DigestId) {
    step.Begin? && step.digest == d
  }

  lemma StepKeepsQuiet(s: State, step: Step, d: DigestId)
    requires IsQuiet(s, d)
    requires s.rows[d].status in {Some(Delivered), Some(UnknownOutcome)} || !IsBeginOf(step, d)
    ensures IsQuiet(Apply(s, step), d) && Apply(s, step).rows[d] == s.rows[d]
  {
  }

  lemma {:induction false} QuietRowStays(s: State, steps: seq<Step>, d: DigestId)
    requires IsQuiet(s, d)
    requires s.rows[d].status in {Some(Delivered), Some(UnknownOutcome)}
      || forall i :: 0 <= i < |steps| ==> !IsBeginOf(steps[i], d)
    ensures d in Run(s, steps).rows && Run(s, steps).rows[d] == s.rows[d]
    decreases |steps|
  {
    if steps != [] {
      StepKeepsQuiet(s, steps[0], d);
      hide Apply;
      QuietRowStays(Apply(s, steps[0]), steps[1..], d);
    }
  }

  /** Over every later run: an accepted send that was recorded shows as delivered, with the provider's id
      and the time; an uncertain one as unknown; a refused one as failed until the next call begins. */
  lemma RecordedOutcomeStays(s: State, w: Worker, at: nat, steps: seq<Step>)
    requires Inv(s) && w in s.workers && s.workers[w].Returned?
    ensures s.workers[w].event < |s.sends|
    ensures
      var Returned(d, e) := s.workers[w];
      var t := Run(Apply(s, Record(w, at)), steps);
      && d in t.rows
      && match s.sends[e].outcome
         case Accepted(id) =>
           t.rows[d].status == Some(Delivered) && t.rows[d].providerId == id && t.rows[d].sentAt == Some(at)
         case Uncertain => t.rows[d].status == Some(UnknownOutcome)
         case Refused => (forall i :: 0 <= i < |steps| ==> !IsBeginOf(steps[i], d)) ==> t.rows[d].status == Some(Failed)
  {
    assert WorkerInv(s, w);
    var Returned(d, e) := s.workers[w];
    var t := Apply(s, Record(w, at));
    RecordLaw(s, w, at);
    assert IsQuiet(t, d);
    if s.sends[e].outcome.Refused? {
      RowStaysKnown(t, steps, d);
      if forall i :: 0 <= i < |steps| ==> !IsBeginOf(steps[i], d) { QuietRowStays(t, steps, d); }
    } else {
      QuietRowStays(t, steps, d);
    }
  }

  lemma {:induction false} RowStaysKnown(s: State, steps: seq<Step>, d: DigestId)
    requires d in s.rows
    ensures d in Run(s, steps).rows
    decreases |steps|
  {
    if steps != [] { RowStaysKnown(Apply(s, steps[0]), steps[1..], d); }
  }
}
