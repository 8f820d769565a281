/** What the two append-only logs of a draft say about its row, over every run of commands and
    every interleaving of publications, with the CHECK constraints enforced. */
module DraftHistory {
  import opened Options
  import opened ReviewPolicy
  import opened Drafts
  import TextDistance

  // ----- Folding the logs -----

  /** The statuses a draft has gone through, oldest first: pending, then what was logged. */
  function History(log: seq<StatusEvent>, id: DraftId): (h: seq<Status>)
    ensures |h| > 0
  {
    if log == [] then [Pending]
    else
      var e := log[|log| - 1];
      History(log[..|log| - 1], id) + if e.draft == id then [e.status] else []
  }

  predicate LegalStep(from: Status, to: Status) {
    match from
    case Pending => to in {Approved, Rejected}
    case Approved => to in {Pending, Rejected, Posted}
    case Rejected => false
    case Posted => to == Posted
  }

  ghost predicate LegalPath(h: seq<Status>) {
    |h| > 0 && h[0] == Pending && forall i :: 0 < i < |h| ==> LegalStep(h[i - 1], h[i])
  }

  predicate ChangesContent(e: Feedback, id: DraftId) {
    e.draft == id && e.kind in {SelectedEvent, EditedEvent}
  }

  /** Folding the selected and edited events: the content they lead to from `initial`, or None if
      an event's content_before is not the content before it. */
  function ContentAfter(log: seq<Feedback>, id: DraftId, initial: string): Option<string> {
    if log == [] then Some(initial)
    else
      var before, e := ContentAfter(log[..|log| - 1], id, initial), log[|log| - 1];
      if !ChangesContent(e, id) then before
      else if before.Some? && e.contentBefore == before then e.contentAfter
      else None
  }

  /** The content at the last selection, or the initial one. */
  function LastSelected(log: seq<Feedback>, id: DraftId, initial: string): Option<string> {
    if log == [] then Some(initial)
    else
      var e := log[|log| - 1];
      if e.draft == id && e.kind == SelectedEvent then e.contentAfter
      else LastSelected(log[..|log| - 1], id, initial)
  }

  /** The sum of the distances logged since the last selection. */
  function LoggedDistance(log: seq<Feedback>, id: DraftId): nat {
    if log == [] then 0
    else
      var e := log[|log| - 1];
      if e.draft == id && e.kind == SelectedEvent then 0
      else LoggedDistance(log[..|log| - 1], id)
           + if e.draft == id && e.kind == EditedEvent && e.editDistance.Some? then e.editDistance.value else 0
  }

  /** The provider post that `_existing_publish_url` finds: that of the last posted event. */
  function LastPost(log: seq<Feedback>, id: DraftId): Option<nat> {
    if log == [] then None
    else
      var e := log[|log| - 1];
      if e.draft == id && e.kind == PostedEvent then e.postId else LastPost(log[..|log| - 1], id)
  }

  /** Every edited event carries the distance between the texts it names. */
  predicate TrueDistance(e: Feedback) {
    e.kind == EditedEvent ==>
      && e.contentBefore.Some? && e.contentAfter.Some?
      && e.editDistance == Some(TextDistance.Distance(e.contentBefore.value, e.contentAfter.value))
  }

  // ----- One more entry -----

  lemma FoldsOfAppended(s: State, e: Feedback, id: DraftId, initial: string)
    ensures var log := s.feedback + [e];
      && ContentAfter(log, id, initial) ==
           (var before := ContentAfter(s.feedback, id, initial);
            if !ChangesContent(e, id) then before
            else if before.Some? && e.contentBefore == before then e.contentAfter
            else None)
      && LastPost(log, id) == if e.draft == id && e.kind == PostedEvent then e.postId else LastPost(s.feedback, id)
  {
    var log := s.feedback + [e];
    assert log[..|log| - 1] == s.feedback;
  }

  lemma HistoryOfAppended(log: seq<StatusEvent>, e: StatusEvent, id: DraftId)
    ensures History(log + [e], id) == History(log, id) + if e.draft == id then [e.status] else []
  {
    assert (log + [e])[..|log|] == log;
  }

  // ----- The invariant -----

  ghost predicate RowInv(s: State, id: DraftId)
    requires id in s.drafts
  {
    var row := s.drafts[id];
    && MeetsChecks(row)
    && (row.status in {Pending, Rejected} ==> row.approvedAt.None?)
    && id in s.born
    && LegalPath(History(s.statusLog, id))
    && row.status == Last(History(s.statusLog, id))
    && ContentAfter(s.feedback, id, s.born[id]) == Some(row.content)
    && (if row.status == Posted then row.postId == LastPost(s.feedback, id) else LastPost(s.feedback, id).None?)
  }

  function Last(h: seq<Status>): Status
    requires |h| > 0
  {
    h[|h| - 1]
  }

  /** Nothing is logged about a draft that does not exist yet. */
  ghost predicate Unborn(s: State, id: DraftId) {
    && (forall i :: 0 <= i < |s.statusLog| ==> s.statusLog[i].draft != id)
    && (forall i :: 0 <= i < |s.feedback| ==> s.feedback[i].draft != id)
  }

  ghost predicate Inv(s: State) {
    && (forall id :: id in s.drafts ==> RowInv(s, id))
    && (forall id :: id !in s.drafts ==> Unborn(s, id))
    && (forall i :: 0 <= i < |s.feedback| ==> TrueDistance(s.feedback[i]))
  }

  lemma {:induction false} FoldsOfNothing(statusLog: seq<StatusEvent>, log: seq<Feedback>, id: DraftId, initial: string)
    requires forall i :: 0 <= i < |statusLog| ==> statusLog[i].draft != id
    requires forall i :: 0 <= i < |log| ==> log[i].draft != id
    ensures History(statusLog, id) == [Pending]
    ensures ContentAfter(log, id, initial) == Some(initial)
    ensures LastPost(log, id) == None
    decreases |statusLog| + |log|
  {
    if statusLog != [] {
      FoldsOfNothing(statusLog[..|statusLog| - 1], log, id, initial);
    } else if log != [] {
      FoldsOfNothing(statusLog, log[..|log| - 1], id, initial);
    }
  }

  /** What the code may write into an existing row: a legal status, or none and the same status;
      an event that leads from the old content to the new one and names the post. */
  predicate FaithfulWrite(was: Draft, id: DraftId, row: Draft, status: Option<Status>, event: Option<Feedback>) {
    && MeetsChecks(row)
    && (row.status in {Pending, Rejected} ==> row.approvedAt.None?)
    && (if status.Some? then status == Some(row.status) && LegalStep(was.status, row.status)
        else row.status == was.status)
    && event.Some? && event.value.draft == id && TrueDistance(event.value)
    && (if ChangesContent(event.value, id)
        then event.value.contentBefore == Some(was.content) && event.value.contentAfter == Some(row.content)
        else row.content == was.content)
    && (was.status in {Rejected, Posted} ==> row.content == was.content)
    && (if event.value.kind == PostedEvent then row.status == Posted && row.postId == event.value.postId
        else row.status != Posted)
  }

  lemma WriteKeepsInv(s: State, id: DraftId, row: Draft, status: Option<Status>, event: Option<Feedback>)
    requires Inv(s) && id in s.drafts && FaithfulWrite(s.drafts[id], id, row, status, event)
    ensures Inv(Write(s, id, row, status, event))
  {
    hide History, ContentAfter, LastPost;
    var t := Write(s, id, row, status, event);
    forall d | d in t.drafts
      ensures RowInv(t, d)
    {
      assert RowInv(s, d) && RowInv(s, id);
      FoldsOfAppended(s, event.value, d, s.born[d]);
      if status.Some? {
        HistoryOfAppended(s.statusLog, StatusEvent(id, status.value), d);
      }
    }
    forall d | d !in t.drafts
      ensures Unborn(t, d)
    {
      assert Unborn(s, d);
    }
  }

  predicate FaithfulBirth(s: State, id: DraftId, row: Draft, status: Option<Status>) {
    && id !in s.drafts && row.status in {Pending, Approved} && MeetsChecks(row)
    && (row.status == Pending ==> row.approvedAt.None?)
    && status == if row.status == Pending then None else Some(Approved)
  }

  lemma BirthIsSound(s: State, id: DraftId, row: Draft, status: Option<Status>)
    requires Inv(s) && FaithfulBirth(s, id, row, status)
    ensures RowInv(Write(s.(born := s.born[id := row.content]), id, row, status, None), id)
  {
    assert Unborn(s, id);
    FoldsOfNothing(s.statusLog, s.feedback, id, row.content);
    HistoryOfAppended(s.statusLog, StatusEvent(id, Approved), id);
    hide History, ContentAfter, LastPost;
  }

  lemma BirthKeepsInv(s: State, id: DraftId, row: Draft, status: Option<Status>)
    requires Inv(s) && FaithfulBirth(s, id, row, status)
    ensures Inv(Write(s.(born := s.born[id := row.content]), id, row, status, None))
  {
    hide History, ContentAfter, LastPost;
    var t := Write(s.(born := s.born[id := row.content]), id, row, status, None);
    forall d | d in t.drafts
      ensures RowInv(t, d)
    {
      if d == id {
        BirthIsSound(s, id, row, status);
      } else {
        assert RowInv(s, d);
        HistoryOfAppended(s.statusLog, StatusEvent(id, Approved), d);
      }
    }
    forall d | d !in t.drafts
      ensures Unborn(t, d)
    {
      assert Unborn(s, d);
    }
  }

  predicate SameTables(s: State, t: State) {
    t.drafts == s.drafts && t.statusLog == s.statusLog && t.feedback == s.feedback && t.born == s.born
  }

  lemma SameTablesKeepInv(s: State, t: State)
    requires Inv(s) && SameTables(s, t)
    ensures Inv(t)
  {
    forall d | d in t.drafts
      ensures RowInv(t, d)
    {
      assert RowInv(s, d);
    }
    forall d | d !in t.drafts
      ensures Unborn(t, d)
    {
      assert Unborn(s, d);
    }
  }

  // ----- Every step -----

  ghost predicate FaithfulEffect(s: State, e: Effect) {
    match e
    case Nothing => true
    case Birth(id, row, status) => FaithfulBirth(s, id, row, status)
    case Change(id, row, status, event) =>
      id in s.drafts && FaithfulWrite(s.drafts[id], id, row, status, Some(event))
  }

  lemma EffectKeepsInv(s: State, e: Effect, t: State)
    requires Inv(s) && FaithfulEffect(s, e) && SameTables(Performed(s, e), t)
    ensures Inv(t)
  {
    match e
    case Nothing =>
    case Birth(id, row, status) => BirthKeepsInv(s, id, row, status);
    case Change(id, row, status, event) => WriteKeepsInv(s, id, row, status, Some(event));
    SameTablesKeepInv(Performed(s, e), t);
  }

  lemma ApprovalFacts(s: State, id: DraftId)
    requires Inv(s) && id in s.drafts
    ensures MeetsChecks(s.drafts[id])
    ensures s.drafts[id].status in {Approved, Posted} <==> s.drafts[id].approvedAt.Some?
  {
    assert RowInv(s, id);
  }

  lemma EditIsFaithful(s: State, actor: Option<Role>, id: DraftId, content: string)
    requires Inv(s)
    ensures FaithfulEffect(s, EditEffect(s, actor, id, content))
  {
    hide TextDistance.Distance;
    if id in s.drafts { ApprovalFacts(s, id); }
    hide Inv;
  }

  lemma ApproveIsFaithful(s: State, actor: Option<Role>, id: DraftId, now: nat)
    requires Inv(s)
    ensures FaithfulEffect(s, ApproveEffect(s, actor, id, now))
  {
    hide TextDistance.Distance;
    if id in s.drafts { ApprovalFacts(s, id); }
    hide Inv;
  }

  lemma RejectIsFaithful(s: State, actor: Option<Role>, id: DraftId, reason: string, now: nat)
    requires Inv(s)
    ensures FaithfulEffect(s, RejectEffect(s, actor, id, reason, now))
  {
    hide TextDistance.Distance;
    if id in s.drafts { ApprovalFacts(s, id); }
    hide Inv;
  }

  lemma SelectIsFaithful(s: State, actor: Option<Role>, id: DraftId, candidate: CandidateId, found: Option<string>)
    requires Inv(s)
    ensures FaithfulEffect(s, SelectEffect(s, actor, id, candidate, found))
  {
    hide TextDistance.Distance;
    if id in s.drafts { ApprovalFacts(s, id); }
    hide Inv;
  }

  lemma RegenerateIsFaithful(s: State, actor: Option<Role>, id: DraftId, run: RunId, candidate: CandidateId,
                             content: string)
    requires Inv(s)
    ensures FaithfulEffect(s, RegenerateEffect(s, actor, id, run, candidate, content))
  {
    hide TextDistance.Distance;
    if id in s.drafts { ApprovalFacts(s, id); }
    hide Inv;
  }

  /** The constraint drafts_approval_required is what keeps a publication that was in flight while
      its draft was rejected or regenerated from posting it. */
  lemma PublicationIsFaithful(s: State, w: Worker, now: nat)
    requires Inv(s)
    ensures FaithfulEffect(s, ReserveEffect(s, w, now))
    ensures FaithfulEffect(s, FinishEffect(s, w, now))
  {
    if CanReserve(s, w) { ApprovalFacts(s, s.workers[w].fingerprint.draft); }
    if CanFinish(s, w) { ApprovalFacts(s, s.workers[w].draft); }
    hide Inv;
  }

  function EffectOf(s: State, step: Step): Effect {
    match step
    case Create(id, content, candidate, run, event) => CreateEffect(s, id, content, candidate, run, event)
    case Bridge(id, content, asset, now) => BridgeEffect(s, id, content, asset, now)
    case Edit(actor, id, content) => EditEffect(s, actor, id, content)
    case Approve(actor, id, now) => ApproveEffect(s, actor, id, now)
    case Reject(actor, id, reason, now) => RejectEffect(s, actor, id, reason, now)
    case Select(actor, id, candidate, found) => SelectEffect(s, actor, id, candidate, found)
    case Regenerate(actor, id, run, candidate, content) => RegenerateEffect(s, actor, id, run, candidate, content)
    case Reserve(w, now) => ReserveEffect(s, w, now)
    case Finish(w, now) => FinishEffect(s, w, now)
    case _ => Nothing
  }

  lemma EveryStepIsFaithful(s: State, step: Step)
    requires Inv(s)
    ensures FaithfulEffect(s, EffectOf(s, step))
  {
    hide FaithfulWrite, Inv;
    match step
    case Edit(actor, id, content) => EditIsFaithful(s, actor, id, content);
    case Approve(actor, id, now) => ApproveIsFaithful(s, actor, id, now);
    case Reject(actor, id, reason, now) => RejectIsFaithful(s, actor, id, reason, now);
    case Select(actor, id, candidate, found) => SelectIsFaithful(s, actor, id, candidate, found);
    case Regenerate(actor, id, run, candidate, content) => RegenerateIsFaithful(s, actor, id, run, candidate, content);
    case Reserve(w, now) => PublicationIsFaithful(s, w, now);
    case Finish(w, now) => PublicationIsFaithful(s, w, now);
    case _ =>
  }

  lemma TablesFollowTheEffect(s: State, step: Step)
    ensures SameTables(Performed(s, EffectOf(s, step)), Apply(s, step))
  {
    hide EditEffect, ApproveEffect, RejectEffect, SelectEffect, RegenerateEffect, CreateEffect, BridgeEffect, Write;
    match step
    case Reserve(w, now) => hide Performed; ReservedTables(s, w, now);
    case Finish(w, now) => hide Performed; FinishedTables(s, w, now);
    case _ =>
  }

  lemma ReservedTables(s: State, w: Worker, now: nat)
    ensures SameTables(Performed(s, ReserveEffect(s, w, now)), Reserved(s, w, now))
  {
    hide ReserveError, Write;
  }

  lemma FinishedTables(s: State, w: Worker, now: nat)
    ensures SameTables(Performed(s, FinishEffect(s, w, now)), Finished(s, w, now))
  {
    hide MeetsChecks, Write;
  }

  lemma ApplyKeepsInv(s: State, step: Step)
    requires Inv(s)
    ensures Inv(Apply(s, step))
  {
    var e := EffectOf(s, step);
    EveryStepIsFaithful(s, step);
    TablesFollowTheEffect(s, step);
    EffectKeepsInv(s, e, Apply(s, step));
  }

  lemma {:induction false} RunKeepsInv(s: State, steps: seq<Step>)
    requires Inv(s)
    ensures Inv(Run(s, steps))
    decreases |steps|
  {
    if steps != [] {
      ApplyKeepsInv(s, steps[0]);
      RunKeepsInv(Apply(s, steps[0]), steps[1..]);
    }
  }

  // ----- The results -----

  /** The logs are append-only and the first content of a draft stays what it was. */
  lemma {:induction false} LogsOnlyGrow(s: State, steps: seq<Step>)
    requires Inv(s)
    ensures s.statusLog <= Run(s, steps).statusLog && s.feedback <= Run(s, steps).feedback
    ensures forall id :: id in s.drafts ==>
      id in Run(s, steps).drafts && id in s.born && id in Run(s, steps).born && Run(s, steps).born[id] == s.born[id]
    decreases |steps|
  {
    assert forall id :: id in s.drafts ==> RowInv(s, id);
    if steps != [] {
      ApplyKeepsInv(s, steps[0]);
      ApplyOnlyAppends(s, steps[0]);
      LogsOnlyGrow(Apply(s, steps[0]), steps[1..]);
    }
  }

  lemma ApplyOnlyAppends(s: State, step: Step)
    requires Inv(s)
    ensures s.statusLog <= Apply(s, step).statusLog && s.feedback <= Apply(s, step).feedback
    ensures forall id :: id in s.drafts ==>
      id in Apply(s, step).drafts && id in s.born && id in Apply(s, step).born && Apply(s, step).born[id] == s.born[id]
  {
    var e := EffectOf(s, step);
    EveryStepIsFaithful(s, step);
    TablesFollowTheEffect(s, step);
    EffectOnlyAppends(s, e);
    hide *;
  }

  lemma EffectOnlyAppends(s: State, e: Effect)
    requires Inv(s) && FaithfulEffect(s, e)
    ensures s.statusLog <= Performed(s, e).statusLog && s.feedback <= Performed(s, e).feedback
    ensures forall id :: id in s.drafts ==>
      id in Performed(s, e).drafts && id in s.born && id in Performed(s, e).born
          && Performed(s, e).born[id] == s.born[id]
  {
    assert forall id :: id in s.drafts ==> RowInv(s, id);
    hide MeetsChecks, FaithfulWrite;
  }

  /** Event sourcing. In every reachable state the status log leads along a legal path to the row's
      status, the feedback log leads from the first content to the row's content without a gap,
      the CHECK constraints hold, and a posted row names the post that the log names last. */
  lemma LogsExplainTheRow(s: State, steps: seq<Step>, id: DraftId)
    requires Init(s) && id in Run(s, steps).drafts
    ensures
      var t := Run(s, steps);
      var row, history := t.drafts[id], History(t.statusLog, id);
      && LegalPath(history) && row.status == Last(history)
      && id in t.born && ContentAfter(t.feedback, id, t.born[id]) == Some(row.content)
      && MeetsChecks(row)
      && (row.status == Posted ==> row.postId == LastPost(t.feedback, id))
  {
    RunKeepsInv(s, steps);
    assert RowInv(Run(s, steps), id);
  }

  lemma ApplyKeepsTerminal(s: State, step: Step, id: DraftId)
    requires Inv(s) && id in s.drafts && s.drafts[id].status in {Rejected, Posted}
    ensures id in Apply(s, step).drafts
    ensures Apply(s, step).drafts[id].status == s.drafts[id].status
    ensures Apply(s, step).drafts[id].content == s.drafts[id].content
  {
    var e := EffectOf(s, step);
    EveryStepIsFaithful(s, step);
    TablesFollowTheEffect(s, step);
    EffectKeepsTerminal(s, e, id);
    hide *;
  }

  lemma EffectKeepsTerminal(s: State, e: Effect, id: DraftId)
    requires FaithfulEffect(s, e) && id in s.drafts && s.drafts[id].status in {Rejected, Posted}
    ensures id in Performed(s, e).drafts
    ensures Performed(s, e).drafts[id].status == s.drafts[id].status
    ensures Performed(s, e).drafts[id].content == s.drafts[id].content
  {
  }

  /** Rejected and posted are absorbing, and the content is frozen with them, even while
      publications that began before are still in flight. */
  lemma {:induction false} TerminalStatusesAbsorb(s: State, steps: seq<Step>, id: DraftId)
    requires Inv(s) && id in s.drafts && s.drafts[id].status in {Rejected, Posted}
    ensures id in Run(s, steps).drafts
    ensures Run(s, steps).drafts[id].status == s.drafts[id].status
    ensures Run(s, steps).drafts[id].content == s.drafts[id].content
    decreases |steps|
  {
    if steps != [] {
      ApplyKeepsInv(s, steps[0]);
      ApplyKeepsTerminal(s, steps[0], id);
      TerminalStatusesAbsorb(Apply(s, steps[0]), steps[1..], id);
    }
  }

  lemma {:induction false} LogBoundsDistance(log: seq<Feedback>, id: DraftId, initial: string)
    requires forall i :: 0 <= i < |log| ==> TrueDistance(log[i])
    requires ContentAfter(log, id, initial).Some?
    ensures LastSelected(log, id, initial).Some?
    ensures TextDistance.Distance(LastSelected(log, id, initial).value, ContentAfter(log, id, initial).value)
         <= LoggedDistance(log, id)
  {
    hide TextDistance.Distance;
    if log == [] {
      TextDistance.DistanceIsMetric(initial, initial, initial);
    } else {
      var e, rest := log[|log| - 1], log[..|log| - 1];
      if e.draft == id && e.kind == SelectedEvent {
        var content := e.contentAfter.value;
        TextDistance.DistanceIsMetric(content, content, content);
      } else {
        LogBoundsDistance(rest, id, initial);
        var from, before := LastSelected(rest, id, initial).value, ContentAfter(rest, id, initial).value;
        TextDistance.DistanceIsMetric(from, before, ContentAfter(log, id, initial).value);
      }
    }
  }

  /** Over every run, the distance from the last selected (or initial) text to the current one is
      at most the sum of the distances logged since. */
  lemma CurrentTextIsWithinLoggedDistance(s: State, steps: seq<Step>, id: DraftId)
    requires Init(s) && id in Run(s, steps).drafts
    ensures
      var t := Run(s, steps);
      && id in t.born && LastSelected(t.feedback, id, t.born[id]).Some?
      && TextDistance.Distance(LastSelected(t.feedback, id, t.born[id]).value, t.drafts[id].content)
           <= LoggedDistance(t.feedback, id)
  {
    RunKeepsInv(s, steps);
    assert RowInv(Run(s, steps), id);
    LogBoundsDistance(Run(s, steps).feedback, id, Run(s, steps).born[id]);
  }
}
