/** What each draft command does, said of the rows, logs and replies alone: when it acts, what it then
    leaves, that it changes nothing else, and which error it answers otherwise. */
module DraftLaws {
  import opened Options
  import opened ReviewPolicy
  import opened Drafts
  import DraftHistory
  import Publication
  import Resending
  import TextDistance

  predicate Has(actor: Option<Role>, roles: set<Role>) {
    actor.Some? && actor.value in roles
  }

  lemma EveryRoleAndStatus(s: State, actor: Option<Role>, id: DraftId)
    ensures actor.Some? ==> actor.value in {Owner, Admin, Editor, Reviewer, Viewer}
    ensures id in s.drafts ==> s.drafts[id].status in {Pending, Approved, Rejected, Posted}
  {
    if actor.Some? {
      match actor.value
      case Owner =>
      case Admin =>
      case Editor =>
      case Reviewer =>
      case Viewer =>
    }
    if id in s.drafts {
      match s.drafts[id].status
      case Pending =>
      case Approved =>
      case Rejected =>
      case Posted =>
    }
  }

  // ----- Review -----

  /** An edit by a member who may write changes the text of a pending or approved draft, keeps its
      approval, and logs both texts with the least number of edits between them. */
  lemma EditLaw(s: State, actor: Option<Role>, id: DraftId, content: string)
    ensures
      var t := Apply(s, Edit(actor, id, content));
      if Has(actor, {Owner, Admin, Editor}) && id in s.drafts && s.drafts[id].status in {Pending, Approved}
         && s.drafts[id].content != content
      then
        var was := s.drafts[id];
        exists d: nat ::
          && TextDistance.IsLeastEditCount(d, was.content, content)
          && t == s.(drafts := s.drafts[id := was.(content := content, userEdited := true, editDistance := Some(d))],
                     feedback := s.feedback + [Feedback(id, EditedEvent, was.candidate, was.candidate,
                                                        Some(was.content), Some(content), Some(d), None, None)])
      else t == s
    ensures EditError(s, actor, id) == None <==>
      Has(actor, {Owner, Admin, Editor}) && id in s.drafts && s.drafts[id].status in {Pending, Approved}
    ensures EditError(s, actor, id) == Some(WriteForbidden) <==> Has(actor, {Reviewer, Viewer})
    ensures EditError(s, actor, id) == Some(EditInvalidStatus) <==>
      Has(actor, {Owner, Admin, Editor}) && id in s.drafts && s.drafts[id].status in {Rejected, Posted}
    ensures EditError(s, actor, id) == Some(DraftNotFound) <==>
      actor.None? || (Has(actor, {Owner, Admin, Editor}) && id !in s.drafts)
  {
    EveryRoleAndStatus(s, actor, id);
    if id in s.drafts {
      TextDistance.DistanceIsLeast(s.drafts[id].content, content);
    }
    hide TextDistance.IsLeastEditCount, TextDistance.Distance;
  }

  /** An approval by a member who may review turns a pending draft into an approved one; an approved or
      posted one is left as it is, without an error. */
  lemma ApproveLaw(s: State, actor: Option<Role>, id: DraftId, now: nat)
    ensures
      var t := Apply(s, Approve(actor, id, now));
      if Has(actor, {Owner, Admin, Reviewer}) && id in s.drafts && s.drafts[id].status == Pending
      then
        var was := s.drafts[id];
        t == s.(drafts := s.drafts[id := was.(status := Approved, approvedAt := Some(now), rejectedAt := None,
                                              rejectionReason := None)],
                statusLog := s.statusLog + [StatusEvent(id, Approved)],
                feedback := s.feedback + [Feedback(id, ApprovedEvent, was.candidate, None, None, Some(was.content),
                                                   was.editDistance, None, None)])
      else t == s
    ensures ApproveError(s, actor, id) == None <==>
      Has(actor, {Owner, Admin, Reviewer}) && id in s.drafts && s.drafts[id].status in {Pending, Approved, Posted}
    ensures ApproveError(s, actor, id) == Some(ReviewForbidden) <==> Has(actor, {Editor, Viewer})
    ensures ApproveError(s, actor, id) == Some(ApproveInvalidStatus) <==>
      Has(actor, {Owner, Admin, Reviewer}) && id in s.drafts && s.drafts[id].status == Rejected
    ensures ApproveError(s, actor, id) == Some(DraftNotFound) <==>
      actor.None? || (Has(actor, {Owner, Admin, Reviewer}) && id !in s.drafts)
  {
    EveryRoleAndStatus(s, actor, id);
  }

  /** A rejection by a member who may review turns a pending or approved draft into a rejected one and
      takes its approval back; a rejected one is left as it is, without an error. */
  lemma RejectLaw(s: State, actor: Option<Role>, id: DraftId, reason: string, now: nat)
    ensures
      var t := Apply(s, Reject(actor, id, reason, now));
      if Has(actor, {Owner, Admin, Reviewer}) && id in s.drafts && s.drafts[id].status in {Pending, Approved}
      then
        var was := s.drafts[id];
        t == s.(drafts := s.drafts[id := was.(status := Rejected, approvedAt := None, rejectedAt := Some(now),
                                              rejectionReason := Some(reason))],
                statusLog := s.statusLog + [StatusEvent(id, Rejected)],
                feedback := s.feedback + [Feedback(id, RejectedEvent, was.candidate, None, Some(was.content), None,
                                                   was.editDistance, Some(reason), None)])
      else t == s
    ensures RejectError(s, actor, id) == None <==>
      Has(actor, {Owner, Admin, Reviewer}) && id in s.drafts && s.drafts[id].status in {Pending, Approved, Rejected}
    ensures RejectError(s, actor, id) == Some(ReviewForbidden) <==> Has(actor, {Editor, Viewer})
    ensures RejectError(s, actor, id) == Some(RejectInvalidStatus) <==>
      Has(actor, {Owner, Admin, Reviewer}) && id in s.drafts && s.drafts[id].status == Posted
    ensures RejectError(s, actor, id) == Some(DraftNotFound) <==>
      actor.None? || (Has(actor, {Owner, Admin, Reviewer}) && id !in s.drafts)
  {
    EveryRoleAndStatus(s, actor, id);
  }

  /** A selection puts the found candidate and its text into a pending or approved draft, as unedited,
      and logs the change of text; if both are there already nothing changes. */
  lemma SelectLaw(s: State, actor: Option<Role>, id: DraftId, candidate: CandidateId, found: Option<string>)
    ensures
      var t := Apply(s, Select(actor, id, candidate, found));
      if Has(actor, {Owner, Admin, Editor}) && id in s.drafts && s.drafts[id].status in {Pending, Approved}
         && found.Some? && (s.drafts[id].content != found.value || s.drafts[id].candidate != Some(candidate))
      then
        var was := s.drafts[id];
        t == s.(drafts := s.drafts[id := was.(candidate := Some(candidate), content := found.value,
                                              userEdited := false, editDistance := Some(0))],
                feedback := s.feedback + [Feedback(id, SelectedEvent, Some(candidate), was.candidate,
                                                   Some(was.content), found, Some(0), None, None)])
      else t == s
    ensures SelectError(s, actor, id, found) == None <==>
      Has(actor, {Owner, Admin, Editor}) && id in s.drafts && s.drafts[id].status in {Pending, Approved} && found.Some?
    ensures SelectError(s, actor, id, found) == Some(WriteForbidden) <==> Has(actor, {Reviewer, Viewer})
    ensures SelectError(s, actor, id, found) == Some(SelectionInvalidStatus) <==>
      Has(actor, {Owner, Admin, Editor}) && id in s.drafts && s.drafts[id].status in {Rejected, Posted}
    ensures SelectError(s, actor, id, found) == Some(CandidateNotFound) <==>
      Has(actor, {Owner, Admin, Editor}) && id in s.drafts && s.drafts[id].status in {Pending, Approved} && found.None?
    ensures SelectError(s, actor, id, found) == Some(DraftNotFound) <==>
      actor.None? || (Has(actor, {Owner, Admin, Editor}) && id !in s.drafts)
  {
    EveryRoleAndStatus(s, actor, id);
  }

  /** A regeneration puts a new run's first candidate into a pending or approved draft that has an event,
      makes it pending, and logs the change of text, and of status if it was approved. */
  lemma RegenerateLaw(s: State, actor: Option<Role>, id: DraftId, run: RunId, candidate: CandidateId, content: string)
    ensures
      var t := Apply(s, Regenerate(actor, id, run, candidate, content));
      if Has(actor, {Owner, Admin, Editor}) && id in s.drafts && s.drafts[id].status in {Pending, Approved}
         && s.drafts[id].event.Some? && s.drafts[id].generationRun != Some(run)
      then
        var was := s.drafts[id];
        t == s.(drafts := s.drafts[id := was.(content := content, generationRun := Some(run),
                                              candidate := Some(candidate), userEdited := false,
                                              editDistance := Some(0), status := Pending, approvedAt := None)],
                statusLog := s.statusLog + (if was.status == Approved then [StatusEvent(id, Pending)] else []),
                feedback := s.feedback + [Feedback(id, SelectedEvent, Some(candidate), was.candidate,
                                                   Some(was.content), Some(content), Some(0), None, None)])
      else t == s
    ensures RegenerateError(s, actor, id) == None <==>
      Has(actor, {Owner, Admin, Editor}) && id in s.drafts && s.drafts[id].status in {Pending, Approved}
      && s.drafts[id].event.Some?
    ensures RegenerateError(s, actor, id) == Some(WriteForbidden) <==> Has(actor, {Reviewer, Viewer})
    ensures RegenerateError(s, actor, id) == Some(RegenerationInvalidStatus) <==>
      Has(actor, {Owner, Admin, Editor}) && id in s.drafts && s.drafts[id].status in {Rejected, Posted}
    ensures RegenerateError(s, actor, id) == Some(RegenerationMissingEvent) <==>
      Has(actor, {Owner, Admin, Editor}) && id in s.drafts && s.drafts[id].status in {Pending, Approved}
      && s.drafts[id].event.None?
    ensures RegenerateError(s, actor, id) == Some(DraftNotFound) <==>
      actor.None? || (Has(actor, {Owner, Admin, Editor}) && id !in s.drafts)
  {
    EveryRoleAndStatus(s, actor, id);
  }

  // ----- Publication -----

  /** `publish_draft` goes on to the provider only for an owner or admin, and only for a draft that is
      approved at that moment and whose last publication has no unknown outcome. It then keeps the draft
      as it is, and inserts an attempt if there is none. */
  lemma PublishBeginLaw(s: State, w: Worker, actor: Option<Role>, id: DraftId)
    requires w !in s.workers
    ensures
      var t, key := Apply(s, PublishBegin(w, actor, id)), DraftKey(id);
      if Has(actor, {Owner, Admin}) && id in s.drafts && s.drafts[id].status == Approved
         && s.drafts[id].approvedAt.Some? && (key in s.attempts ==> s.attempts[key].status != UnknownOutcome)
      then t == s.(attempts := if key in s.attempts then s.attempts
                               else s.attempts[key := Attempt(id, None, InFlight, None, None)],
                   workers := s.workers[w := Ready(key, id, s.drafts[id])])
      else t == s
    ensures PublishError(s, actor, id) == Some(PublishRequiresApproval) <==>
      Has(actor, {Owner, Admin}) && id in s.drafts
      && !(s.drafts[id].status == Posted && s.drafts[id].postId.Some?)
      && !(s.drafts[id].status == Approved && s.drafts[id].approvedAt.Some?)
    ensures PublishError(s, actor, id) == Some(PublisherUnknown) <==>
      Has(actor, {Owner, Admin}) && id in s.drafts && s.drafts[id].status == Approved && s.drafts[id].approvedAt.Some?
      && DraftKey(id) in s.attempts && s.attempts[DraftKey(id)].status == UnknownOutcome
    ensures PublishError(s, actor, id) == Some(PublishForbidden) <==> Has(actor, {Editor, Reviewer, Viewer})
    ensures PublishError(s, actor, id) == Some(DraftNotFound) <==>
      actor.None? || (Has(actor, {Owner, Admin}) && id !in s.drafts)
  {
    EveryRoleAndStatus(s, actor, id);
  }

  /** An owner or admin who looks an unused key up goes on; a used one is answered from its attempt. */
  lemma LookupLaw(s: State, w: Worker, actor: Option<Role>, name: string, fingerprint: Fingerprint)
    requires w !in s.workers
    ensures
      Apply(s, Lookup(w, actor, name, fingerprint)) ==
        if Has(actor, {Owner, Admin}) && ClientKey(name) !in s.attempts
        then s.(workers := s.workers[w := Unused(ClientKey(name), fingerprint)]) else s
    ensures RoleError(actor, PUBLISH_ROLES, PublishForbidden) ==
      if actor.None? then Some(DraftNotFound) else if actor.value in {Owner, Admin} then None
          else Some(PublishForbidden)
  {
  }

  /** What a replay says of an attempt. */
  lemma ReplayLaw(attempt: Attempt, fingerprint: Fingerprint)
    ensures ReplayOf(attempt, fingerprint) == Conflict <==> attempt.fingerprint != Some(fingerprint)
    ensures attempt.fingerprint == Some(fingerprint) ==>
      var r := ReplayOf(attempt, fingerprint);
      && r.Replay? && r.receipt == attempt.receipt && r.error == attempt.error
      && (r.original == Success <==> attempt.status == Completed)
      && (r.original == Failure <==> attempt.status == Failed)
      && (r.original == Unknown <==> attempt.status in {InFlight, UnknownOutcome})
  {
  }

  /** A reservation succeeds exactly for a pending or approved draft that is the text of its asset, under
      an unused key. It leaves the draft approved, logged if it was pending, and the key in flight. */
  lemma ReserveLaw(s: State, w: Worker, now: nat, key: Key, id: DraftId, asset: Asset)
    requires w in s.workers && s.workers[w] == Unused(key, Fingerprint(id, asset))
    ensures
      var t := Apply(s, Reserve(w, now));
      if id in s.drafts && asset in s.assets && s.drafts[id].asset == Some(asset)
         && s.drafts[id].content == s.assets[asset] && s.drafts[id].status in {Pending, Approved} && key !in s.attempts
      then
        var was := s.drafts[id];
        && id in t.drafts && t.drafts[id].status == Approved
        && t == s.(drafts := if was.status == Approved then s.drafts
                             else s.drafts[id := was.(status := Approved, approvedAt := Some(now))],
                   statusLog := s.statusLog + (if was.status == Approved then [] else [StatusEvent(id, Approved)]),
                   feedback := s.feedback + if was.status == Approved then [] else
                     [Feedback(id, ApprovedEvent, None, None, None, Some(was.content), None, None, None)],
                   attempts := s.attempts[key := Attempt(id, Some(Fingerprint(id, asset)), InFlight, None, None)],
                   workers := s.workers[w := Ready(key, id, was)])
      else t == s.(workers := s.workers - {w})
    ensures
      var error := ReserveError(s, key, Fingerprint(id, asset));
      var exact := id in s.drafts && asset in s.assets && s.drafts[id].asset == Some(asset)
                   && s.drafts[id].content == s.assets[asset];
      && (error == Some(DraftNotFound) <==> id !in s.drafts)
      && (error == Some(RevisionConflict) <==> id in s.drafts && !exact)
      && (error == Some(AlreadyPublished) <==> exact && s.drafts[id].status == Posted)
      && (error == Some(ApproveInvalidStatus) <==> exact && s.drafts[id].status == Rejected)
      && (error == Some(ConstraintViolation) <==>
          exact && s.drafts[id].status in {Pending, Approved} && key in s.attempts)
      && (error == None <==> exact && s.drafts[id].status in {Pending, Approved} && key !in s.attempts)
  {
    EveryRoleAndStatus(s, None, id);
    if id in s.drafts && s.drafts[id].status == Approved {
      assert s.statusLog + [] == s.statusLog;
      assert s.feedback + [] == s.feedback;
    }
  }

  /** Without a usable connection a client's attempt fails with the reason, and no other row changes. */
  lemma DisconnectLaw(s: State, w: Worker, code: Code)
    requires w in s.workers && s.workers[w].Ready? && s.workers[w].key in s.attempts
    requires code in {ConnectionRequired, WriteScopeRequired, CredentialsUnavailable}
    ensures
      var key := s.workers[w].key;
      Apply(s, Disconnect(w, code)) ==
        s.(workers := s.workers - {w},
           attempts := if key.DraftKey? then s.attempts
                       else s.attempts[key := s.attempts[key].(status := Failed, error := Some(code))])
    ensures DisconnectedReply(code) == Replay(Failure, None, Some(code))
  {
  }

  /** What is sent is the text of the draft as the worker read it, under its key. */
  lemma CallLaw(s: State, w: Worker, result: ProviderResult)
    requires w in s.workers && s.workers[w].Ready?
    ensures
      var Ready(key, id, seen) := s.workers[w];
      Apply(s, Call(w, result)) ==
        s.(workers := s.workers[w := Answered(key, id, seen, |s.calls|)],
           calls := s.calls + [ProviderCall(key, id, seen.content, result)])
  {
  }

  /** What each answer leaves: the attempt's outcome, and for an accepted post of a draft that still has
      its approval the posted row with one entry in each log. */
  lemma FinishLaw(s: State, w: Worker, now: nat)
    requires w in s.workers && s.workers[w].Answered? && s.workers[w].call < |s.calls|
    requires s.workers[w].key in s.attempts && s.workers[w].draft in s.drafts
    ensures
      var Answered(key, id, seen, call) := s.workers[w];
      var t, a, was := Apply(s, Finish(w, now)), s.attempts[key], s.drafts[id];
      var ended := s.(workers := s.workers - {w});
      match s.calls[call].result
      case Transient =>
        t == ended.(attempts := s.attempts[key := a.(status := UnknownOutcome, error :=
                      Some(if key.ClientKey? then PublisherUnknown else Transport))])
      case Refused =>
        t == ended.(attempts := s.attempts[key := a.(status := Failed, error :=
                      Some(if key.ClientKey? then PublisherRejected else ProviderRejected))])
      case Accepted(receipt) =>
        if was.approvedAt.None? then t == ended
        else t == ended.(drafts := s.drafts[id := was.(status := Posted, postedAt := Some(now),
                                                       postId := Some(receipt.postId))],
                         statusLog := s.statusLog + [StatusEvent(id, Posted)],
                         feedback := s.feedback +
                           [Feedback(id, PostedEvent, if key.DraftKey? then seen.candidate else None, None, None,
                                     Some(seen.content), if key.DraftKey? then seen.editDistance else None, None,
                                     Some(receipt.postId))],
                         attempts := s.attempts[key := a.(status := Completed, receipt := Some(receipt))])
    ensures AnsweredReply(Transient) == Replay(Unknown, None, Some(PublisherUnknown))
    ensures AnsweredReply(Refused) == Replay(Failure, None, Some(PublisherRejected))
    ensures forall r: Receipt :: AnsweredReply(Accepted(r)) == Replay(Success, Some(r), None)
  {
  }

  /** A generated draft starts pending and a prepared asset's draft approved, if the id is new. */
  lemma BirthLaw(s: State, id: DraftId, content: string, candidate: Option<CandidateId>, run: Option<RunId>,
                 event: Option<nat>, asset: Asset, now: nat)
    requires id !in s.drafts
    ensures
      var t := Apply(s, Create(id, content, candidate, run, event));
      && t.drafts == s.drafts[id := Draft(content, Pending, None, None, None, None, None, false, None, candidate, run,
                                          None, event)]
      && t.statusLog == s.statusLog && t.feedback == s.feedback && t.attempts == s.attempts
    ensures
      var t := Apply(s, Bridge(id, content, asset, now));
      && t.drafts == s.drafts[id := Draft(content, Approved, Some(now), None, None, None, None, false, None, None, None,
                                          Some(asset), None)]
      && t.statusLog == s.statusLog + [StatusEvent(id, Approved)] && t.feedback == s.feedback
  {
  }

  // ----- Every call was begun on an approved draft -----

  /** The step begins a call under the key: it finds the draft with that text, and the draft is approved,
      before it for `publish_draft` and after it for a client's command. */
  predicate Begins(t: State, step: Step, key: Key, id: DraftId, content: string) {
    && id in t.drafts && t.drafts[id].content == content
    && match key
       case DraftKey(d) =>
         && step.PublishBegin? && step.draft == id && d == id && Has(step.actor, {Owner, Admin})
         && t.drafts[id].status == Approved && t.drafts[id].approvedAt.Some?
       case ClientKey(_) =>
         && step.Reserve? && t.drafts[id].status in {Pending, Approved}
         && id in Apply(t, step).drafts && Apply(t, step).drafts[id].status == Approved
  }

  ghost predicate WasBegun(s: State, steps: seq<Step>, key: Key, id: DraftId, content: string) {
    exists n :: 0 <= n < |steps| && Begins(Run(s, steps[..n]), steps[n], key, id, content)
  }

  ghost predicate AllBegun(s: State, steps: seq<Step>) {
    var t := Run(s, steps);
    && (forall w :: w in t.workers && t.workers[w].Ready? ==>
          WasBegun(s, steps, t.workers[w].key, t.workers[w].draft, t.workers[w].seen.content))
    && (forall i :: 0 <= i < |t.calls| ==> WasBegun(s, steps, t.calls[i].key, t.calls[i].draft, t.calls[i].content))
  }

  predicate Reserves(t: State, step: Step) {
    step.Reserve? && step.worker in t.workers && t.workers[step.worker].Unused?
  }

  lemma ReadyWasReadyOrBegins(t: State, step: Step, w: Worker)
    requires Publication.Inv(t) && w in Apply(t, step).workers && Apply(t, step).workers[w].Ready?
    ensures
      var Ready(key, id, seen) := Apply(t, step).workers[w];
      (w in t.workers && t.workers[w] == Apply(t, step).workers[w]) || Begins(t, step, key, id, seen.content)
  {
    if Reserves(t, step) {
      ReservedIsReady(t, step, w);
    } else if step.PublishBegin? && step.worker !in t.workers {
      hide Publication.Inv;
      PublishBeginLaw(t, step.worker, step.actor, step.draft);
      hide Apply;
    } else {
      hide Begins;
      OtherReadyWasReady(t, step, w);
    }
  }

  lemma ReservedIsReady(t: State, step: Step, w: Worker)
    requires Publication.Inv(t) && Reserves(t, step)
    requires w in Apply(t, step).workers && Apply(t, step).workers[w].Ready?
    ensures
      var Ready(key, id, seen) := Apply(t, step).workers[w];
      (w in t.workers && t.workers[w] == Apply(t, step).workers[w]) || Begins(t, step, key, id, seen.content)
  {
    var Unused(key, fingerprint) := t.workers[step.worker];
    Publication.UnusedKeysAreClients(t, step.worker);
    hide Publication.Inv;
    ReserveLaw(t, step.worker, step.now, key, fingerprint.draft, fingerprint.asset);
    hide Apply;
  }

  lemma OtherReadyWasReady(t: State, step: Step, w: Worker)
    requires Publication.Inv(t) && !Reserves(t, step) && !(step.PublishBegin? && step.worker !in t.workers)
    requires w in Apply(t, step).workers && Apply(t, step).workers[w].Ready?
    ensures w in t.workers && t.workers[w] == Apply(t, step).workers[w]
  {
    Publication.EffectsLeaveOtherTables(t, DraftHistory.EffectOf(t, step));
    hide Publication.Inv, Performed, EditEffect, ApproveEffect, RejectEffect, SelectEffect, RegenerateEffect,
         CreateEffect, BridgeEffect, FinishEffect, PublishError, RoleError, ReserveEffect;
  }

  predicate Sends(t: State, w: Worker, c: ProviderCall) {
    && w in t.workers && t.workers[w].Ready?
    && c.key == t.workers[w].key && c.draft == t.workers[w].draft && c.content == t.workers[w].seen.content
  }

  lemma NewCallIsOfReady(t: State, step: Step, i: nat)
    requires i < |Apply(t, step).calls| && !(i < |t.calls| && Apply(t, step).calls[i] == t.calls[i])
    ensures exists w :: Sends(t, w, Apply(t, step).calls[i])
  {
    Publication.EffectsLeaveOtherTables(t, DraftHistory.EffectOf(t, step));
    hide Performed, EditEffect, ApproveEffect, RejectEffect, SelectEffect, RegenerateEffect, CreateEffect, BridgeEffect,
         FinishEffect, ReserveEffect;
    assert step.Call? && Sends(t, step.worker, Apply(t, step).calls[i]);
  }

  lemma StillBegun(s: State, steps: seq<Step>, last: Step, key: Key, id: DraftId, content: string)
    requires WasBegun(s, steps, key, id, content)
    ensures WasBegun(s, steps + [last], key, id, content)
  {
    hide Run, Begins;
    var n :| 0 <= n < |steps| && Begins(Run(s, steps[..n]), steps[n], key, id, content);
    assert (steps + [last])[..n] == steps[..n] && (steps + [last])[n] == steps[n];
  }

  lemma {:induction false} EveryCallWasBegun(s: State, steps: seq<Step>)
    requires Init(s)
    ensures AllBegun(s, steps)
    decreases |steps|
  {
    if steps != [] {
      var before, last := steps[..|steps| - 1], steps[|steps| - 1];
      EveryCallWasBegun(s, before);
      StepKeepsBegun(s, before, last);
      assert before + [last] == steps;
    }
  }

  lemma NewReadyWasBegun(s: State, before: seq<Step>, last: Step, w: Worker)
    requires Init(s) && AllBegun(s, before)
    requires w in Run(s, before + [last]).workers && Run(s, before + [last]).workers[w].Ready?
    ensures
      var Ready(key, id, seen) := Run(s, before + [last]).workers[w];
      WasBegun(s, before + [last], key, id, seen.content)
  {
    var t, steps := Run(s, before), before + [last];
    Publication.RunKeepsInv(s, before);
    hide Run, Apply, Begins, Publication.Inv;
    Resending.RunThen(s, before, last);
    ReadyWasReadyOrBegins(t, last, w);
    var Ready(key, id, seen) := Apply(t, last).workers[w];
    if w in t.workers && t.workers[w] == Apply(t, last).workers[w] {
      StillBegun(s, before, last, key, id, seen.content);
    } else {
      assert steps[..|before|] == before && steps[|before|] == last;
    }
  }

  lemma StepKeepsBegun(s: State, before: seq<Step>, last: Step)
    requires Init(s) && AllBegun(s, before)
    ensures AllBegun(s, before + [last])
  {
    var t, steps := Run(s, before), before + [last];
    hide Run, Apply, Begins;
    Resending.RunThen(s, before, last);
    var u := Run(s, steps);
    forall w | w in u.workers && u.workers[w].Ready?
      ensures WasBegun(s, steps, u.workers[w].key, u.workers[w].draft, u.workers[w].seen.content)
    {
      NewReadyWasBegun(s, before, last, w);
    }
    forall i | 0 <= i < |u.calls|
      ensures WasBegun(s, steps, u.calls[i].key, u.calls[i].draft, u.calls[i].content)
    {
      var c := u.calls[i];
      if !(i < |t.calls| && u.calls[i] == t.calls[i]) { NewCallIsOfReady(t, last, i); }
      assert WasBegun(s, before, c.key, c.draft, c.content);
      StillBegun(s, before, last, c.key, c.draft, c.content);
    }
  }

  /** Over every run, each provider call under a draft's own key was begun by an owner or admin on a draft
      that was approved at that moment, and sends the text it had then; and each call under a client's key
      was begun by a reservation that left the draft approved. */
  lemma CallsAreOfApprovedDrafts(s: State, steps: seq<Step>, i: nat)
    requires Init(s) && i < |Run(s, steps).calls|
    ensures
      var c := Run(s, steps).calls[i];
      exists n :: 0 <= n < |steps| && c.draft in Run(s, steps[..n]).drafts
        && var row := Run(s, steps[..n]).drafts[c.draft];
           && row.content == c.content
           && (c.key.DraftKey? ==>
                 && steps[n].PublishBegin? && steps[n].draft == c.draft && Has(steps[n].actor, {Owner, Admin})
                 && row.status == Approved && row.approvedAt.Some?)
           && (c.key.ClientKey? ==>
                 && steps[n].Reserve? && c.draft in Apply(Run(s, steps[..n]), steps[n]).drafts
                 && Apply(Run(s, steps[..n]), steps[n]).drafts[c.draft].status == Approved)
  {
    hide Run, Apply;
    EveryCallWasBegun(s, steps);
    var c := Run(s, steps).calls[i];
    var n :| 0 <= n < |steps| && Begins(Run(s, steps[..n]), steps[n], c.key, c.draft, c.content);
  }
}
