/** The tables of app/modules/drafts/models/persistence.py for one workspace, and the commands of
    app/modules/drafts/services/review.py as they update them. */
module DraftStore {
  import opened Options
  import opened ReviewPolicy
  import opened Drafts
  import TextDistance

  class DraftTables {
    var drafts: map<DraftId, Draft>
    var attempts: map<Key, Attempt>
    var statusLog: seq<StatusEvent>
    var feedback: seq<Feedback>
    const assets: map<Asset, string>
    ghost var born: map<DraftId, string>
    // Where the live publication calls stand, and what the provider has been asked.
    var workers: map<Worker, Phase>
    var calls: seq<ProviderCall>

    ghost function Abs(): State
      reads this
    {
      State(drafts, attempts, statusLog, feedback, assets, born, workers, calls)
    }

    constructor (assets: map<Asset, string>)
      ensures Init(Abs())
    {
      drafts, attempts, statusLog, feedback := map[], map[], [], [];
      this.assets := assets;
      born, workers, calls := map[], map[], [];
    }

    method AddStatus(id: DraftId, status: Status)
      modifies this`statusLog
      ensures statusLog == old(statusLog) + [StatusEvent(id, status)]
    {
      statusLog := statusLog + [StatusEvent(id, status)];
    }

    method AddFeedback(event: Feedback)
      modifies this`feedback
      ensures feedback == old(feedback) + [event]
    {
      feedback := feedback + [event];
    }

    method RequireRole(actor: Option<Role>, allowed: set<Role>, forbidden: Code) returns (error: Option<Code>)
      ensures error == RoleError(actor, allowed, forbidden)
    {
      error := None;
      if actor.None? {
        error := Some(DraftNotFound);
      } else if actor.value !in allowed {
        error := Some(forbidden);
      }
    }

    method EditDraftContent(actor: Option<Role>, id: DraftId, content: string) returns (error: Option<Code>)
      modifies this
      ensures Abs() == Apply(old(Abs()), Edit(actor, id, content))
      ensures error == EditError(old(Abs()), actor, id)
    {
      error := RequireRole(actor, EDIT_ROLES, WriteForbidden);
      if error.Some? { return; }
      if id !in drafts { return Some(DraftNotFound); }
      var draft := drafts[id];
      if !Editable(draft.status) { return Some(EditInvalidStatus); }
      if draft.content == content { return; }
      var distance := TextDistance.EditDistance(draft.content, content);
      drafts := drafts[id := draft.(content := content, userEdited := true, editDistance := Some(distance))];
      AddFeedback(Feedback(id, EditedEvent, draft.candidate, draft.candidate, Some(draft.content), Some(content),
                           Some(distance), None, None));
    }

    method ApproveDraft(actor: Option<Role>, id: DraftId, now: nat) returns (error: Option<Code>)
      modifies this
      ensures Abs() == Apply(old(Abs()), Approve(actor, id, now))
      ensures error == ApproveError(old(Abs()), actor, id)
    {
      error := RequireRole(actor, REVIEW_ROLES, ReviewForbidden);
      if error.Some? { return; }
      if id !in drafts { return Some(DraftNotFound); }
      var draft := drafts[id];
      if draft.status in {Approved, Posted} { return; }
      if !Approvable(draft.status) { return Some(ApproveInvalidStatus); }
      drafts := drafts[id := draft.(status := Approved, approvedAt := Some(now), rejectedAt := None,
                                    rejectionReason := None)];
      AddStatus(id, Approved);
      AddFeedback(Feedback(id, ApprovedEvent, draft.candidate, None, None, Some(draft.content), draft.editDistance,
                           None, None));
    }

    method RejectDraft(actor: Option<Role>, id: DraftId, reason: string, now: nat) returns (error: Option<Code>)
      modifies this
      ensures Abs() == Apply(old(Abs()), Reject(actor, id, reason, now))
      ensures error == RejectError(old(Abs()), actor, id)
    {
      error := RequireRole(actor, REVIEW_ROLES, ReviewForbidden);
      if error.Some? { return; }
      if id !in drafts { return Some(DraftNotFound); }
      var draft := drafts[id];
      if draft.status == Rejected { return; }
      if !Rejectable(draft.status) { return Some(RejectInvalidStatus); }
      drafts := drafts[id := draft.(status := Rejected, approvedAt := None, rejectedAt := Some(now),
                                    rejectionReason := Some(reason))];
      AddStatus(id, Rejected);
      AddFeedback(Feedback(id, RejectedEvent, draft.candidate, None, Some(draft.content), None, draft.editDistance,
                           Some(reason), None));
    }

    method SelectDraftCandidate(actor: Option<Role>, id: DraftId, candidate: CandidateId, found: Option<string>)
      returns (error: Option<Code>)
      modifies this
      ensures Abs() == Apply(old(Abs()), Select(actor, id, candidate, found))
      ensures error == SelectError(old(Abs()), actor, id, found)
    {
      error := RequireRole(actor, EDIT_ROLES, WriteForbidden);
      if error.Some? { return; }
      if id !in drafts { return Some(DraftNotFound); }
      var draft := drafts[id];
      if !CandidateSelectable(draft.status) { return Some(SelectionInvalidStatus); }
      if found.None? { return Some(CandidateNotFound); }
      if draft.candidate == Some(candidate) && draft.content == found.value { return; }
      drafts := drafts[id := draft.(candidate := Some(candidate), content := found.value, userEdited := false,
                                    editDistance := Some(0))];
      AddFeedback(Feedback(id, SelectedEvent, Some(candidate), draft.candidate, Some(draft.content), found, Some(0),
                           None, None));
    }

    method RegenerateDraftAngle(actor: Option<Role>, id: DraftId, run: RunId, candidate: CandidateId, content: string)
      returns (error: Option<Code>)
      modifies this
      ensures Abs() == Apply(old(Abs()), Regenerate(actor, id, run, candidate, content))
      ensures error == RegenerateError(old(Abs()), actor, id)
    {
      error := RequireRole(actor, EDIT_ROLES, WriteForbidden);
      if error.Some? { return; }
      if id !in drafts { return Some(DraftNotFound); }
      var draft := drafts[id];
      if draft.status !in {Pending, Approved} { return Some(RegenerationInvalidStatus); }
      if draft.event.None? { return Some(RegenerationMissingEvent); }
      if draft.generationRun == Some(run) { return; }
      drafts := drafts[id := draft.(content := content, generationRun := Some(run), candidate := Some(candidate),
                                    userEdited := false, editDistance := Some(0), status := Pending,
                                    approvedAt := None)];
      if draft.status == Approved {
        AddStatus(id, Pending);
      }
      AddFeedback(Feedback(id, SelectedEvent, Some(candidate), draft.candidate, Some(draft.content), Some(content),
                           Some(0), None, None));
    }

    // ----- publish_draft -----

    /** An error, or the post of a draft that is already posted, or neither and the command goes on. */
    method BeginPublishDraft(worker: Worker, actor: Option<Role>, id: DraftId)
      returns (error: Option<Code>, already: Option<nat>)
      requires worker !in workers
      modifies this
      ensures Abs() == Apply(old(Abs()), PublishBegin(worker, actor, id))
      ensures error == PublishError(old(Abs()), actor, id)
      ensures already == if error.None? && old(drafts)[id].status == Posted then old(drafts)[id].postId else None
      ensures error.None? && already.None? ==>
        worker in workers && workers[worker] == Ready(DraftKey(id), id, old(drafts)[id])
    {
      already := None;
      error := RequireRole(actor, PUBLISH_ROLES, PublishForbidden);
      if error.Some? { return; }
      if id !in drafts { return Some(DraftNotFound), None; }
      var draft := drafts[id];
      if draft.status == Posted && draft.postId.Some? { return None, draft.postId; }
      if !Publishable(draft.status, draft.approvedAt.Some?) { return Some(PublishRequiresApproval), None; }
      var key := DraftKey(id);
      if key in attempts && attempts[key].status == UnknownOutcome { return Some(PublisherUnknown), None; }
      if key !in attempts {
        attempts := attempts[key := Attempt(id, None, InFlight, None, None)];
      }
      workers := workers[worker := Ready(key, id, draft)];
    }

    // ----- approve_and_publish_draft_revision -----

    /** The lookup of the key: an error, a replay, or neither and the command goes on. */
    method LookUpCommand(worker: Worker, actor: Option<Role>, name: string, fingerprint: Fingerprint)
      returns (error: Option<Code>, replay: Option<Replay>)
      requires worker !in workers
      modifies this
      ensures Abs() == Apply(old(Abs()), Lookup(worker, actor, name, fingerprint))
      ensures error == RoleError(actor, PUBLISH_ROLES, PublishForbidden)
      ensures replay == if error.None? && ClientKey(name) in old(attempts)
                        then Some(ReplayOf(old(attempts)[ClientKey(name)], fingerprint)) else None
    {
      replay := None;
      error := RequireRole(actor, PUBLISH_ROLES, PublishForbidden);
      if error.Some? { return; }
      var key := ClientKey(name);
      if key in attempts {
        var attempt := attempts[key];
        if attempt.fingerprint != Some(fingerprint) {
          replay := Some(Conflict);
        } else {
          var original := if attempt.status == Completed then Success
                          else if attempt.status == Failed then Failure else Unknown;
          replay := Some(Replay(original, attempt.receipt, attempt.error));
        }
      } else {
        workers := workers[worker := Unused(key, fingerprint)];
      }
    }

    /** The tests of a reservation, in the order of the code. That the key is taken shows at the insert. */
    method FindReservationError(key: Key, fingerprint: Fingerprint) returns (error: Option<Code>)
      ensures error == ReserveError(Abs(), key, fingerprint)
    {
      var id := fingerprint.draft;
      if id !in drafts { return Some(DraftNotFound); }
      var draft := drafts[id];
      if fingerprint.asset !in assets || draft.asset != Some(fingerprint.asset)
         || draft.content != assets[fingerprint.asset] {
        return Some(RevisionConflict);
      }
      if draft.status == Posted { return Some(AlreadyPublished); }
      if draft.status != Approved && !Approvable(draft.status) { return Some(ApproveInvalidStatus); }
      // The insert violates the unique key, and the transaction rolls back as a whole.
      if key in attempts { return Some(ConstraintViolation); }
      return None;
    }

    method ReserveCommand(worker: Worker, now: nat) returns (error: Option<Code>)
      requires worker in workers && workers[worker].Unused?
      modifies this
      ensures Abs() == Apply(old(Abs()), Reserve(worker, now))
      ensures error == ReserveError(old(Abs()), old(workers[worker].key), old(workers[worker].fingerprint))
    {
      var Unused(key, fingerprint) := workers[worker];
      error := FindReservationError(key, fingerprint);
      hide ReserveError;
      if error.Some? {
        workers := workers - {worker};
        return;
      }
      assert CanReserve(Abs(), worker);
      var id := fingerprint.draft;
      var draft := drafts[id];
      if draft.status != Approved {
        drafts := drafts[id := draft.(status := Approved, approvedAt := Some(now))];
        AddStatus(id, Approved);
        AddFeedback(Feedback(id, ApprovedEvent, None, None, None, Some(draft.content), None, None, None));
      }
      attempts := attempts[key := Attempt(id, Some(fingerprint), InFlight, None, None)];
      workers := workers[worker := Ready(key, id, draft)];
    }

    // ----- Both commands -----

    /** No usable connection: the reply to a client's command, or the error that `publish_draft` raises. */
    method RecordDisconnected(worker: Worker, code: Code) returns (error: Option<Code>, reply: Option<Replay>)
      requires worker in workers && workers[worker].Ready? && code in CONNECTION_CODES
      modifies this
      ensures Abs() == Apply(old(Abs()), Disconnect(worker, code))
      ensures if old(workers[worker].key).ClientKey? then error == None && reply == Some(DisconnectedReply(code))
              else error == Some(code) && reply == None
    {
      var key := workers[worker].key;
      if key.ClientKey? {
        error, reply := None, Some(Replay(Failure, None, Some(code)));
      } else {
        error, reply := Some(code), None;
      }
      if key.ClientKey? && key in attempts {
        attempts := attempts[key := attempts[key].(status := Failed, error := Some(code))];
      }
      workers := workers - {worker};
    }

    /** The provider call; its result is the environment's choice. */
    method CallPublisher(worker: Worker, result: ProviderResult)
      requires worker in workers && workers[worker].Ready?
      modifies this
      ensures Abs() == Apply(old(Abs()), Call(worker, result))
    {
      var Ready(key, id, seen) := workers[worker];
      workers := workers[worker := Answered(key, id, seen, |calls|)];
      calls := calls + [ProviderCall(key, id, seen.content, result)];
    }

    /** The reply to a client's command; `publish_draft` replies only to a success, and raises
        otherwise. */
    method RecordAnswer(worker: Worker, now: nat) returns (error: Option<Code>, reply: Option<Replay>)
      requires CanFinish(Abs(), worker)
      modifies this
      ensures Abs() == Apply(old(Abs()), Finish(worker, now))
      ensures error == Some(ConstraintViolation) <==>
        old(calls[workers[worker].call].result.Accepted?) && FinishEffect(old(Abs()), worker, now) == Nothing
      ensures error != Some(ConstraintViolation) ==>
        var result := old(calls[workers[worker].call].result);
        if old(workers[worker].key).ClientKey? || result.Accepted?
        then error == None && reply == Some(AnsweredReply(result))
        else error == Some(if result.Transient? then PublisherTransient else PublisherRejected) && reply == None
      ensures error == Some(ConstraintViolation) ==> reply == None
    {
      error, reply := None, None;
      var Answered(key, id, seen, call) := workers[worker];
      var attempt := attempts[key];
      workers := workers - {worker};
      match calls[call].result {
        case Transient =>
          if key.ClientKey? {
            attempts := attempts[key := attempt.(status := UnknownOutcome, error := Some(PublisherUnknown))];
            reply := Some(Replay(Unknown, None, Some(PublisherUnknown)));
          } else {
            attempts := attempts[key := attempt.(status := UnknownOutcome, error := Some(Transport))];
            error := Some(PublisherTransient);
          }
        case Refused =>
          if key.ClientKey? {
            attempts := attempts[key := attempt.(status := Failed, error := Some(PublisherRejected))];
            reply := Some(Replay(Failure, None, Some(PublisherRejected)));
          } else {
            attempts := attempts[key := attempt.(status := Failed, error := Some(ProviderRejected))];
            error := Some(PublisherRejected);
          }
        case Accepted(receipt) =>
          var row := drafts[id].(status := Posted, postedAt := Some(now), postId := Some(receipt.postId));
          if !MeetsChecks(row) {
            return Some(ConstraintViolation), None;
          }
          drafts := drafts[id := row];
          AddStatus(id, Posted);
          AddFeedback(PostedFeedback(key, id, seen, receipt.postId));
          attempts := attempts[key := attempt.(status := Completed, receipt := Some(receipt))];
          reply := Some(Replay(Success, Some(receipt), None));
      }
    }
  }
}
