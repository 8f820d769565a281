/** The guards of app/modules/drafts/policies/review.py. */
module ReviewPolicy {
  datatype Role = Owner | Admin | Editor | Reviewer | Viewer
  datatype Status = Pending | Approved | Rejected | Posted

  const EDIT_ROLES := {Owner, Admin, Editor}
  const REVIEW_ROLES := {Owner, Admin, Reviewer}
  const PUBLISH_ROLES := {Owner, Admin}

  predicate Publishable(status: Status, approved: bool) { status == Approved && approved }
  predicate Editable(status: Status) { status in {Pending, Approved} }
  predicate Approvable(status: Status) { status == Pending }
  predicate Rejectable(status: Status) { status in {Pending, Approved} }
  predicate CandidateSelectable(status: Status) { status in {Pending, Approved} }
}

/** The draft commands of app/modules/drafts/services/review.py and the draft update of
    app/modules/drafts/services/regeneration.py, over the tables of one workspace.

    Every transaction is one step. The two publication commands are several: their provider call
    happens between two transactions, and a worker may die between any two of its steps. */
module Drafts {
  import opened Options
  import opened ReviewPolicy
  import TextDistance

  type DraftId = nat
  type CandidateId = nat
  type RunId = nat
  type Worker = nat

  /** An immutable prepared X asset: its id and its revision. */
  datatype Asset = Asset(id: nat, revision: nat)

  datatype Draft = Draft(
    content: string, status: Status,
    approvedAt: Option<nat>, rejectedAt: Option<nat>, rejectionReason: Option<string>,
    postedAt: Option<nat>, postId: Option<nat>,
    userEdited: bool, editDistance: Option<nat>,
    candidate: Option<CandidateId>, generationRun: Option<RunId>, asset: Option<Asset>, event: Option<nat>)

  datatype StatusEvent = StatusEvent(draft: DraftId, status: Status)

  datatype Kind = SelectedEvent | EditedEvent | ApprovedEvent | RejectedEvent | PostedEvent

  datatype Feedback = Feedback(
    draft: DraftId, kind: Kind, candidate: Option<CandidateId>, previousCandidate: Option<CandidateId>,
    contentBefore: Option<string>, contentAfter: Option<string>, editDistance: Option<nat>,
    rejectionReason: Option<string>, postId: Option<nat>)

  /** The command id of an attempt: a client's key, or the key that `publish_draft` derives from
      the draft. No client key has the derived form. */
  datatype Key = ClientKey(name: string) | DraftKey(draft: DraftId)

  datatype Fingerprint = Fingerprint(draft: DraftId, asset: Asset)
  datatype Receipt = Receipt(postId: nat, url: string)

  datatype AttemptStatus = InFlight | Completed | Failed | UnknownOutcome

  datatype Code =
    | DraftNotFound | WriteForbidden | ReviewForbidden | PublishForbidden
    | EditInvalidStatus | ApproveInvalidStatus | RejectInvalidStatus | SelectionInvalidStatus
    | CandidateNotFound | RegenerationInvalidStatus | RegenerationMissingEvent
    | PublishRequiresApproval | IdempotencyConflict | RevisionConflict | AlreadyPublished
    | ConnectionRequired | WriteScopeRequired | CredentialsUnavailable
    | PublisherUnknown | PublisherTransient | PublisherRejected | Transport | ProviderRejected
    | ConstraintViolation

  const CONNECTION_CODES := {ConnectionRequired, WriteScopeRequired, CredentialsUnavailable}

  datatype Attempt = Attempt(draft: DraftId, fingerprint: Option<Fingerprint>, status: AttemptStatus,
                             receipt: Option<Receipt>, error: Option<Code>)

  /** What `publisher.publish` did: returned, raised PublisherPermanentError, or raised
      PublisherTransientError. Any other exception is a crash of the worker. */
  datatype ProviderResult = Accepted(receipt: Receipt) | Refused | Transient

  datatype ProviderCall = ProviderCall(key: Key, draft: DraftId, content: string, result: ProviderResult)

  /** Where a live publication call stands: it has found its key unused; it has committed the
      attempt and holds the draft as it read it; it is back from provider call number `call`. */
  datatype Phase =
    | Unused(key: Key, fingerprint: Fingerprint)
    | Ready(key: Key, draft: DraftId, seen: Draft)
    | Answered(key: Key, draft: DraftId, seen: Draft, call: nat)

  datatype State = State(
    drafts: map<DraftId, Draft>, attempts: map<Key, Attempt>,
    statusLog: seq<StatusEvent>, feedback: seq<Feedback>,
    assets: map<Asset, string>, born: map<DraftId, string>,
    workers: map<Worker, Phase>, calls: seq<ProviderCall>)

  /** The CHECK constraints drafts_approval_required and drafts_post_receipt_required. */
  predicate MeetsChecks(row: Draft) {
    && (row.status in {Approved, Posted} ==> row.approvedAt.Some?)
    && (row.status == Posted ==> row.postedAt.Some? && row.postId.Some?)
  }

  // ----- One row written, with at most one entry in each log -----

  function Appended<T>(log: seq<T>, entry: Option<T>): seq<T> {
    if entry.Some? then log + [entry.value] else log
  }

  function Write(s: State, id: DraftId, row: Draft, status: Option<Status>, event: Option<Feedback>): State {
    s.(drafts := s.drafts[id := row],
       statusLog := Appended(s.statusLog, if status.Some? then Some(StatusEvent(id, status.value)) else None),
       feedback := Appended(s.feedback, event))
  }

  /** What a command does to the draft tables. */
  datatype Effect =
    | Nothing
    | Birth(draft: DraftId, row: Draft, status: Option<Status>)
    | Change(draft: DraftId, row: Draft, status: Option<Status>, event: Feedback)

  function Performed(s: State, e: Effect): State {
    match e
    case Nothing => s
    case Birth(id, row, status) => Write(s.(born := s.born[id := row.content]), id, row, status, None)
    case Change(id, row, status, event) => Write(s, id, row, status, Some(event))
  }

  function RoleError(actor: Option<Role>, allowed: set<Role>, forbidden: Code): Option<Code> {
    if actor.None? then Some(DraftNotFound)
    else if actor.value !in allowed then Some(forbidden)
    else None
  }

  function EditError(s: State, actor: Option<Role>, id: DraftId): Option<Code> {
    var role := RoleError(actor, EDIT_ROLES, WriteForbidden);
    if role.Some? then role
    else if id !in s.drafts then Some(DraftNotFound)
    else if !Editable(s.drafts[id].status) then Some(EditInvalidStatus)
    else None
  }

  function EditEffect(s: State, actor: Option<Role>, id: DraftId, content: string): Effect {
    if EditError(s, actor, id).Some? || s.drafts[id].content == content then Nothing
    else
      var was := s.drafts[id];
      var distance := TextDistance.Distance(was.content, content);
      Change(id, was.(content := content, userEdited := true, editDistance := Some(distance)), None,
            Feedback(id, EditedEvent, was.candidate, was.candidate, Some(was.content), Some(content),
                          Some(distance), None, None))
  }

  function ApproveError(s: State, actor: Option<Role>, id: DraftId): Option<Code> {
    var role := RoleError(actor, REVIEW_ROLES, ReviewForbidden);
    if role.Some? then role
    else if id !in s.drafts then Some(DraftNotFound)
    else if s.drafts[id].status in {Approved, Posted} then None
    else if !Approvable(s.drafts[id].status) then Some(ApproveInvalidStatus)
    else None
  }

  function ApproveEffect(s: State, actor: Option<Role>, id: DraftId, now: nat): Effect {
    if ApproveError(s, actor, id).Some? || s.drafts[id].status in {Approved, Posted} then Nothing
    else
      var was := s.drafts[id];
      Change(id, was.(status := Approved, approvedAt := Some(now), rejectedAt := None, rejectionReason := None),
            Some(Approved),
            Feedback(id, ApprovedEvent, was.candidate, None, None, Some(was.content), was.editDistance, None, None))
  }

  function RejectError(s: State, actor: Option<Role>, id: DraftId): Option<Code> {
    var role := RoleError(actor, REVIEW_ROLES, ReviewForbidden);
    if role.Some? then role
    else if id !in s.drafts then Some(DraftNotFound)
    else if s.drafts[id].status == Rejected then None
    else if !Rejectable(s.drafts[id].status) then Some(RejectInvalidStatus)
    else None
  }

  function RejectEffect(s: State, actor: Option<Role>, id: DraftId, reason: string, now: nat): Effect {
    if RejectError(s, actor, id).Some? || s.drafts[id].status == Rejected then Nothing
    else
      var was := s.drafts[id];
      Change(id, was.(status := Rejected, approvedAt := None, rejectedAt := Some(now), rejectionReason := Some(reason)),
            Some(Rejected),
            Feedback(id, RejectedEvent, was.candidate, None, Some(was.content), None, was.editDistance, Some(reason),
                     None))
  }

  /** `found` is the content of the candidate row of the draft's event, if there is one. */
  function SelectError(s: State, actor: Option<Role>, id: DraftId, found: Option<string>): Option<Code> {
    var role := RoleError(actor, EDIT_ROLES, WriteForbidden);
    if role.Some? then role
    else if id !in s.drafts then Some(DraftNotFound)
    else if !CandidateSelectable(s.drafts[id].status) then Some(SelectionInvalidStatus)
    else if found.None? then Some(CandidateNotFound)
    else None
  }

  function SelectEffect(s: State, actor: Option<Role>, id: DraftId, candidate: CandidateId,
                        found: Option<string>): Effect {
    if SelectError(s, actor, id, found).Some?
       || (s.drafts[id].candidate == Some(candidate) && s.drafts[id].content == found.value) then Nothing
    else
      var was := s.drafts[id];
      Change(id, was.(candidate := Some(candidate), content := found.value, userEdited := false,
                      editDistance := Some(0)),
            None,
            Feedback(id, SelectedEvent, Some(candidate), was.candidate, Some(was.content), found, Some(0), None, None))
  }

  function RegenerateError(s: State, actor: Option<Role>, id: DraftId): Option<Code> {
    var role := RoleError(actor, EDIT_ROLES, WriteForbidden);
    if role.Some? then role
    else if id !in s.drafts then Some(DraftNotFound)
    else if s.drafts[id].status !in {Pending, Approved} then Some(RegenerationInvalidStatus)
    else if s.drafts[id].event.None? then Some(RegenerationMissingEvent)
    else None
  }

  /** Generation run `run` put `content` first, as candidate `candidate`. */
  function RegenerateEffect(s: State, actor: Option<Role>, id: DraftId, run: RunId, candidate: CandidateId,
                            content: string): Effect {
    if RegenerateError(s, actor, id).Some? || s.drafts[id].generationRun == Some(run) then Nothing
    else
      var was := s.drafts[id];
      Change(id,
            was.(content := content, generationRun := Some(run), candidate := Some(candidate), userEdited := false,
                 editDistance := Some(0), status := Pending, approvedAt := None),
            if was.status == Approved then Some(Pending) else None,
            Feedback(id, SelectedEvent, Some(candidate), was.candidate, Some(was.content), Some(content), Some(0),
                     None, None))
  }

  /** A generated draft starts pending and unlogged; a prepared asset's draft starts approved. */
  function CreateEffect(s: State, id: DraftId, content: string, candidate: Option<CandidateId>, run: Option<RunId>,
                        event: Option<nat>): Effect {
    if id in s.drafts then Nothing
    else
      Birth(id,
            Draft(content, Pending, None, None, None, None, None, false, None, candidate, run, None, event), None)
  }

  function BridgeEffect(s: State, id: DraftId, content: string, asset: Asset, now: nat): Effect {
    if id in s.drafts then Nothing
    else
      Birth(id,
            Draft(content, Approved, Some(now), None, None, None, None, false, None, None, None, Some(asset), None),
            Some(Approved))
  }

  // ----- Publication -----

  /** The reply of `publish_draft`'s first transaction; None means that it goes on to the provider
      or that the draft is already posted. */
  function PublishError(s: State, actor: Option<Role>, id: DraftId): Option<Code> {
    var role := RoleError(actor, PUBLISH_ROLES, PublishForbidden);
    if role.Some? then role
    else if id !in s.drafts then Some(DraftNotFound)
    else if s.drafts[id].status == Posted && s.drafts[id].postId.Some? then None
    else if !Publishable(s.drafts[id].status, s.drafts[id].approvedAt.Some?) then Some(PublishRequiresApproval)
    else if DraftKey(id) in s.attempts && s.attempts[DraftKey(id)].status == UnknownOutcome then Some(PublisherUnknown)
    else None
  }

  function PublishBegun(s: State, w: Worker, actor: Option<Role>, id: DraftId): State {
    if w in s.workers || PublishError(s, actor, id).Some? || s.drafts[id].status == Posted then s
    else
      s.(attempts := if DraftKey(id) in s.attempts then s.attempts
                     else s.attempts[DraftKey(id) := Attempt(id, None, InFlight, None, None)],
         workers := s.workers[w := Ready(DraftKey(id), id, s.drafts[id])])
  }

  datatype Original = Success | Failure | Unknown

  /** The reply to a command whose key is already taken. */
  datatype Replay = Conflict | Replay(original: Original, receipt: Option<Receipt>, error: Option<Code>)

  function ReplayOf(attempt: Attempt, fingerprint: Fingerprint): Replay {
    if attempt.fingerprint != Some(fingerprint) then Conflict
    else
      Replay(match attempt.status
             case Completed => Success
             case Failed => Failure
             case InFlight => Unknown
             case UnknownOutcome => Unknown,
             attempt.receipt, attempt.error)
  }

  function LookedUp(s: State, w: Worker, actor: Option<Role>, name: string, fingerprint: Fingerprint): State {
    if w in s.workers || RoleError(actor, PUBLISH_ROLES, PublishForbidden).Some? || ClientKey(name) in s.attempts then s
    else s.(workers := s.workers[w := Unused(ClientKey(name), fingerprint)])
  }

  function ReserveError(s: State, key: Key, fingerprint: Fingerprint): Option<Code> {
    var id := fingerprint.draft;
    if id !in s.drafts then Some(DraftNotFound)
    else if fingerprint.asset !in s.assets || s.drafts[id].asset != Some(fingerprint.asset)
            || s.drafts[id].content != s.assets[fingerprint.asset] then Some(RevisionConflict)
    else if s.drafts[id].status == Posted then Some(AlreadyPublished)
    else if s.drafts[id].status != Approved && !Approvable(s.drafts[id].status) then Some(ApproveInvalidStatus)
    else if key in s.attempts then Some(ConstraintViolation)
    else None
  }

  predicate CanReserve(s: State, w: Worker) {
    && w in s.workers && s.workers[w].Unused?
    && ReserveError(s, s.workers[w].key, s.workers[w].fingerprint).None?
  }

  function ReserveEffect(s: State, w: Worker, now: nat): Effect {
    if !CanReserve(s, w) || s.drafts[s.workers[w].fingerprint.draft].status == Approved then Nothing
    else
      var id := s.workers[w].fingerprint.draft;
      var was := s.drafts[id];
      Change(id, was.(status := Approved, approvedAt := Some(now)), Some(Approved),
             Feedback(id, ApprovedEvent, None, None, None, Some(was.content), None, None, None))
  }

  /** Approve if need be and insert the attempt, in one transaction. */
  function Reserved(s: State, w: Worker, now: nat): State {
    if CanReserve(s, w) then
      var Unused(key, fingerprint) := s.workers[w];
      var id := fingerprint.draft;
      Performed(s, ReserveEffect(s, w, now)).(
        attempts := s.attempts[key := Attempt(id, Some(fingerprint), InFlight, None, None)],
        workers := s.workers[w := Ready(key, id, s.drafts[id])])
    else if w in s.workers && s.workers[w].Unused? then s.(workers := s.workers - {w})
    else s
  }

  /** No usable connection: a client's attempt records why, `publish_draft` only raises. */
  function Disconnected(s: State, w: Worker, code: Code): State {
    if w !in s.workers || !s.workers[w].Ready? || code !in CONNECTION_CODES then s
    else
      var key := s.workers[w].key;
      s.(workers := s.workers - {w},
         attempts := if key.ClientKey? && key in s.attempts
                     then s.attempts[key := s.attempts[key].(status := Failed, error := Some(code))]
                     else s.attempts)
  }

  /** The reply to a client's command that found no usable connection. */
  function DisconnectedReply(code: Code): Replay {
    Replay(Failure, None, Some(code))
  }

  /** The reply to a client's command once the provider has answered. */
  function AnsweredReply(result: ProviderResult): Replay {
    match result
    case Transient => Replay(Unknown, None, Some(PublisherUnknown))
    case Refused => Replay(Failure, None, Some(PublisherRejected))
    case Accepted(receipt) => Replay(Success, Some(receipt), None)
  }

  function Called(s: State, w: Worker, result: ProviderResult): State {
    if w !in s.workers || !s.workers[w].Ready? then s
    else
      var Ready(key, id, seen) := s.workers[w];
      s.(workers := s.workers[w := Answered(key, id, seen, |s.calls|)],
         calls := s.calls + [ProviderCall(key, id, seen.content, result)])
  }

  function PostedFeedback(key: Key, id: DraftId, seen: Draft, postId: nat): Feedback {
    if key.DraftKey?
    then Feedback(id, PostedEvent, seen.candidate, None, None, Some(seen.content), seen.editDistance, None,
                  Some(postId))
    else Feedback(id, PostedEvent, None, None, None, Some(seen.content), None, None, Some(postId))
  }

  predicate CanFinish(s: State, w: Worker) {
    && w in s.workers && s.workers[w].Answered? && s.workers[w].call < |s.calls|
    && s.workers[w].key in s.attempts && s.workers[w].draft in s.drafts
  }

  function PostedRow(was: Draft, receipt: Receipt, now: nat): Draft {
    was.(status := Posted, postedAt := Some(now), postId := Some(receipt.postId))
  }

  function FinishEffect(s: State, w: Worker, now: nat): Effect {
    if !CanFinish(s, w) || !s.calls[s.workers[w].call].result.Accepted? then Nothing
    else
      var Answered(key, id, seen, call) := s.workers[w];
      var receipt := s.calls[call].result.receipt;
      if !MeetsChecks(PostedRow(s.drafts[id], receipt, now)) then Nothing
      else Change(id, PostedRow(s.drafts[id], receipt, now), Some(Posted),
                  PostedFeedback(key, id, seen, receipt.postId))
  }

  /** The attempt row after the provider's answer. */
  function Answer(attempt: Attempt, key: Key, result: ProviderResult): Attempt {
    match result
    case Transient =>
      attempt.(status := UnknownOutcome, error := Some(if key.ClientKey? then PublisherUnknown else Transport))
    case Refused =>
      attempt.(status := Failed, error := Some(if key.ClientKey? then PublisherRejected else ProviderRejected))
    case Accepted(receipt) =>
      attempt.(status := Completed, receipt := Some(receipt))
  }

  /** Record the provider's answer. A success that the CHECK constraints refuse rolls back. */
  function Finished(s: State, w: Worker, now: nat): State {
    if !CanFinish(s, w) then s
    else
      var Answered(key, id, seen, call) := s.workers[w];
      var result, effect := s.calls[call].result, FinishEffect(s, w, now);
      if result.Accepted? && effect == Nothing then s.(workers := s.workers - {w})
      else
        Performed(s, effect).(
          attempts := s.attempts[key := Answer(s.attempts[key], key, result)],
          workers := s.workers - {w})
  }

  // ----- Runs -----

  datatype Step =
    | Create(draft: DraftId, content: string, candidate: Option<CandidateId>, run: Option<RunId>, event: Option<nat>)
    | Bridge(draft: DraftId, content: string, asset: Asset, now: nat)
    | Edit(actor: Option<Role>, draft: DraftId, content: string)
    | Approve(actor: Option<Role>, draft: DraftId, now: nat)
    | Reject(actor: Option<Role>, draft: DraftId, reason: string, now: nat)
    | Select(actor: Option<Role>, draft: DraftId, chosen: CandidateId, found: Option<string>)
    | Regenerate(actor: Option<Role>, draft: DraftId, generation: RunId, chosen: CandidateId, content: string)
    | PublishBegin(worker: Worker, actor: Option<Role>, draft: DraftId)
    | Lookup(worker: Worker, actor: Option<Role>, name: string, fingerprint: Fingerprint)
    | Reserve(worker: Worker, now: nat)
    | Disconnect(worker: Worker, code: Code)
    | Call(worker: Worker, result: ProviderResult)
    | Finish(worker: Worker, now: nat)
    | Crash(worker: Worker)

  function Apply(s: State, step: Step): State {
    match step
    case Create(id, content, candidate, run, event) => Performed(s, CreateEffect(s, id, content, candidate, run, event))
    case Bridge(id, content, asset, now) => Performed(s, BridgeEffect(s, id, content, asset, now))
    case Edit(actor, id, content) => Performed(s, EditEffect(s, actor, id, content))
    case Approve(actor, id, now) => Performed(s, ApproveEffect(s, actor, id, now))
    case Reject(actor, id, reason, now) => Performed(s, RejectEffect(s, actor, id, reason, now))
    case Select(actor, id, candidate, found) => Performed(s, SelectEffect(s, actor, id, candidate, found))
    case Regenerate(actor, id, run, candidate, content) =>
        Performed(s, RegenerateEffect(s, actor, id, run, candidate, content))
    case PublishBegin(w, actor, id) => PublishBegun(s, w, actor, id)
    case Lookup(w, actor, name, fingerprint) => LookedUp(s, w, actor, name, fingerprint)
    case Reserve(w, now) => Reserved(s, w, now)
    case Disconnect(w, code) => Disconnected(s, w, code)
    case Call(w, result) => Called(s, w, result)
    case Finish(w, now) => Finished(s, w, now)
    case Crash(w) => s.(workers := s.workers - {w})
  }

  function Run(s: State, steps: seq<Step>): State
    decreases |steps|
  {
    if steps == [] then s else Run(Apply(s, steps[0]), steps[1..])
  }

  /** An empty workspace with any prepared assets. */
  ghost predicate Init(s: State) {
    s == State(map[], map[], [], [], s.assets, map[], map[], [])
  }
}
