/** Whether a draft can be sent to the provider again. The unique key protects one command, not one
    draft: several commands for one draft may be under way, and more may follow. */
module Resending {
  import opened Options
  import opened ReviewPolicy
  import opened Drafts
  import DraftHistory
  import Fresh
  import Publication

  /** A command has reserved the draft and has yet to call. */
  predicate AboutToCall(s: State, id: DraftId) {
    exists w :: w in s.workers && s.workers[w].Ready? && s.workers[w].draft == id
  }

  /** `publish_draft` has not left an unknown outcome. */
  predicate KeyIsFree(s: State, id: DraftId) {
    DraftKey(id) in s.attempts ==> s.attempts[DraftKey(id)].status != UnknownOutcome
  }

  predicate HasAsset(s: State, id: DraftId) {
    id in s.drafts && s.drafts[id].asset.Some? && s.drafts[id].asset.value in s.assets
  }

  predicate BringsRefusal(s: State, w: Worker, id: DraftId) {
    && w in s.workers && s.workers[w].Answered? && s.workers[w].key == DraftKey(id)
    && s.workers[w].call < |s.calls| && s.calls[s.workers[w].call].result.Refused?
  }

  /** A refusal of `publish_draft` is still to be recorded, and will replace an unknown outcome. */
  predicate RefusalIsPending(s: State, id: DraftId) {
    exists w :: w in s.workers && BringsRefusal(s, w, id)
  }

  /** What a caller can see before: somebody is about to call, or the draft can still be approved and
      one of the two commands is open to it. */
  predicate MaySend(s: State, id: DraftId) {
    || AboutToCall(s, id)
    || (id in s.drafts && s.drafts[id].status in {Pending, Approved}
        && (KeyIsFree(s, id) || HasAsset(s, id) || RefusalIsPending(s, id)))
  }

  ghost predicate CallsAgain(s: State, steps: seq<Step>, id: DraftId) {
    exists i :: |s.calls| <= i < |Run(s, steps).calls| && Run(s, steps).calls[i].draft == id
  }

  // ----- Closed drafts stay closed -----

  /** The step makes no call for the draft. */
  ghost predicate NoCallFor(s: State, t: State, id: DraftId) {
    s.calls <= t.calls && forall i :: |s.calls| <= i < |t.calls| ==> t.calls[i].draft != id
  }

  /** The draft keeps its asset, and if it can be approved it could before. */
  predicate StaysBound(s: State, t: State, id: DraftId) {
    && id in s.drafts && id in t.drafts && t.drafts[id].asset == s.drafts[id].asset
    && (t.drafts[id].status in {Pending, Approved} ==> s.drafts[id].status in {Pending, Approved})
  }

  lemma EffectKeepsBound(s: State, step: Step, e: Effect, id: DraftId)
    requires Publication.Inv(s) && id in s.drafts && e == DraftHistory.EffectOf(s, step)
    ensures StaysBound(s, Performed(s, e), id)
  {
    DraftHistory.EveryStepIsFaithful(s, step);
    if s.drafts[id].status in {Rejected, Posted} {
      DraftHistory.EffectKeepsTerminal(s, e, id);
    }
    EffectKeepsAsset(s, step, id);
    hide Performed, DraftHistory.EffectOf, Publication.Inv, DraftHistory.FaithfulEffect;
  }

  lemma EffectKeepsAsset(s: State, step: Step, id: DraftId)
    requires id in s.drafts
    ensures
      var t := Performed(s, DraftHistory.EffectOf(s, step));
      id in t.drafts && t.drafts[id].asset == s.drafts[id].asset
  {
    hide EditError, ApproveError, RejectError, SelectError, RegenerateError, CanReserve, CanFinish, MeetsChecks,
         PostedFeedback;
  }

  predicate IsClosed(s: State, id: DraftId) {
    id in s.drafts && !MaySend(s, id)
  }

  lemma SameTablesStayClosed(s: State, t: State, id: DraftId)
    requires IsClosed(s, id) && StaysBound(s, t, id) && Publication.OtherTables(s, t)
    ensures IsClosed(t, id) && NoCallFor(s, t, id)
  {
    assert forall w :: BringsRefusal(t, w, id) <==> BringsRefusal(s, w, id);
  }

  lemma CommandKeepsClosed(s: State, step: Step, id: DraftId)
    requires Publication.Inv(s) && IsClosed(s, id)
    requires step.Create? || step.Bridge? || step.Edit? || step.Approve? || step.Reject? || step.Select?
      || step.Regenerate?
    ensures IsClosed(Apply(s, step), id) && NoCallFor(s, Apply(s, step), id)
  {
    var e := DraftHistory.EffectOf(s, step);
    assert Apply(s, step) == Performed(s, e);
    hide Apply, Performed, DraftHistory.EffectOf, Publication.Inv, MaySend, StaysBound, NoCallFor;
    EffectKeepsBound(s, step, e, id);
    Publication.EffectsLeaveOtherTables(s, e);
    SameTablesStayClosed(s, Performed(s, e), id);
  }

  lemma PublishBeginKeepsClosed(s: State, w: Worker, actor: Option<Role>, other: DraftId, id: DraftId)
    requires Publication.Inv(s) && IsClosed(s, id)
    ensures IsClosed(PublishBegun(s, w, actor, other), id) && NoCallFor(s, PublishBegun(s, w, actor, other), id)
  {
    var t := PublishBegun(s, w, actor, other);
    hide Publication.Inv;
    if t != s {
      assert other != id;
      assert forall v :: v in t.workers && v != w ==> v in s.workers && t.workers[v] == s.workers[v];
      assert forall v :: BringsRefusal(t, v, id) <==> BringsRefusal(s, v, id);
    }
  }

  lemma LookupKeepsClosed(s: State, w: Worker, actor: Option<Role>, name: string, fingerprint: Fingerprint, id: DraftId)
    requires IsClosed(s, id)
    ensures IsClosed(LookedUp(s, w, actor, name, fingerprint), id)
    ensures NoCallFor(s, LookedUp(s, w, actor, name, fingerprint), id)
  {
    var t := LookedUp(s, w, actor, name, fingerprint);
    assert forall v :: v in t.workers && v != w ==> v in s.workers && t.workers[v] == s.workers[v];
    assert forall v :: BringsRefusal(t, v, id) <==> BringsRefusal(s, v, id);
  }

  /** What a reservation or a record leaves alone besides the draft tables. */
  ghost predicate OthersStay(s: State, t: State, w: Worker) {
    && t.calls == s.calls && t.assets == s.assets
    && (forall v :: v != w ==>
          (v in t.workers <==> v in s.workers) && (v in t.workers ==> t.workers[v] == s.workers[v]))
    && (w in t.workers && t.workers[w].Answered? ==> w in s.workers && t.workers[w] == s.workers[w])
  }

  lemma ReservationLeavesOthers(s: State, w: Worker, now: nat)
    ensures OthersStay(s, Reserved(s, w, now), w)
    ensures Reserved(s, w, now).drafts == Performed(s, ReserveEffect(s, w, now)).drafts
    ensures !CanReserve(s, w) ==> Reserved(s, w, now).attempts == s.attempts
    ensures w in Reserved(s, w, now).workers && Reserved(s, w, now).workers[w].Ready? ==>
      w in s.workers && (CanReserve(s, w) || s.workers[w].Ready?)
      && Reserved(s, w, now).workers[w].draft ==
           if CanReserve(s, w) then s.workers[w].fingerprint.draft else s.workers[w].draft
  {
    Publication.EffectsLeaveOtherTables(s, ReserveEffect(s, w, now));
    assert !CanReserve(s, w) ==> ReserveEffect(s, w, now) == Nothing;
    hide Performed, ReserveEffect, CanReserve;
  }

  lemma ClosedCannotReserve(s: State, w: Worker, id: DraftId)
    requires IsClosed(s, id) && CanReserve(s, w)
    ensures s.workers[w].fingerprint.draft != id
  {
  }

  /** A closed draft stays closed if only worker w moves, and does not come to be about to call. */
  lemma BoundStaysClosed(s: State, t: State, w: Worker, id: DraftId)
    requires IsClosed(s, id) && StaysBound(s, t, id) && OthersStay(s, t, w)
    requires w in t.workers && t.workers[w].Ready? ==> t.workers[w].draft != id
    requires t.drafts[id].status in {Pending, Approved} ==>
      DraftKey(id) in s.attempts && DraftKey(id) in t.attempts && t.attempts[DraftKey(id)].status == UnknownOutcome
    ensures IsClosed(t, id) && NoCallFor(s, t, id)
  {
    assert forall v :: BringsRefusal(t, v, id) ==> BringsRefusal(s, v, id);
    assert forall v :: v in t.workers && v != w ==> v in s.workers && s.workers[v] == t.workers[v];
  }

  lemma ReservationKeepsDraftKeys(s: State, w: Worker, now: nat, id: DraftId)
    requires Publication.Inv(s) && DraftKey(id) in s.attempts
    ensures DraftKey(id) in Reserved(s, w, now).attempts
    ensures Reserved(s, w, now).attempts[DraftKey(id)] == s.attempts[DraftKey(id)]
  {
    if CanReserve(s, w) { Publication.UnusedKeysAreClients(s, w); }
    hide Publication.Inv, Performed, ReserveEffect;
  }

  lemma ReserveKeepsClosed(s: State, w: Worker, now: nat, id: DraftId)
    requires Publication.Inv(s) && IsClosed(s, id)
    ensures IsClosed(Reserved(s, w, now), id) && NoCallFor(s, Reserved(s, w, now), id)
  {
    hide Performed, ReserveEffect, Publication.Inv, CanReserve, Reserved, OthersStay, NoCallFor, MaySend;
    if CanReserve(s, w) { ClosedCannotReserve(s, w, id); }
    EffectKeepsBound(s, Reserve(w, now), ReserveEffect(s, w, now), id);
    ReservationLeavesOthers(s, w, now);
    ClosedMeansNotReady(s, w, id);
    if DraftKey(id) in s.attempts { ReservationKeepsDraftKeys(s, w, now, id); }
    BoundStaysClosed(s, Reserved(s, w, now), w, id);
  }

  lemma ClosedMeansNotReady(s: State, w: Worker, id: DraftId)
    requires IsClosed(s, id)
    ensures w in s.workers && s.workers[w].Ready? ==> s.workers[w].draft != id
    ensures s.drafts[id].status in {Pending, Approved} ==>
      DraftKey(id) in s.attempts && s.attempts[DraftKey(id)].status == UnknownOutcome && !BringsRefusal(s, w, id)
  {
  }

  lemma DisconnectKeepsClosed(s: State, w: Worker, code: Code, id: DraftId)
    requires IsClosed(s, id)
    ensures IsClosed(Disconnected(s, w, code), id) && NoCallFor(s, Disconnected(s, w, code), id)
  {
    var t := Disconnected(s, w, code);
    assert forall v :: v in t.workers ==> v in s.workers && t.workers[v] == s.workers[v];
    assert forall v :: BringsRefusal(t, v, id) ==> BringsRefusal(s, v, id);
  }

  lemma KeyNamesTheDraft(s: State, w: Worker, id: DraftId)
    requires Publication.Inv(s) && w in s.workers && s.workers[w].Ready? && s.workers[w].key == DraftKey(id)
    ensures s.workers[w].draft == id
  {
    assert Publication.WorkerInv(s, w) && Publication.AttemptInv(s, s.workers[w].key);
  }

  lemma CallKeepsRefusals(s: State, w: Worker, result: ProviderResult, id: DraftId)
    requires Publication.Inv(s) && w in s.workers && s.workers[w].Ready? && s.workers[w].key != DraftKey(id)
    ensures forall v :: BringsRefusal(Called(s, w, result), v, id) ==> BringsRefusal(s, v, id)
  {
    var t := Called(s, w, result);
    hide Publication.Inv;
    forall v | BringsRefusal(t, v, id)
      ensures BringsRefusal(s, v, id)
    {
      assert v in s.workers && (v != w ==> s.workers[v] == t.workers[v]);
      if s.workers[v].Answered? { CallIsKnown(s, v); }
    }
  }

  lemma CallKeepsClosed(s: State, w: Worker, result: ProviderResult, id: DraftId)
    requires Publication.Inv(s) && IsClosed(s, id)
    ensures IsClosed(Called(s, w, result), id) && NoCallFor(s, Called(s, w, result), id)
  {
    hide Publication.Inv;
    var t := Called(s, w, result);
    if t != s {
      if s.workers[w].key == DraftKey(id) { KeyNamesTheDraft(s, w, id); }
      CallKeepsRefusals(s, w, result, id);
      hide BringsRefusal;
      assert forall v :: v in t.workers && v != w ==> v in s.workers && t.workers[v] == s.workers[v];
    }
  }

  lemma CallIsKnown(s: State, w: Worker)
    requires Publication.Inv(s) && w in s.workers && s.workers[w].Answered?
    ensures s.workers[w].call < |s.calls|
  {
    assert Publication.WorkerInv(s, w);
  }

  lemma RecordLeavesOthers(s: State, w: Worker, now: nat)
    ensures OthersStay(s, Finished(s, w, now), w)
    ensures Finished(s, w, now).drafts == Performed(s, FinishEffect(s, w, now)).drafts
    ensures CanFinish(s, w) ==> w !in Finished(s, w, now).workers
    ensures !CanFinish(s, w) ==> Finished(s, w, now) == s
    ensures forall key :: key in s.attempts && (CanFinish(s, w) ==> s.workers[w].key != key) ==>
      key in Finished(s, w, now).attempts && Finished(s, w, now).attempts[key] == s.attempts[key]
  {
    Publication.EffectsLeaveOtherTables(s, FinishEffect(s, w, now));
    assert !CanFinish(s, w) ==> FinishEffect(s, w, now) == Nothing;
    hide Performed, FinishEffect;
  }

  lemma RecordKeepsUnknown(s: State, w: Worker, now: nat, id: DraftId)
    requires Publication.Inv(s) && CanFinish(s, w) && s.workers[w].key == DraftKey(id) && id in s.drafts
    requires s.attempts[DraftKey(id)].status == UnknownOutcome && !BringsRefusal(s, w, id)
    ensures
      var t := Finished(s, w, now);
      id in t.drafts && DraftKey(id) in t.attempts
      && (t.drafts[id].status in {Pending, Approved} ==> t.attempts[DraftKey(id)].status == UnknownOutcome)
  {
    assert Publication.WorkerInv(s, w) && Publication.AttemptInv(s, DraftKey(id));
    hide Publication.Inv, PostedFeedback;
  }

  lemma FinishKeepsClosed(s: State, w: Worker, now: nat, id: DraftId)
    requires Publication.Inv(s) && IsClosed(s, id)
    ensures IsClosed(Finished(s, w, now), id) && NoCallFor(s, Finished(s, w, now), id)
  {
    hide Performed, FinishEffect, Publication.Inv, Finished;
    var t := Finished(s, w, now);
    EffectKeepsBound(s, Finish(w, now), FinishEffect(s, w, now), id);
    RecordLeavesOthers(s, w, now);
    ClosedMeansNotReady(s, w, id);
    if t.drafts[id].status in {Pending, Approved} && CanFinish(s, w) && s.workers[w].key == DraftKey(id) {
      RecordKeepsUnknown(s, w, now, id);
    }
    BoundStaysClosed(s, t, w, id);
  }

  lemma CrashKeepsClosed(s: State, w: Worker, id: DraftId)
    requires IsClosed(s, id)
    ensures IsClosed(Apply(s, Crash(w)), id) && NoCallFor(s, Apply(s, Crash(w)), id)
  {
    var t := Apply(s, Crash(w));
    assert forall v :: BringsRefusal(t, v, id) ==> BringsRefusal(s, v, id);
  }

  lemma ApplyKeepsClosed(s: State, step: Step, id: DraftId)
    requires Publication.Inv(s) && IsClosed(s, id)
    ensures IsClosed(Apply(s, step), id) && NoCallFor(s, Apply(s, step), id)
  {
    hide IsClosed, NoCallFor, Publication.Inv, PublishBegun, LookedUp, Reserved, Disconnected, Called, Finished;
    match step
    case PublishBegin(w, actor, other) => PublishBeginKeepsClosed(s, w, actor, other, id);
    case Lookup(w, actor, name, fingerprint) => LookupKeepsClosed(s, w, actor, name, fingerprint, id);
    case Reserve(w, now) => ReserveKeepsClosed(s, w, now, id);
    case Disconnect(w, code) => DisconnectKeepsClosed(s, w, code, id);
    case Call(w, result) => CallKeepsClosed(s, w, result, id);
    case Finish(w, now) => FinishKeepsClosed(s, w, now, id);
    case Crash(w) => CrashKeepsClosed(s, w, id);
    case _ =>
      hide Apply;
      CommandKeepsClosed(s, step, id);
  }

  lemma {:induction false} ClosedStaysClosed(s: State, steps: seq<Step>, id: DraftId)
    requires Publication.Inv(s) && IsClosed(s, id)
    ensures s.calls <= Run(s, steps).calls && !CallsAgain(s, steps, id) && IsClosed(Run(s, steps), id)
    decreases |steps|
  {
    if steps != [] {
      hide Publication.Inv, Apply, IsClosed;
      Publication.ApplyKeepsInv(s, steps[0]);
      ApplyKeepsClosed(s, steps[0], id);
      ClosedStaysClosed(Apply(s, steps[0]), steps[1..], id);
    }
  }

  // ----- Open drafts can be sent -----

  lemma Later(s: State, step: Step, rest: seq<Step>, id: DraftId)
    requires |Apply(s, step).calls| == |s.calls| && CallsAgain(Apply(s, step), rest, id)
    ensures CallsAgain(s, [step] + rest, id)
  {
    hide Apply;
    assert ([step] + rest)[1..] == rest;
    assert Run(s, [step] + rest) == Run(Apply(s, step), rest);
  }

  lemma WayFromReady(s: State, w: Worker, id: DraftId) returns (steps: seq<Step>)
    requires w in s.workers && s.workers[w].Ready? && s.workers[w].draft == id
    ensures CallsAgain(s, steps, id)
  {
    steps := [Call(w, Refused)];
    assert steps[1..] == [] && Run(s, steps) == Run(Apply(s, steps[0]), []) == Called(s, w, Refused);
    assert Run(s, steps).calls[|s.calls|].draft == id;
  }

  lemma Approving(s: State, id: DraftId)
    requires Publication.Inv(s) && id in s.drafts && s.drafts[id].status in {Pending, Approved}
    ensures
      var t := Apply(s, Approve(Some(Owner), id, 0));
      && id in t.drafts && t.drafts[id].status == Approved && t.drafts[id].approvedAt.Some?
      && t.workers == s.workers && t.attempts == s.attempts && t.calls == s.calls
  {
    DraftHistory.ApprovalFacts(s, id);
    hide Publication.Inv;
  }

  lemma Beginning(s: State, w: Worker, id: DraftId)
    requires id in s.drafts && s.drafts[id].status == Approved && s.drafts[id].approvedAt.Some? && KeyIsFree(s, id)
    requires w !in s.workers
    ensures
      var t := Apply(s, PublishBegin(w, Some(Owner), id));
      && w in t.workers && t.workers[w].Ready? && t.workers[w].draft == id && t.calls == s.calls
  {
  }

  lemma WayByDraftKey(s: State, id: DraftId) returns (steps: seq<Step>)
    requires Publication.Inv(s) && id in s.drafts && s.drafts[id].status in {Pending, Approved} && KeyIsFree(s, id)
    ensures CallsAgain(s, steps, id)
  {
    hide Publication.Inv, Apply;
    Approving(s, id);
    var approve := Approve(Some(Owner), id, 0);
    var t := Apply(s, approve);
    var w := Fresh.FreshId(t.workers);
    var begin := PublishBegin(w, Some(Owner), id);
    Beginning(t, w, id);
    var rest := WayFromReady(Apply(t, begin), w, id);
    Later(t, begin, rest, id);
    Later(s, approve, [begin] + rest, id);
    steps := [approve] + ([begin] + rest);
  }

  lemma FreshName(attempts: map<Key, Attempt>) returns (name: string)
    ensures ClientKey(name) !in attempts
  {
    var lengths := set k | k in attempts.Keys && k.ClientKey? :: |k.name|;
    var n := Fresh.Above(lengths);
    name := seq(n, _ => 'a');
    assert forall k :: k in attempts.Keys && k.ClientKey? ==> |k.name| in lengths;
  }

  lemma WayByAsset(s: State, id: DraftId) returns (steps: seq<Step>)
    requires id in s.drafts && s.drafts[id].status in {Pending, Approved} && HasAsset(s, id)
    ensures CallsAgain(s, steps, id)
  {
    var asset := s.drafts[id].asset.value;
    var fingerprint := Fingerprint(id, asset);
    var edit := Edit(Some(Owner), id, s.assets[asset]);
    var t := Apply(s, edit);
    assert t.drafts[id].content == s.assets[asset] && t.drafts[id].asset == Some(asset)
        && t.drafts[id].status in {Pending, Approved};
    assert t.workers == s.workers && t.attempts == s.attempts && t.calls == s.calls && t.assets == s.assets;
    hide EditEffect;
    var w := Fresh.FreshId(t.workers);
    var name := FreshName(t.attempts);
    var lookup, reserve := Lookup(w, Some(Owner), name, fingerprint), Reserve(w, 0);
    var u := Apply(t, lookup);
    assert u == t.(workers := t.workers[w := Unused(ClientKey(name), fingerprint)]);
    assert CanReserve(u, w);
    var v := Apply(u, reserve);
    Publication.EffectsLeaveOtherTables(u, ReserveEffect(u, w, 0));
    assert v.workers[w].Ready? && v.workers[w].draft == id && v.calls == u.calls;
    var rest := WayFromReady(v, w, id);
    hide Apply;
    Later(u, reserve, rest, id);
    Later(t, lookup, [reserve] + rest, id);
    Later(s, edit, [lookup] + ([reserve] + rest), id);
    steps := [edit] + ([lookup] + ([reserve] + rest));
  }

  lemma RecordingTheRefusal(s: State, w: Worker, id: DraftId)
    requires Publication.Inv(s) && id in s.drafts && w in s.workers && BringsRefusal(s, w, id)
    ensures
      var t := Apply(s, Finish(w, 0));
      t.drafts == s.drafts && t.calls == s.calls && KeyIsFree(t, id)
  {
    assert Publication.WorkerInv(s, w) && Publication.AttemptInv(s, DraftKey(id));
    hide Publication.Inv;
  }

  lemma WayByRefusal(s: State, w: Worker, id: DraftId) returns (steps: seq<Step>)
    requires Publication.Inv(s) && id in s.drafts && s.drafts[id].status in {Pending, Approved}
    requires w in s.workers && BringsRefusal(s, w, id)
    ensures CallsAgain(s, steps, id)
  {
    hide Apply, Publication.Inv;
    RecordingTheRefusal(s, w, id);
    Publication.ApplyKeepsInv(s, Finish(w, 0));
    var rest := WayByDraftKey(Apply(s, Finish(w, 0)), id);
    Later(s, Finish(w, 0), rest, id);
    steps := [Finish(w, 0)] + rest;
  }

  lemma WayToCall(s: State, id: DraftId) returns (steps: seq<Step>)
    requires Publication.Inv(s) && id in s.drafts && MaySend(s, id)
    ensures CallsAgain(s, steps, id)
  {
    hide Publication.Inv;
    if w :| w in s.workers && s.workers[w].Ready? && s.workers[w].draft == id {
      steps := WayFromReady(s, w, id);
    } else if KeyIsFree(s, id) {
      steps := WayByDraftKey(s, id);
    } else if HasAsset(s, id) {
      steps := WayByAsset(s, id);
    } else {
      var w :| w in s.workers && BringsRefusal(s, w, id);
      steps := WayByRefusal(s, w, id);
    }
  }

  /** In every reachable state, whatever the draft's status and whatever was sent before, the provider
      can be called (again) for it exactly if a command is about to call, or the draft is pending or
      approved and its own key is free, or will be once a refusal is recorded, or it has an asset. */
  lemma DraftCanBeSentIff(s: State, id: DraftId)
    requires Publication.Inv(s) && id in s.drafts
    ensures MaySend(s, id) <==> exists steps :: CallsAgain(s, steps, id)
  {
    hide Publication.Inv;
    if MaySend(s, id) {
      var steps := WayToCall(s, id);
    } else {
      forall steps
        ensures !CallsAgain(s, steps, id)
      {
        ClosedStaysClosed(s, steps, id);
      }
    }
  }

  /** In particular the provider can be called again for a posted or a rejected draft exactly when a
      command that reserved before has yet to call. */
  lemma PostedDraftIsSentAgainIffStillReserved(s: State, id: DraftId)
    requires Publication.Inv(s) && id in s.drafts && s.drafts[id].status in {Posted, Rejected}
    ensures AboutToCall(s, id) <==> exists steps :: CallsAgain(s, steps, id)
  {
    hide Publication.Inv;
    DraftCanBeSentIff(s, id);
  }

  // ----- Concrete runs -----

  lemma {:induction false} RunThen(s: State, steps: seq<Step>, last: Step)
    ensures Run(s, steps + [last]) == Apply(Run(s, steps), last)
    decreases |steps|
  {
    hide Apply;
    if steps == [] {
      assert steps + [last] == [last] && [last][1..] == [];
      assert Run(s, [last]) == Run(Apply(s, last), []);
    } else {
      assert (steps + [last])[1..] == steps[1..] + [last];
      RunThen(Apply(s, steps[0]), steps[1..], last);
    }
  }

  lemma RunThenThree(s: State, steps: seq<Step>, a: Step, b: Step, c: Step)
    ensures Run(s, steps + [a, b]) == Apply(Apply(Run(s, steps), a), b)
    ensures Run(s, steps + [a, b, c]) == Apply(Apply(Apply(Run(s, steps), a), b), c)
  {
    hide Apply, Run;
    RunThen(s, steps, a);
    RunThen(s, steps + [a], b);
    RunThen(s, steps + [a] + [b], c);
    assert steps + [a] + [b] == steps + [a, b] && steps + [a] + [b] + [c] == steps + [a, b, c];
  }

  /** Two commands with different keys reserve the draft of one asset. */
  function TwoReservations(asset: Asset, post: string): seq<Step> {
    var fingerprint := Fingerprint(0, asset);
    [Bridge(0, post, asset, 0), Lookup(1, Some(Owner), "a", fingerprint), Lookup(2, Some(Owner), "b", fingerprint)]
    + [Reserve(1, 0), Reserve(2, 0)]
  }

  function Bridged(asset: Asset, post: string): Draft {
    Draft(post, Approved, Some(0), None, None, None, None, false, None, None, None, Some(asset), None)
  }

  ghost predicate BothReserved(t: State, asset: Asset, post: string) {
    var row, attempt := Bridged(asset, post), Attempt(0, Some(Fingerprint(0, asset)), InFlight, None, None);
    && t.drafts == map[0 := row] && t.calls == [] && asset in t.assets
    && t.attempts == map[ClientKey("a") := attempt, ClientKey("b") := attempt]
    && t.workers == map[1 := Ready(ClientKey("a"), 0, row), 2 := Ready(ClientKey("b"), 0, row)]
  }

  lemma BothLookedUp(s: State, asset: Asset, post: string)
    requires Init(s)
    ensures
      var fingerprint := Fingerprint(0, asset);
      var t := Run(s, TwoReservations(asset, post)[..3]);
      && t.drafts == map[0 := Bridged(asset, post)] && t.attempts == map[] && t.calls == [] && t.assets == s.assets
      && t.workers == map[1 := Unused(ClientKey("a"), fingerprint), 2 := Unused(ClientKey("b"), fingerprint)]
  {
    var x := TwoReservations(asset, post);
    var none: seq<Step> := [];
    RunThenThree(s, none, x[0], x[1], x[2]);
    assert none + [x[0], x[1], x[2]] == x[..3];
    var a := Apply(s, x[0]);
    assert a.drafts == map[0 := Bridged(asset, post)] && a.workers == map[];
  }

  lemma ReservingAnApprovedDraft(s: State, w: Worker, key: Key, asset: Asset, post: string)
    requires w in s.workers && s.workers[w] == Unused(key, Fingerprint(0, asset)) && key !in s.attempts
    requires 0 in s.drafts && s.drafts[0] == Bridged(asset, post) && asset in s.assets && s.assets[asset] == post
    ensures Apply(s, Reserve(w, 0)) ==
      s.(attempts := s.attempts[key := Attempt(0, Some(Fingerprint(0, asset)), InFlight, None, None)],
         workers := s.workers[w := Ready(key, 0, Bridged(asset, post))])
  {
  }

  lemma BothCanReserve(s: State, asset: Asset, post: string)
    requires Init(s) && asset in s.assets && s.assets[asset] == post
    ensures BothReserved(Run(s, TwoReservations(asset, post)), asset, post)
  {
    var x := TwoReservations(asset, post);
    BothLookedUp(s, asset, post);
    RunThenThree(s, x[..3], Reserve(1, 0), Reserve(2, 0), Reserve(2, 0));
    assert x == x[..3] + [Reserve(1, 0), Reserve(2, 0)];
    hide Run, Apply;
    var t := Run(s, x[..3]);
    ReservingAnApprovedDraft(t, 1, ClientKey("a"), asset, post);
    ReservingAnApprovedDraft(Apply(t, Reserve(1, 0)), 2, ClientKey("b"), asset, post);
  }

  lemma Calling(s: State, w: Worker, key: Key, row: Draft, result: ProviderResult)
    requires w in s.workers && s.workers[w] == Ready(key, 0, row)
    ensures Apply(s, Call(w, result)) ==
      s.(workers := s.workers[w := Answered(key, 0, row, |s.calls|)],
         calls := s.calls + [ProviderCall(key, 0, row.content, result)])
  {
  }

  lemma Recording(s: State, w: Worker, key: Key, row: Draft, receipt: Receipt)
    requires w in s.workers && s.workers[w].Answered? && s.workers[w].key == key && s.workers[w].draft == 0
    requires s.workers[w].call < |s.calls| && s.calls[s.workers[w].call].result == Accepted(receipt)
    requires key in s.attempts && 0 in s.drafts && s.drafts[0] == row
    ensures
      var t := Apply(s, Finish(w, 0));
      && t.calls == s.calls && t.workers == s.workers - {w} && 0 in t.drafts && key in t.attempts
      && (if row.approvedAt.Some? then t.drafts[0].status == Posted
          else t.drafts == s.drafts && t.attempts == s.attempts)
  {
    Publication.EffectsLeaveOtherTables(s, FinishEffect(s, w, 0));
    hide PostedFeedback;
  }

  lemma Rejecting(s: State)
    requires 0 in s.drafts && s.drafts[0].status == Approved
    ensures
      var t := Apply(s, Reject(Some(Owner), 0, "no", 0));
      && t.attempts == s.attempts && t.workers == s.workers && t.calls == s.calls
      && 0 in t.drafts && t.drafts[0].status == Rejected && t.drafts[0].approvedAt.None?
  {
  }

  /** At most once holds for a key and not for a draft, from an empty workspace: the first command is
      accepted and recorded, and the second, which had reserved before, is accepted, too. */
  lemma PostedDraftCanBeSentAgain(s: State, asset: Asset, post: string, receipt: Receipt, another: Receipt)
    requires Init(s) && asset in s.assets && s.assets[asset] == post
    ensures
      var posted := Run(s, TwoReservations(asset, post) + [Call(1, Accepted(receipt)), Finish(1, 0)]);
      var end := Run(s, TwoReservations(asset, post) + [Call(1, Accepted(receipt)), Finish(1, 0),
                                                        Call(2, Accepted(another))]);
      && 0 in posted.drafts && posted.drafts[0].status == Posted && AboutToCall(posted, 0)
      && end.calls == [ProviderCall(ClientKey("a"), 0, post, Accepted(receipt)),
                       ProviderCall(ClientKey("b"), 0, post, Accepted(another))]
  {
    BothCanReserve(s, asset, post);
    RunThenThree(s, TwoReservations(asset, post), Call(1, Accepted(receipt)), Finish(1, 0), Call(2, Accepted(another)));
    hide Run, Apply;
    var t, row := Run(s, TwoReservations(asset, post)), Bridged(asset, post);
    Calling(t, 1, ClientKey("a"), row, Accepted(receipt));
    var called := Apply(t, Call(1, Accepted(receipt)));
    Recording(called, 1, ClientKey("a"), row, receipt);
    Calling(Apply(called, Finish(1, 0)), 2, ClientKey("b"), row, Accepted(another));
    assert Apply(called, Finish(1, 0)).workers[2].Ready?;
  }

  /** Both can be accepted before either is recorded, while the draft is still approved. */
  lemma ApprovedDraftCanBeAcceptedTwice(s: State, asset: Asset, post: string, receipt: Receipt, another: Receipt)
    requires Init(s) && asset in s.assets && s.assets[asset] == post
    ensures
      var end := Run(s, TwoReservations(asset, post) + [Call(1, Accepted(receipt)), Call(2, Accepted(another))]);
      && 0 in end.drafts && end.drafts[0].status == Approved
      && end.calls == [ProviderCall(ClientKey("a"), 0, post, Accepted(receipt)),
                       ProviderCall(ClientKey("b"), 0, post, Accepted(another))]
  {
    BothCanReserve(s, asset, post);
    var one, two := Call(1, Accepted(receipt)), Call(2, Accepted(another));
    RunThenThree(s, TwoReservations(asset, post), one, two, two);
    hide Run, Apply;
    var t, row := Run(s, TwoReservations(asset, post)), Bridged(asset, post);
    Calling(t, 1, ClientKey("a"), row, Accepted(receipt));
    Calling(Apply(t, one), 2, ClientKey("b"), row, Accepted(another));
  }

  /** An accepted post can go unrecorded: the draft is rejected between the call and its record, and
      the attempt stays in flight with no worker left to settle it. */
  lemma AcceptedPostCanGoUnrecorded(s: State, asset: Asset, post: string, receipt: Receipt)
    requires Init(s) && asset in s.assets && s.assets[asset] == post
    ensures
      var end := Run(s, TwoReservations(asset, post)
                        + [Call(1, Accepted(receipt)), Reject(Some(Owner), 0, "no", 0), Finish(1, 0)]);
      && end.calls == [ProviderCall(ClientKey("a"), 0, post, Accepted(receipt))]
      && 0 in end.drafts && end.drafts[0].status == Rejected && 1 !in end.workers
      && ClientKey("a") in end.attempts && end.attempts[ClientKey("a")].status == InFlight
  {
    BothCanReserve(s, asset, post);
    RunThenThree(s, TwoReservations(asset, post), Call(1, Accepted(receipt)), Reject(Some(Owner), 0, "no", 0),
                 Finish(1, 0));
    hide Run, Apply;
    var t, row := Run(s, TwoReservations(asset, post)), Bridged(asset, post);
    Calling(t, 1, ClientKey("a"), row, Accepted(receipt));
    var called := Apply(t, Call(1, Accepted(receipt)));
    Rejecting(called);
    var rejected := Apply(called, Reject(Some(Owner), 0, "no", 0));
    Recording(rejected, 1, ClientKey("a"), rejected.drafts[0], receipt);
  }
}
