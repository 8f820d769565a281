/** A second command under a key that is taken, with the same payload or another, whether it looked
    the key up before or after it was taken. */
module KeyReuse {
  import opened Options
  import opened ReviewPolicy
  import opened Drafts
  import DraftHistory
  import Publication

  predicate IsStepOf(step: Step, w: Worker) {
    match step
    case PublishBegin(v, _, _) => v == w
    case Lookup(v, _, _, _) => v == w
    case Reserve(v, _) => v == w
    case Disconnect(v, _) => v == w
    case Call(v, _) => v == w
    case Finish(v, _) => v == w
    case Crash(v) => v == w
    case _ => false
  }

  /** Worker w runs no other command than the one under the key. */
  predicate RunsOnly(steps: seq<Step>, w: Worker, name: string) {
    forall i :: 0 <= i < |steps| && IsStepOf(steps[i], w) ==>
      !steps[i].PublishBegin? && (steps[i].Lookup? ==> steps[i].name == name)
  }

  function Without(steps: seq<Step>, w: Worker): seq<Step> {
    if steps == [] then []
    else (if IsStepOf(steps[0], w) then [] else [steps[0]]) + Without(steps[1..], w)
  }

  /** The key is taken, and w has at most looked it up. */
  predicate IsSecond(s: State, w: Worker, name: string) {
    && ClientKey(name) in s.attempts
    && (w in s.workers ==> s.workers[w].Unused? && s.workers[w].key == ClientKey(name))
  }

  function Forget(s: State, w: Worker): State {
    s.(workers := s.workers - {w})
  }

  lemma OwnStepChangesNothing(s: State, step: Step, w: Worker, name: string)
    requires IsSecond(s, w, name) && IsStepOf(step, w) && RunsOnly([step], w, name)
    ensures Forget(Apply(s, step), w) == Forget(s, w) && IsSecond(Apply(s, step), w, name)
  {
    assert [step][0] == step;
  }

  /** Commands on drafts do not look at the workers. */
  lemma CommandIgnoresWorkers(s: State, step: Step, w: Worker)
    requires step.Create? || step.Bridge? || step.Edit? || step.Approve? || step.Reject? || step.Select?
      || step.Regenerate?
    ensures Forget(Apply(s, step), w) == Apply(Forget(s, w), step)
    ensures Apply(s, step).workers == s.workers && Apply(s, step).attempts == s.attempts
  {
    var e := DraftHistory.EffectOf(s, step);
    assert Apply(s, step) == Performed(s, e);
    assert Apply(Forget(s, w), step) == Performed(Forget(s, w), DraftHistory.EffectOf(Forget(s, w), step));
    EffectIgnoresWorkers(s, step, w);
    hide Apply, DraftHistory.EffectOf;
    PerformedIgnoresWorkers(s, e, w);
    Publication.EffectsLeaveOtherTables(s, e);
  }

  lemma EffectIgnoresWorkers(s: State, step: Step, w: Worker)
    requires !step.Reserve? && !step.Finish?
    ensures DraftHistory.EffectOf(Forget(s, w), step) == DraftHistory.EffectOf(s, step)
  {
    hide RoleError, Forget;
    SameDrafts(s, w);
  }

  lemma SameDrafts(s: State, w: Worker)
    ensures Forget(s, w).drafts == s.drafts
  {
  }

  lemma UpdateForgets<V>(m: map<nat, V>, v: nat, x: V, w: nat)
    requires v != w
    ensures m[v := x] - {w} == (m - {w})[v := x] && m - {v} - {w} == m - {w} - {v}
  {
  }

  lemma ReserveIgnoresOthers(s: State, v: Worker, now: nat, w: Worker)
    requires v != w
    ensures Forget(Reserved(s, v, now), w) == Reserved(Forget(s, w), v, now)
    ensures s.attempts.Keys <= Reserved(s, v, now).attempts.Keys
    ensures w in Reserved(s, v, now).workers <==> w in s.workers
    ensures w in s.workers ==> Reserved(s, v, now).workers[w] == s.workers[w]
  {
    Publication.EffectsLeaveOtherTables(s, ReserveEffect(s, v, now));
    assert CanReserve(Forget(s, w), v) <==> CanReserve(s, v);
    assert ReserveEffect(Forget(s, w), v, now) == ReserveEffect(s, v, now);
    PerformedIgnoresWorkers(s, ReserveEffect(s, v, now), w);
    hide Performed, ReserveEffect, CanReserve;
    assert v in s.workers ==> (s.workers - {w})[v] == s.workers[v];
    if CanReserve(s, v) {
      assert s.workers[v := Ready(s.workers[v].key, s.workers[v].fingerprint.draft,
                                  s.drafts[s.workers[v].fingerprint.draft])] - {w}
        == (s.workers - {w})[v := Ready(s.workers[v].key, s.workers[v].fingerprint.draft,
                                        s.drafts[s.workers[v].fingerprint.draft])];
    } else {
      assert s.workers - {v} - {w} == s.workers - {w} - {v};
    }
  }

  lemma PerformedIgnoresWorkers(s: State, e: Effect, w: Worker)
    ensures Forget(Performed(s, e), w) == Performed(Forget(s, w), e)
  {
  }

  lemma FinishIgnoresOthers(s: State, v: Worker, now: nat, w: Worker)
    requires v != w
    ensures Forget(Finished(s, v, now), w) == Finished(Forget(s, w), v, now)
    ensures s.attempts.Keys <= Finished(s, v, now).attempts.Keys
    ensures w in Finished(s, v, now).workers <==> w in s.workers
    ensures w in s.workers ==> Finished(s, v, now).workers[w] == s.workers[w]
  {
    Publication.EffectsLeaveOtherTables(s, FinishEffect(s, v, now));
    assert CanFinish(Forget(s, w), v) <==> CanFinish(s, v);
    assert FinishEffect(Forget(s, w), v, now) == FinishEffect(s, v, now);
    PerformedIgnoresWorkers(s, FinishEffect(s, v, now), w);
    hide Performed, FinishEffect;
    assert s.workers - {v} - {w} == s.workers - {w} - {v};
  }

  lemma PublishBeginIgnoresOthers(s: State, v: Worker, actor: Option<Role>, id: DraftId, w: Worker)
    requires v != w
    ensures Forget(PublishBegun(s, v, actor, id), w) == PublishBegun(Forget(s, w), v, actor, id)
  {
    assert PublishError(Forget(s, w), actor, id) == PublishError(s, actor, id);
    if PublishError(s, actor, id).None? {
      UpdateForgets(s.workers, v, Ready(DraftKey(id), id, s.drafts[id]), w);
    }
  }

  lemma LookupIgnoresOthers(s: State, v: Worker, actor: Option<Role>, name: string, fingerprint: Fingerprint, w: Worker)
    requires v != w
    ensures Forget(LookedUp(s, v, actor, name, fingerprint), w) == LookedUp(Forget(s, w), v, actor, name, fingerprint)
  {
    UpdateForgets(s.workers, v, Unused(ClientKey(name), fingerprint), w);
  }

  lemma DisconnectIgnoresOthers(s: State, v: Worker, code: Code, w: Worker)
    requires v != w
    ensures Forget(Disconnected(s, v, code), w) == Disconnected(Forget(s, w), v, code)
  {
    UpdateForgets(s.workers, v, Unused(ClientKey(""), Fingerprint(0, Asset(0, 0))), w);
    assert v in Forget(s, w).workers <==> v in s.workers;
    assert v in s.workers ==> Forget(s, w).workers[v] == s.workers[v];
  }

  lemma CallIgnoresOthers(s: State, v: Worker, result: ProviderResult, w: Worker)
    requires v != w
    ensures Forget(Called(s, v, result), w) == Called(Forget(s, w), v, result)
  {
    assert v in Forget(s, w).workers <==> v in s.workers;
    if v in s.workers && s.workers[v].Ready? {
      var Ready(key, id, seen) := s.workers[v];
      assert Forget(s, w).workers[v] == s.workers[v];
      UpdateForgets(s.workers, v, Answered(key, id, seen, |s.calls|), w);
    }
  }

  lemma OtherStepIgnoresWorker(s: State, step: Step, w: Worker)
    requires !IsStepOf(step, w)
    requires step.PublishBegin? || step.Lookup? || step.Disconnect? || step.Call? || step.Crash?
    ensures Forget(Apply(s, step), w) == Apply(Forget(s, w), step)
  {
    hide Forget, PublishBegun, LookedUp, Disconnected, Called;
    match step
    case PublishBegin(v, actor, id) => PublishBeginIgnoresOthers(s, v, actor, id, w);
    case Lookup(v, actor, name, fingerprint) => LookupIgnoresOthers(s, v, actor, name, fingerprint, w);
    case Disconnect(v, code) => DisconnectIgnoresOthers(s, v, code, w);
    case Call(v, result) => CallIgnoresOthers(s, v, result, w);
    case Crash(v) => CrashIgnoresOthers(s, v, w);
    case _ =>
  }

  lemma CrashIgnoresOthers(s: State, v: Worker, w: Worker)
    ensures Forget(s.(workers := s.workers - {v}), w) == Forget(s, w).(workers := Forget(s, w).workers - {v})
  {
    assert s.workers - {v} - {w} == s.workers - {w} - {v};
  }

  lemma OtherStepLeavesWorker(s: State, step: Step, w: Worker)
    requires !IsStepOf(step, w)
    requires step.PublishBegin? || step.Lookup? || step.Disconnect? || step.Call? || step.Crash?
    ensures s.attempts.Keys <= Apply(s, step).attempts.Keys
    ensures w in Apply(s, step).workers <==> w in s.workers
    ensures w in s.workers ==> Apply(s, step).workers[w] == s.workers[w]
  {
    hide RoleError, PublishError;
  }

  lemma OthersIgnoreTheSecond(s: State, step: Step, w: Worker, name: string)
    requires IsSecond(s, w, name) && !IsStepOf(step, w)
    ensures Forget(Apply(s, step), w) == Apply(Forget(s, w), step) && IsSecond(Apply(s, step), w, name)
  {
    hide Reserved, Finished;
    if step.Reserve? {
      ReserveIgnoresOthers(s, step.worker, step.now, w);
    } else if step.Finish? {
      FinishIgnoresOthers(s, step.worker, step.now, w);
    } else if step.PublishBegin? || step.Lookup? || step.Disconnect? || step.Call? || step.Crash? {
      hide Apply;
      OtherStepIgnoresWorker(s, step, w);
      OtherStepLeavesWorker(s, step, w);
    } else {
      hide Apply;
      CommandIgnoresWorkers(s, step, w);
    }
  }

  lemma {:induction false} SecondIsInvisible(s: State, steps: seq<Step>, w: Worker, name: string)
    requires IsSecond(s, w, name) && RunsOnly(steps, w, name)
    ensures Forget(Run(s, steps), w) == Run(Forget(s, w), Without(steps, w)) && IsSecond(Run(s, steps), w, name)
    decreases |steps|
  {
    if steps != [] {
      var t, rest := Apply(s, steps[0]), steps[1..];
      assert forall i :: 0 <= i < |rest| ==> rest[i] == steps[i + 1];
      if IsStepOf(steps[0], w) {
        assert RunsOnly([steps[0]], w, name);
        OwnStepChangesNothing(s, steps[0], w, name);
        hide Apply;
        assert [] + Without(rest, w) == Without(rest, w);
      } else {
        OthersIgnoreTheSecond(s, steps[0], w, name);
        hide Apply;
        assert ([steps[0]] + Without(rest, w))[1..] == Without(rest, w);
      }
      SecondIsInvisible(t, rest, w, name);
    }
  }

  /** A command under a taken key changes nothing, over every run: the drafts, attempts, logs and
      provider calls are those of the same run without it, it never comes to be about to call, and to
      every payload but the first the reply is a conflict at any later time. */
  lemma TakenKeyChangesNothing(s: State, steps: seq<Step>, w: Worker, name: string, fingerprint: Fingerprint)
    requires Publication.Inv(s) && IsSecond(s, w, name) && RunsOnly(steps, w, name)
    ensures
      var t, alone := Run(s, steps), Run(Forget(s, w), Without(steps, w));
      && t.drafts == alone.drafts && t.attempts == alone.attempts && t.statusLog == alone.statusLog
      && t.feedback == alone.feedback && t.calls == alone.calls
      && (w in t.workers ==> t.workers[w].Unused?)
      && ClientKey(name) in t.attempts
      && (ReplayOf(t.attempts[ClientKey(name)], fingerprint) == Conflict <==>
            s.attempts[ClientKey(name)].fingerprint != Some(fingerprint))
  {
    hide Publication.Inv;
    SecondIsInvisible(s, steps, w, name);
    Publication.ReplayNeverChanges(s, steps, name, fingerprint);
  }

  /** At once: its lookup changes nothing, and if both lookups came first its reservation changes
      nothing but that its worker ends. */
  lemma TakenKeyIsRefused(s: State, w: Worker, actor: Option<Role>, name: string, fingerprint: Fingerprint, now: nat)
    requires ClientKey(name) in s.attempts
    ensures Apply(s, Lookup(w, actor, name, fingerprint)) == s
    ensures s.attempts[ClientKey(name)].fingerprint != Some(fingerprint) ==>
      ReplayOf(s.attempts[ClientKey(name)], fingerprint) == Conflict
    ensures w in s.workers && s.workers[w] == Unused(ClientKey(name), fingerprint) ==>
      Apply(s, Reserve(w, now)) == s.(workers := s.workers - {w})
  {
  }
}
