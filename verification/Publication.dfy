/** The idempotent "approve and publish" command over all interleavings of commands, concurrent
    publications and crashes. */
module Publication {
  import opened Options
  import opened ReviewPolicy
  import opened Drafts
  import DraftHistory

  /** What the provider answered to the calls made under a key, oldest first. */
  function Results(calls: seq<ProviderCall>, key: Key): seq<ProviderResult> {
    if calls == [] then []
    else
      var c := calls[|calls| - 1];
      Results(calls[..|calls| - 1], key) + if c.key == key then [c.result] else []
  }

  lemma ResultsOfAppended(calls: seq<ProviderCall>, c: ProviderCall, key: Key)
    ensures Results(calls + [c], key) == Results(calls, key) + if c.key == key then [c.result] else []
  {
    assert (calls + [c])[..|calls|] == calls;
  }

  // ----- The invariant -----

  /** A client's attempt carries exactly what the provider answered under its key. */
  ghost predicate AttemptInv(s: State, key: Key)
    requires key in s.attempts
  {
    var a := s.attempts[key];
    && a.draft in s.drafts
    && (key.DraftKey? ==> a.draft == key.draft)
    && (key.ClientKey? ==>
          && a.fingerprint.Some? && a.fingerprint.value.draft == a.draft && a.fingerprint.value.asset in s.assets
          && var results := Results(s.calls, key);
             match a.status
             case InFlight => a.receipt.None? && a.error.None? && |results| <= 1
             case Completed => a.receipt.Some? && a.error.None? && results == [Accepted(a.receipt.value)]
                               && s.drafts[a.draft].status == Posted
             case Failed =>
               && a.receipt.None?
               && (if a.error == Some(PublisherRejected) then results == [Refused]
                   else a.error.Some? && a.error.value in CONNECTION_CODES && results == [])
             case UnknownOutcome => a.receipt.None? && a.error == Some(PublisherUnknown) && results == [Transient])
  }

  ghost predicate WorkerInv(s: State, w: Worker)
    requires w in s.workers
  {
    match s.workers[w]
    case Unused(key, _) => key.ClientKey?
    case Ready(key, id, seen) =>
      && key in s.attempts && s.attempts[key].draft == id
      && (key.ClientKey? ==>
            && s.attempts[key].status == InFlight && Results(s.calls, key) == []
            && s.attempts[key].fingerprint.Some? && s.attempts[key].fingerprint.value.asset in s.assets
            && seen.content == s.assets[s.attempts[key].fingerprint.value.asset])
    case Answered(key, id, seen, call) =>
      && key in s.attempts && s.attempts[key].draft == id
      && call < |s.calls| && s.calls[call].key == key && s.calls[call].draft == id
      && (key.ClientKey? ==> s.attempts[key].status == InFlight && Results(s.calls, key) == [s.calls[call].result])
  }

  predicate Holds(s: State, w: Worker, key: Key) {
    w in s.workers && !s.workers[w].Unused? && s.workers[w].key == key
  }

  /** The text sent under a client's key is the text of the asset revision that the key named. */
  ghost predicate CallInv(s: State, i: nat)
    requires i < |s.calls|
  {
    var key := s.calls[i].key;
    && key in s.attempts && s.attempts[key].draft == s.calls[i].draft
    && (key.ClientKey? ==>
          && s.attempts[key].fingerprint.Some? && s.attempts[key].fingerprint.value.asset in s.assets
          && s.calls[i].content == s.assets[s.attempts[key].fingerprint.value.asset])
  }

  ghost predicate Inv(s: State) {
    && DraftHistory.Inv(s)
    && (forall key :: key in s.attempts ==> AttemptInv(s, key))
    && (forall key: Key :: key !in s.attempts ==> Results(s.calls, key) == [])
    && (forall w :: w in s.workers ==> WorkerInv(s, w))
    && (forall w, v, key: Key :: key.ClientKey? && Holds(s, w, key) && Holds(s, v, key) ==> w == v)
    && (forall i :: 0 <= i < |s.calls| ==> CallInv(s, i))
  }

  // ----- Every step -----

  /** An attempt that a step leaves as it is keeps its invariant: its draft stays, and stays posted. */
  lemma UntouchedAttempt(s: State, step: Step, t: State, key: Key)
    requires DraftHistory.Inv(s) && t == Apply(s, step)
    requires key in s.attempts && AttemptInv(s, key)
    requires key in t.attempts && t.attempts[key] == s.attempts[key] && t.assets == s.assets
    requires Results(t.calls, key) == Results(s.calls, key)
    ensures AttemptInv(t, key)
  {
    hide Apply, Results, DraftHistory.Inv;
    DraftHistory.ApplyOnlyAppends(s, step);
    var id := s.attempts[key].draft;
    if s.drafts[id].status == Posted {
      DraftHistory.ApplyKeepsTerminal(s, step, id);
    }
  }

  /** t differs from s in no provider call, in at most the attempt `touched`, held by no worker but
      w afterwards if it is a client's, and in at most worker w. */
  ghost predicate LocalChange(s: State, t: State, touched: Option<Key>, w: Worker) {
    && t.calls == s.calls && t.assets == s.assets
    && (forall key :: key in s.attempts ==>
          && key in t.attempts && t.attempts[key].draft == s.attempts[key].draft
          && t.attempts[key].fingerprint == s.attempts[key].fingerprint)
    && (forall key :: key in t.attempts && touched != Some(key) ==>
        key in s.attempts && t.attempts[key] == s.attempts[key])
    && (forall v :: v in t.workers && v != w ==> v in s.workers && t.workers[v] == s.workers[v])
    && (touched.Some? && touched.value.ClientKey? ==> forall v :: v != w ==> !Holds(t, v, touched.value))
    && (forall key: Key :: Holds(t, w, key) && !Holds(s, w, key) ==> touched == Some(key) || key.DraftKey?)
  }

  lemma LocalChangeKeepsWorkers(s: State, t: State, touched: Option<Key>, w: Worker)
    requires Inv(s) && LocalChange(s, t, touched, w)
    ensures forall v :: v in t.workers && v != w ==> WorkerInv(t, v)
  {
    hide DraftHistory.Inv, Results;
    forall v | v in t.workers && v != w
      ensures WorkerInv(t, v)
    {
      assert WorkerInv(s, v);
      if !t.workers[v].Unused? {
        assert Holds(t, v, t.workers[v].key);
      }
    }
  }

  lemma LocalChangeKeepsTheRest(s: State, t: State, touched: Option<Key>, w: Worker)
    requires Inv(s) && LocalChange(s, t, touched, w)
    ensures forall v, u, key: Key :: key.ClientKey? && Holds(t, v, key) && Holds(t, u, key) ==> v == u
    ensures forall i :: 0 <= i < |t.calls| ==> CallInv(t, i)
    ensures forall key: Key :: key !in t.attempts ==> Results(t.calls, key) == []
  {
    hide DraftHistory.Inv, Results;
    forall i | 0 <= i < |t.calls|
      ensures CallInv(t, i)
    {
      assert CallInv(s, i);
    }
    forall v, u, key: Key | key.ClientKey? && Holds(t, v, key) && Holds(t, u, key)
      ensures v == u
    {
      assert v != w ==> Holds(s, v, key);
      assert u != w ==> Holds(s, u, key);
    }
  }

  lemma LocalStepKeepsAttempts(s: State, step: Step, t: State, touched: Option<Key>, w: Worker)
    requires Inv(s) && t == Apply(s, step) && LocalChange(s, t, touched, w)
    requires touched.Some? && touched.value in t.attempts ==> AttemptInv(t, touched.value)
    ensures forall key :: key in t.attempts ==> AttemptInv(t, key)
  {
    hide Apply, AttemptInv, WorkerInv, CallInv, DraftHistory.Inv, Results;
    forall key | key in t.attempts
      ensures AttemptInv(t, key)
    {
      if touched != Some(key) {
        assert AttemptInv(s, key);
        UntouchedAttempt(s, step, t, key);
      }
    }
  }

  lemma LocalStepKeepsInv(s: State, step: Step, t: State, touched: Option<Key>, w: Worker)
    requires Inv(s) && t == Apply(s, step) && LocalChange(s, t, touched, w)
    requires touched.Some? && touched.value in t.attempts ==> AttemptInv(t, touched.value)
    requires w in t.workers ==> WorkerInv(t, w)
    ensures Inv(t)
  {
    hide Apply, AttemptInv, WorkerInv, CallInv, LocalChange, DraftHistory.Inv, Results;
    DraftHistory.ApplyKeepsInv(s, step);
    LocalStepKeepsAttempts(s, step, t, touched, w);
    LocalChangeKeepsWorkers(s, t, touched, w);
    LocalChangeKeepsTheRest(s, t, touched, w);
  }

  // ----- Every step, one kind at a time -----

  predicate OtherTables(s: State, t: State) {
    t.attempts == s.attempts && t.workers == s.workers && t.calls == s.calls && t.assets == s.assets
  }

  lemma EffectsLeaveOtherTables(s: State, e: Effect)
    ensures OtherTables(s, Performed(s, e))
  {
  }

  lemma OtherTablesAreLocal(s: State, t: State)
    requires Inv(s) && OtherTables(s, t)
    ensures LocalChange(s, t, None, 0) && (0 in t.workers ==> WorkerInv(t, 0))
  {
    assert 0 in s.workers ==> WorkerInv(s, 0);
    hide Inv;
  }

  lemma DraftCommandKeepsInv(s: State, step: Step, t: State)
    requires Inv(s) && t == Apply(s, step) && OtherTables(s, t)
    ensures Inv(t)
  {
    hide Apply, Inv, WorkerInv, LocalChange;
    OtherTablesAreLocal(s, t);
    LocalStepKeepsInv(s, step, t, None, 0);
  }

  lemma LookupIsLocal(s: State, w: Worker, actor: Option<Role>, name: string, fingerprint: Fingerprint)
    ensures var t := LookedUp(s, w, actor, name, fingerprint);
      t == s || (LocalChange(s, t, None, w) && w in t.workers && WorkerInv(t, w))
  {
    hide RoleError;
  }

  lemma LookupKeepsInv(s: State, w: Worker, actor: Option<Role>, name: string, fingerprint: Fingerprint)
    requires Inv(s)
    ensures Inv(Apply(s, Lookup(w, actor, name, fingerprint)))
  {
    hide Inv, LocalChange, WorkerInv, LookedUp;
    var step := Lookup(w, actor, name, fingerprint);
    var t := LookedUp(s, w, actor, name, fingerprint);
    assert Apply(s, step) == t;
    LookupIsLocal(s, w, actor, name, fingerprint);
    if t != s {
      hide Apply;
      LocalStepKeepsInv(s, step, t, None, w);
    }
  }

  lemma CrashKeepsInv(s: State, w: Worker)
    requires Inv(s)
    ensures Inv(Apply(s, Crash(w)))
  {
    hide Inv;
    LocalStepKeepsInv(s, Crash(w), Apply(s, Crash(w)), None, w);
  }

  lemma PublishBeginKeepsInv(s: State, w: Worker, actor: Option<Role>, id: DraftId)
    requires Inv(s)
    ensures Inv(Apply(s, PublishBegin(w, actor, id)))
  {
    hide Inv, AttemptInv, WorkerInv, LocalChange, PublishBegun;
    var step := PublishBegin(w, actor, id);
    var key, t := DraftKey(id), PublishBegun(s, w, actor, id);
    assert t == Apply(s, step);
    if t != s {
      hide Apply;
      PublishBeginIsLocal(s, w, actor, id);
      PublishBeginAttempt(s, w, actor, id);
      LocalStepKeepsInv(s, step, t, Some(key), w);
    }
  }

  lemma PublishBeginAttempt(s: State, w: Worker, actor: Option<Role>, id: DraftId)
    requires Inv(s) && PublishBegun(s, w, actor, id) != s
    ensures var t := PublishBegun(s, w, actor, id);
      && DraftKey(id) in t.attempts && AttemptInv(t, DraftKey(id))
      && w in t.workers && WorkerInv(t, w)
  {
    var key := DraftKey(id);
    assert key in s.attempts ==> AttemptInv(s, key);
    hide Inv, Results;
    assert id in s.drafts;
    hide PublishError;
  }

  lemma PublishBeginIsLocal(s: State, w: Worker, actor: Option<Role>, id: DraftId)
    ensures PublishBegun(s, w, actor, id) == s || LocalChange(s, PublishBegun(s, w, actor, id), Some(DraftKey(id)), w)
  {
  }

  /** A client's key in flight is held by one worker at most. */
  lemma OnlyHolder(s: State, w: Worker, key: Key)
    requires Inv(s) && key.ClientKey? && (Holds(s, w, key) || key !in s.attempts)
    ensures forall v :: v != w ==> !Holds(s, v, key)
  {
    forall v | v != w
      ensures !Holds(s, v, key)
    {
      if v in s.workers { assert WorkerInv(s, v); }
    }
  }

  lemma RefusedReservationIsLocal(s: State, w: Worker, now: nat)
    requires !CanReserve(s, w)
    ensures LocalChange(s, Reserved(s, w, now), None, w)
    ensures w in Reserved(s, w, now).workers ==> w in s.workers && !s.workers[w].Unused?
  {
    hide ReserveError;
  }

  lemma ReserveKeepsInv(s: State, w: Worker, now: nat)
    requires Inv(s)
    ensures Inv(Apply(s, Reserve(w, now)))
  {
    var step := Reserve(w, now);
    var t := Apply(s, step);
    assert t == Reserved(s, w, now);
    if CanReserve(s, w) {
      hide Inv, Apply, Reserved, AttemptInv, WorkerInv, LocalChange, CanReserve;
      ReserveIsLocal(s, w, now);
      ReservedAttempt(s, w, now);
      LocalStepKeepsInv(s, step, t, Some(s.workers[w].key), w);
    } else {
      RefusedReservationKeepsInv(s, step, t, w, now);
    }
  }

  lemma RefusedReservationKeepsInv(s: State, step: Step, t: State, w: Worker, now: nat)
    requires Inv(s) && step == Reserve(w, now) && t == Apply(s, step) == Reserved(s, w, now) && !CanReserve(s, w)
    ensures Inv(t)
  {
    hide Apply, LocalChange, CanReserve;
    RefusedReservationIsLocal(s, w, now);
    if w in s.workers { assert WorkerInv(s, w); }
    hide Inv;
    LocalStepKeepsInv(s, step, t, None, w);
  }

  lemma ReservedAttempt(s: State, w: Worker, now: nat)
    requires Inv(s) && CanReserve(s, w)
    ensures s.workers[w].key in Reserved(s, w, now).attempts && w in Reserved(s, w, now).workers
    ensures AttemptInv(Reserved(s, w, now), s.workers[w].key) && WorkerInv(Reserved(s, w, now), w)
  {
    var key, id := s.workers[w].key, s.workers[w].fingerprint.draft;
    UnusedKeysAreClients(s, w);
    assert Results(s.calls, key) == [];
    DraftHistory.ApplyOnlyAppends(s, Reserve(w, now));
    EffectsLeaveOtherTables(s, ReserveEffect(s, w, now));
    hide Inv, Results, ReserveEffect, Performed;
  }

  lemma UnusedKeysAreClients(s: State, w: Worker)
    requires Inv(s) && w in s.workers
    ensures s.workers[w].Unused? ==> s.workers[w].key.ClientKey?
  {
    assert WorkerInv(s, w);
  }

  lemma ReserveIsLocal(s: State, w: Worker, now: nat)
    requires Inv(s) && CanReserve(s, w)
    ensures LocalChange(s, Reserved(s, w, now), Some(s.workers[w].key), w)
  {
    hide Inv, ReserveEffect, Performed;
    var key, t := s.workers[w].key, Reserved(s, w, now);
    UnusedKeysAreClients(s, w);
    EffectsLeaveOtherTables(s, ReserveEffect(s, w, now));
    OnlyHolder(s, w, key);
    hide ReserveError;
    assert forall v :: v != w ==> (Holds(t, v, key) <==> Holds(s, v, key));
  }

  lemma DisconnectKeepsInv(s: State, w: Worker, code: Code)
    requires Inv(s)
    ensures Inv(Apply(s, Disconnect(w, code)))
  {
    var step := Disconnect(w, code);
    var t := Disconnected(s, w, code);
    assert t == Apply(s, step);
    if t != s {
      assert w in s.workers && w !in t.workers;
      hide Inv, Apply, AttemptInv, WorkerInv, LocalChange, Disconnected;
      DisconnectIsLocal(s, w, code);
      DisconnectedAttempt(s, w, code);
      LocalStepKeepsInv(s, step, t, Some(s.workers[w].key), w);
    }
  }

  lemma DisconnectedAttempt(s: State, w: Worker, code: Code)
    requires Inv(s) && Disconnected(s, w, code) != s
    ensures s.workers[w].key in Disconnected(s, w, code).attempts
    ensures AttemptInv(Disconnected(s, w, code), s.workers[w].key)
  {
    assert WorkerInv(s, w);
    assert AttemptInv(s, s.workers[w].key);
    hide Inv, Results;
  }

  lemma DisconnectIsLocal(s: State, w: Worker, code: Code)
    requires Inv(s) && Disconnected(s, w, code) != s
    ensures LocalChange(s, Disconnected(s, w, code), Some(s.workers[w].key), w)
  {
    hide Inv;
    var key, t := s.workers[w].key, Disconnected(s, w, code);
    if key.ClientKey? {
      OnlyHolder(s, w, key);
      assert forall v :: v != w ==> (Holds(t, v, key) <==> Holds(s, v, key));
    }
  }

  lemma FinishKeepsInv(s: State, w: Worker, now: nat)
    requires Inv(s)
    ensures Inv(Apply(s, Finish(w, now)))
  {
    var step := Finish(w, now);
    var t := Finished(s, w, now);
    assert t == Apply(s, step);
    if CanFinish(s, w) {
      EffectsLeaveOtherTables(s, FinishEffect(s, w, now));
      assert w !in t.workers;
      hide Inv, Apply, AttemptInv, WorkerInv, LocalChange, Finished, CanFinish;
      FinishIsLocal(s, w, now);
      FinishedAttempt(s, w, now);
      LocalStepKeepsInv(s, step, t, Some(s.workers[w].key), w);
    }
  }

  lemma FinishIsLocal(s: State, w: Worker, now: nat)
    requires Inv(s) && CanFinish(s, w)
    ensures LocalChange(s, Finished(s, w, now), Some(s.workers[w].key), w)
  {
    hide Inv, FinishEffect, Performed;
    var key, t := s.workers[w].key, Finished(s, w, now);
    EffectsLeaveOtherTables(s, FinishEffect(s, w, now));
    if key.ClientKey? {
      OnlyHolder(s, w, key);
      assert forall v :: v != w ==> (Holds(t, v, key) <==> Holds(s, v, key));
    }
  }

  /** What a record makes of the attempt and the draft. */
  lemma FinishedRows(s: State, w: Worker, now: nat)
    requires CanFinish(s, w)
    ensures
      var t, key, id := Finished(s, w, now), s.workers[w].key, s.workers[w].draft;
      var result := s.calls[s.workers[w].call].result;
      && t.calls == s.calls && t.assets == s.assets && key in t.attempts && id in t.drafts
      && (if result.Accepted? && FinishEffect(s, w, now) == Nothing then t.attempts == s.attempts
          else t.attempts[key] == Answer(s.attempts[key], key, result)
               && (result.Accepted? ==> t.drafts[id].status == Posted))
  {
    EffectsLeaveOtherTables(s, FinishEffect(s, w, now));
    hide PostedFeedback, MeetsChecks;
  }

  lemma AnswerKeepsAttempt(s: State, t: State, w: Worker)
    requires Inv(s) && CanFinish(s, w) && t.calls == s.calls && t.assets == s.assets
    requires s.workers[w].key in t.attempts && s.workers[w].draft in t.drafts
    requires
      var key, result := s.workers[w].key, s.calls[s.workers[w].call].result;
      && t.attempts[key] == Answer(s.attempts[key], key, result)
      && (result.Accepted? ==> t.drafts[s.workers[w].draft].status == Posted)
    ensures AttemptInv(t, s.workers[w].key)
  {
    assert WorkerInv(s, w);
    assert AttemptInv(s, s.workers[w].key);
    hide Inv, Results;
  }

  lemma FinishedAttempt(s: State, w: Worker, now: nat)
    requires Inv(s) && CanFinish(s, w)
    ensures s.workers[w].key in Finished(s, w, now).attempts
    ensures AttemptInv(Finished(s, w, now), s.workers[w].key)
  {
    var key, t := s.workers[w].key, Finished(s, w, now);
    assert Apply(s, Finish(w, now)) == t;
    hide Apply, Finished, FinishEffect, AttemptInv, Results;
    FinishedRows(s, w, now);
    if s.calls[s.workers[w].call].result.Accepted? && FinishEffect(s, w, now) == Nothing {
      assert AttemptInv(s, key);
      UntouchedAttempt(s, Finish(w, now), t, key);
    } else {
      AnswerKeepsAttempt(s, t, w);
    }
  }

  /** The provider call: one more result under one key, which no other worker holds. */
  lemma CallKeepsInv(s: State, w: Worker, result: ProviderResult)
    requires Inv(s)
    ensures Inv(Apply(s, Call(w, result)))
  {
    var step := Call(w, result);
    var t := Called(s, w, result);
    assert Apply(s, step) == t;
    if t != s {
      DraftHistory.ApplyKeepsInv(s, step);
      ResultsAfterCall(s, w, result);
      CallKeepsWorkers(s, w, result);
      CallKeepsAttempts(s, w, result);
      CallKeepsCalls(s, w, result);
      assert w in s.workers && s.workers[w].key in s.attempts by { assert WorkerInv(s, w); }
      hide DraftHistory.Inv, Results, Apply, WorkerInv, AttemptInv, CallInv;
      forall v, u, k: Key | k.ClientKey? && Holds(t, v, k) && Holds(t, u, k)
        ensures v == u
      {
        assert Holds(s, v, k) && Holds(s, u, k);
      }
    }
  }

  lemma CallKeepsAttempts(s: State, w: Worker, result: ProviderResult)
    requires Inv(s) && Called(s, w, result) != s
    ensures forall k :: k in s.attempts ==> AttemptInv(Called(s, w, result), k)
  {
    assert WorkerInv(s, w);
    ResultsAfterCall(s, w, result);
    hide DraftHistory.Inv, Results, WorkerInv;
    forall k | k in s.attempts
      ensures AttemptInv(Called(s, w, result), k)
    {
      assert AttemptInv(s, k);
    }
  }

  lemma CallKeepsCalls(s: State, w: Worker, result: ProviderResult)
    requires Inv(s) && Called(s, w, result) != s
    ensures forall i :: 0 <= i < |Called(s, w, result).calls| ==> CallInv(Called(s, w, result), i)
  {
    assert WorkerInv(s, w);
    hide DraftHistory.Inv, Results, AttemptInv;
    forall i | 0 <= i < |Called(s, w, result).calls|
      ensures CallInv(Called(s, w, result), i)
    {
      if i < |s.calls| { assert CallInv(s, i); }
    }
  }

  lemma ResultsAfterCall(s: State, w: Worker, result: ProviderResult)
    requires Called(s, w, result) != s
    ensures forall k: Key :: Results(Called(s, w, result).calls, k) ==
                             Results(s.calls, k) + if k == s.workers[w].key then [result] else []
  {
    var Ready(key, id, seen) := s.workers[w];
    forall k: Key
      ensures Results(Called(s, w, result).calls, k) == Results(s.calls, k) + if k == key then [result] else []
    {
      ResultsOfAppended(s.calls, ProviderCall(key, id, seen.content, result), k);
    }
  }

  lemma CallKeepsWorkers(s: State, w: Worker, result: ProviderResult)
    requires Inv(s) && Called(s, w, result) != s
    ensures forall v :: v in Called(s, w, result).workers ==> WorkerInv(Called(s, w, result), v)
  {
    var t, key := Called(s, w, result), s.workers[w].key;
    ResultsAfterCall(s, w, result);
    hide DraftHistory.Inv, Results;
    forall v | v in t.workers
      ensures WorkerInv(t, v)
    {
      assert WorkerInv(s, v);
      if key.ClientKey? { OnlyHolder(s, w, key); }
      assert v != w ==> Holds(s, v, key) || s.workers[v].Unused? || s.workers[v].key != key;
    }
  }

  lemma ApplyKeepsInv(s: State, step: Step)
    requires Inv(s)
    ensures Inv(Apply(s, step))
  {
    match step
    case PublishBegin(w, actor, id) => PublishBeginKeepsInv(s, w, actor, id);
    case Lookup(w, actor, name, fingerprint) => LookupKeepsInv(s, w, actor, name, fingerprint);
    case Reserve(w, now) => ReserveKeepsInv(s, w, now);
    case Disconnect(w, code) => DisconnectKeepsInv(s, w, code);
    case Call(w, result) => CallKeepsInv(s, w, result);
    case Finish(w, now) => FinishKeepsInv(s, w, now);
    case Crash(w) => CrashKeepsInv(s, w);
    case _ =>
      EffectsLeaveOtherTables(s, DraftHistory.EffectOf(s, step));
      hide Performed, Inv, EditEffect, ApproveEffect, RejectEffect, SelectEffect, RegenerateEffect, CreateEffect,
           BridgeEffect;
      DraftCommandKeepsInv(s, step, Apply(s, step));
  }

  lemma {:induction false} RunKeepsInv(s: State, steps: seq<Step>)
    requires Inv(s)
    ensures Inv(Run(s, steps))
    decreases |steps|
  {
    if steps != [] {
      ApplyKeepsInv(s, steps[0]);
      RunKeepsInv(Apply(s, steps[0]), steps[1..]);
    }
  }

  // ----- The results -----

  /** For each client key the provider is called at most once, over every run. */
  lemma ProviderIsCalledAtMostOnce(s: State, steps: seq<Step>, name: string)
    requires Init(s)
    ensures |Results(Run(s, steps).calls, ClientKey(name))| <= 1
  {
    RunKeepsInv(s, steps);
    var t, key := Run(s, steps), ClientKey(name);
    if key in t.attempts { assert AttemptInv(t, key); }
  }

  /** A replay says success only with the receipt that the provider returned and once the draft is
      posted; it says failed only if the provider was never called or refused; and it never hides a
      recorded answer. */
  lemma ReplayTellsTheTruth(s: State, steps: seq<Step>, name: string, fingerprint: Fingerprint)
    requires Init(s) && ClientKey(name) in Run(s, steps).attempts
    requires Run(s, steps).attempts[ClientKey(name)].fingerprint == Some(fingerprint)
    ensures
      var t := Run(s, steps);
      var reply := ReplayOf(t.attempts[ClientKey(name)], fingerprint);
      var results := Results(t.calls, ClientKey(name));
      && reply.Replay?
      && (reply.original == Success ==>
            && reply.receipt.Some? && results == [Accepted(reply.receipt.value)] && reply.error.None?
            && fingerprint.draft in t.drafts && t.drafts[fingerprint.draft].status == Posted)
      && (reply.original == Failure ==>
            reply.receipt.None? && results == if reply.error == Some(PublisherRejected) then [Refused] else [])
      && (reply.original == Unknown ==>
            reply.receipt.None? && (reply.error == Some(PublisherUnknown) ==> results == [Transient]))
  {
    RunKeepsInv(s, steps);
    assert AttemptInv(Run(s, steps), ClientKey(name));
  }

  /** The first reply to a client's command is what every replay will say: what the attempt shows once
      the provider's answer is recorded. */
  lemma FirstReplyIsTheReplay(s: State, w: Worker, now: nat, fingerprint: Fingerprint)
    requires Inv(s) && w in s.workers && s.workers[w].Answered? && s.workers[w].key.ClientKey?
    requires s.workers[w].key in s.attempts && s.attempts[s.workers[w].key].fingerprint == Some(fingerprint)
    ensures CanFinish(s, w)
    ensures
      var t, result := Finished(s, w, now), s.calls[s.workers[w].call].result;
      && s.workers[w].key in t.attempts
      && ((result.Accepted? && FinishEffect(s, w, now) == Nothing)
          || ReplayOf(t.attempts[s.workers[w].key], fingerprint) == AnsweredReply(result))
  {
    assert WorkerInv(s, w);
    assert AttemptInv(s, s.workers[w].key);
    EffectsLeaveOtherTables(s, FinishEffect(s, w, now));
    hide Inv, Results, FinishEffect, Performed;
  }

  /** The same for the reply that no usable connection was found. */
  lemma DisconnectedReplyIsTheReplay(s: State, w: Worker, code: Code, fingerprint: Fingerprint)
    requires Inv(s) && w in s.workers && s.workers[w].Ready? && s.workers[w].key.ClientKey? && code in CONNECTION_CODES
    requires s.workers[w].key in s.attempts && s.attempts[s.workers[w].key].fingerprint == Some(fingerprint)
    ensures
      var t := Disconnected(s, w, code);
      s.workers[w].key in t.attempts && ReplayOf(t.attempts[s.workers[w].key], fingerprint) == DisconnectedReply(code)
  {
    assert WorkerInv(s, w);
    assert AttemptInv(s, s.workers[w].key);
    hide Inv, Results;
  }

  /** Attempts stay, keep their payload, and keep their outcome once it is recorded. */
  predicate KeepsRecorded(s: State, t: State, key: Key) {
    key in s.attempts ==>
      && key in t.attempts && t.attempts[key].fingerprint == s.attempts[key].fingerprint
      && (s.attempts[key].status != InFlight ==> t.attempts[key] == s.attempts[key])
  }

  lemma HeldKeyIsInFlight(s: State, w: Worker, key: Key)
    requires Inv(s) && Holds(s, w, key) && key.ClientKey?
    ensures key in s.attempts && s.attempts[key].status == InFlight
  {
    assert WorkerInv(s, w);
  }

  lemma PublicationKeepsRecorded(s: State, w: Worker, now: nat, code: Code, key: Key)
    requires Inv(s) && key.ClientKey?
    ensures KeepsRecorded(s, Reserved(s, w, now), key)
    ensures KeepsRecorded(s, Disconnected(s, w, code), key)
    ensures KeepsRecorded(s, Finished(s, w, now), key)
  {
    hide Inv;
    if Holds(s, w, key) { HeldKeyIsInFlight(s, w, key); }
    EffectsLeaveOtherTables(s, ReserveEffect(s, w, now));
    EffectsLeaveOtherTables(s, FinishEffect(s, w, now));
    hide ReserveEffect, FinishEffect, Performed;
  }

  lemma SameAttemptsKeepRecorded(s: State, step: Step, key: Key)
    requires !step.Reserve? && !step.Finish? && !step.Disconnect?
    ensures KeepsRecorded(s, Apply(s, step), key)
  {
    EffectsLeaveOtherTables(s, DraftHistory.EffectOf(s, step));
    hide Performed, EditEffect, ApproveEffect, RejectEffect, SelectEffect, RegenerateEffect, CreateEffect, BridgeEffect,
         PublishError, RoleError;
  }

  lemma ApplyKeepsRecorded(s: State, step: Step, key: Key)
    requires Inv(s) && key.ClientKey?
    ensures KeepsRecorded(s, Apply(s, step), key)
  {
    hide Inv, Reserved, Finished, Disconnected, KeepsRecorded, Performed;
    if step.Reserve? || step.Finish? {
      PublicationKeepsRecorded(s, step.worker, step.now, ConnectionRequired, key);
    } else if step.Disconnect? {
      PublicationKeepsRecorded(s, step.worker, 0, step.code, key);
    } else {
      hide Apply;
      SameAttemptsKeepRecorded(s, step, key);
    }
  }

  /** Once the outcome is recorded, every later replay gives the same outcome, receipt and error
      code; and whatever its state, an attempt never changes its payload. */
  lemma {:induction false} ReplayNeverChanges(s: State, steps: seq<Step>, name: string, fingerprint: Fingerprint)
    requires Inv(s) && ClientKey(name) in s.attempts
    ensures ClientKey(name) in Run(s, steps).attempts
    ensures Run(s, steps).attempts[ClientKey(name)].fingerprint == s.attempts[ClientKey(name)].fingerprint
    ensures s.attempts[ClientKey(name)].status != InFlight ==>
      ReplayOf(Run(s, steps).attempts[ClientKey(name)], fingerprint) ==
          ReplayOf(s.attempts[ClientKey(name)], fingerprint)
    decreases |steps|
  {
    if steps != [] {
      ApplyKeepsInv(s, steps[0]);
      ApplyKeepsRecorded(s, steps[0], ClientKey(name));
      ReplayNeverChanges(Apply(s, steps[0]), steps[1..], name, fingerprint);
    }
  }

  /** What is sent under a client key is the text of the asset revision that the key names, even
      if the draft is edited before the provider is called. */
  lemma ExactRevisionIsSent(s: State, steps: seq<Step>, i: nat)
    requires Init(s) && i < |Run(s, steps).calls| && Run(s, steps).calls[i].key.ClientKey?
    ensures
      var t := Run(s, steps);
      var c := t.calls[i];
      && c.key in t.attempts && t.attempts[c.key].fingerprint.Some?
      && var f := t.attempts[c.key].fingerprint.value;
         f.draft == c.draft && f.asset in t.assets && c.content == t.assets[f.asset]
  {
    RunKeepsInv(s, steps);
    var t := Run(s, steps);
    assert CallInv(t, i);
    assert AttemptInv(t, t.calls[i].key);
  }

  lemma PostIsRefusedIff(s: State, w: Worker, now: nat)
    requires CanFinish(s, w) && s.calls[s.workers[w].call].result.Accepted?
    ensures FinishEffect(s, w, now) == Nothing <==> s.drafts[s.workers[w].draft].approvedAt.None?
    ensures FinishEffect(s, w, now) == Nothing ==> Finished(s, w, now) == s.(workers := s.workers - {w})
  {
    hide Performed, PostedFeedback;
  }

  /** A post that the provider accepted is recorded exactly when the draft is still approved (or
      posted by another command) at that moment; otherwise the attempt stays as it was. */
  lemma AcceptedPostIsRecordedIffStillApproved(s: State, w: Worker, now: nat)
    requires Inv(s) && w in s.workers && s.workers[w].Answered?
    requires s.calls[s.workers[w].call].result.Accepted?
    ensures CanFinish(s, w)
    ensures
      var key, t := s.workers[w].key, Apply(s, Finish(w, now));
      && key in t.attempts
      && (if s.drafts[s.workers[w].draft].status in {Approved, Posted}
          then t.attempts[key].status == Completed && t.drafts[s.workers[w].draft].status == Posted
          else t.attempts[key] == s.attempts[key] && t.drafts == s.drafts)
  {
    assert Apply(s, Finish(w, now)) == Finished(s, w, now);
    AnsweredCanFinish(s, w);
    DraftHistory.ApprovalFacts(s, s.workers[w].draft);
    hide Inv, Apply, Finished, FinishEffect, CanFinish;
    PostIsRefusedIff(s, w, now);
    FinishedRows(s, w, now);
  }

  lemma AnsweredCanFinish(s: State, w: Worker)
    requires Inv(s) && w in s.workers && s.workers[w].Answered?
    ensures CanFinish(s, w) && s.workers[w].key in s.attempts && s.workers[w].draft in s.drafts
  {
    assert WorkerInv(s, w);
    assert AttemptInv(s, s.workers[w].key);
  }
}
