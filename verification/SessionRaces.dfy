/** What a family of sessions keeps when rotations and replays overlap.

    A rotation locks the row of its token, finds it good, and commits the replacement later. A replay
    marks the rows of the family that its statement sees when it starts; it waits for the locked ones
    among them, and does not see a replacement that commits meanwhile. So both are two steps here. Every
    other transaction is one step, and waits while a row that it would change is locked. */
module SessionRaces {
  import opened Options
  import opened Sessions

  type Worker = nat

  datatype Rotation = Rotation(step: Sessions.Step, row: SessionId)

  datatype Marking = Marking(family: Family, at: nat, seen: set<SessionId>)

  /** The sessions, the rotations that hold a lock, and the replays that are marking. */
  datatype State = Overlapping(base: Sessions.State, rotating: map<Worker, Rotation>, marking: map<Worker, Marking>)

  /** The two halves of `rotate_refresh_session` are Check and Finish. */
  datatype Step = Whole(step: Sessions.Step) | Check(worker: Worker, step: Sessions.Step) | Finish(worker: Worker)
                | Abort(worker: Worker)

  predicate IsLocked(s: State, id: SessionId) {
    exists w :: w in s.rotating && s.rotating[w].row == id
  }

  function FamilyOf(b: Sessions.State, f: Family): set<SessionId> {
    set id | id in b.sessions && b.sessions[id].family == f
  }

  function Marked(sessions: map<SessionId, Session>, seen: set<SessionId>, at: nat): map<SessionId, Session> {
    map id | id in sessions ::
      if id in seen then sessions[id].(revokedAt := Some(at), compromisedAt := Some(at)) else sessions[id]
  }

  /** The row lock, the tests, and for a replay the start of the marking statement. */
  function AfterCheck(s: State, w: Worker, step: Sessions.Step): State {
    if !step.Rotate? || w in s.rotating || w in s.marking || Found(s.base, step.token).None? then s
    else
      var row := Found(s.base, step.token).value;
      if IsLocked(s, row) then s
      else
        match RotateReply(s.base, step)
        case Rotated(_) => s.(rotating := s.rotating[w := Rotation(step, row)])
        case Reuse =>
          var family := s.base.sessions[row].family;
          s.(marking := s.marking[w := Marking(family, step.now, FamilyOf(s.base, family))])
        case _ => s
  }

  predicate CanMark(s: State, w: Worker) {
    w in s.marking && forall id :: id in s.marking[w].seen ==> !IsLocked(s, id)
  }

  /** The writes and the commit. */
  function AfterFinish(s: State, w: Worker): State {
    if w in s.rotating then
      var Rotation(step, row) := s.rotating[w];
      var t := s.(rotating := s.rotating - {w});
      // A collision violates a unique key, and the rotation rolls back.
      if !step.Rotate? || row !in s.base.sessions || !Fresh(s.base, step.id, step.newToken) then t
      else t.(base := Replaced(s.base, step, row))
    else if CanMark(s, w) then
      var m := s.marking[w];
      s.(base := s.base.(sessions := Marked(s.base.sessions, m.seen, m.at)), marking := s.marking - {w})
    else s
  }

  /** The step would change a locked row. */
  predicate Disturbs(s: State, step: Sessions.Step) {
    var t := Sessions.Apply(s.base, step);
    exists w :: w in s.rotating && s.rotating[w].row in s.base.sessions
      && (s.rotating[w].row !in t.sessions || t.sessions[s.rotating[w].row] != s.base.sessions[s.rotating[w].row])
  }

  function Apply(s: State, step: Step): State {
    match step
    case Whole(whole) => if whole.Rotate? || Disturbs(s, whole) then s else s.(base := Sessions.Apply(s.base, whole))
    case Check(w, rotation) => AfterCheck(s, w, rotation)
    case Finish(w) => AfterFinish(s, w)
    case Abort(w) => s.(rotating := s.rotating - {w}, marking := s.marking - {w})
  }

  function Run(s: State, steps: seq<Step>): State
    decreases |steps|
  {
    if steps == [] then s else Run(Apply(s, steps[0]), steps[1..])
  }

  ghost predicate Init(s: State) {
    Sessions.Init(s.base) && s.rotating == map[] && s.marking == map[]
  }

  // ----- Serial calls -----

  lemma SerialCallIsOneStep(b: Sessions.State, step: Sessions.Step)
    requires step.Rotate?
    ensures
      var s := Overlapping(b, map[], map[]);
      Apply(Apply(s, Check(0, step)), Finish(0)) == s.(base := Sessions.Apply(b, step))
  {
    var s := Overlapping(b, map[], map[]);
    var t := Apply(s, Check(0, step));
    if Found(b, step.token).Some? {
      var family := b.sessions[Found(b, step.token).value].family;
      assert Marked(b.sessions, FamilyOf(b, family), step.now) == Compromised(b.sessions, family, step.now);
      assert !IsLocked(s, Found(b, step.token).value);
      match RotateReply(b, step)
      case Rotated(_) =>
        assert t.rotating == map[0 := Rotation(step, Found(b, step.token).value)];
      case Reuse =>
        assert t.marking == map[0 := Marking(family, step.now, FamilyOf(b, family))] && CanMark(t, 0);
      case _ =>
    }
  }

  function Serial(step: Sessions.Step): seq<Step> {
    if step.Rotate? then [Check(0, step), Finish(0)] else [Whole(step)]
  }

  function AllSerial(steps: seq<Sessions.Step>): seq<Step> {
    if steps == [] then [] else Serial(steps[0]) + AllSerial(steps[1..])
  }

  /** The runs of Sessions are the runs here whose calls do not overlap. */
  lemma {:induction false} SerialRunsAreSessionRuns(b: Sessions.State, steps: seq<Sessions.Step>)
    ensures Run(Overlapping(b, map[], map[]), AllSerial(steps)) == Overlapping(Sessions.Run(b, steps), map[], map[])
    decreases |steps|
  {
    if steps != [] {
      var s, all, step := Overlapping(b, map[], map[]), AllSerial(steps), steps[0];
      if step.Rotate? {
        SerialCallIsOneStep(b, step);
        hide Apply, Sessions.Apply, Sessions.Run;
        assert all[0] == Check(0, step) && all[1..][0] == Finish(0) && all[1..][1..] == AllSerial(steps[1..]);
        assert Run(s, all) == Run(Apply(Apply(s, Check(0, step)), Finish(0)), AllSerial(steps[1..]));
      } else {
        assert Apply(s, Whole(step)) == s.(base := Sessions.Apply(b, step));
        hide Apply, Sessions.Apply, Sessions.Run;
        assert all[0] == Whole(step) && all[1..] == AllSerial(steps[1..]);
      }
      SerialRunsAreSessionRuns(Sessions.Apply(b, step), steps[1..]);
      assert Sessions.Run(b, steps) == Sessions.Run(Sessions.Apply(b, step), steps[1..]);
    }
  }

  // ----- What every run keeps -----

  /** A session that can still be active at some time. */
  predicate IsUsable(x: Session) {
    x.revokedAt.None? && x.deletedAt.None? && x.replacedBy.None? && x.expiresAt > 0
  }

  /** The lock keeps the row as it was found. */
  ghost predicate RotationInv(s: State, w: Worker)
    requires w in s.rotating
  {
    var r := s.rotating[w];
    r.step.Rotate? && r.row in s.base.sessions && IsUsable(s.base.sessions[r.row])
  }

  ghost predicate MarkingInv(s: State, w: Worker)
    requires w in s.marking
  {
    var m := s.marking[w];
    && m.family in s.base.chains
    && forall id :: id in m.seen ==> id in s.base.sessions && s.base.sessions[id].family == m.family
  }

  ghost predicate Inv(s: State) {
    && Sessions.Inv(s.base)
    && (forall w :: w in s.rotating ==> RotationInv(s, w))
    && (forall v, w :: v in s.rotating && w in s.rotating && s.rotating[v].row == s.rotating[w].row ==> v == w)
    && (forall w :: w in s.marking ==> MarkingInv(s, w))
  }

  /** Sessions stay, in their family. */
  predicate FamiliesStay(b: Sessions.State, c: Sessions.State) {
    && b.chains.Keys <= c.chains.Keys
    && forall id :: id in b.sessions ==> id in c.sessions && c.sessions[id].family == b.sessions[id].family
  }

  lemma WholeStepKeepsFamilies(b: Sessions.State, step: Sessions.Step)
    requires Sessions.Inv(b) && !step.Rotate?
    ensures FamiliesStay(b, Sessions.Apply(b, step))
  {
    if !step.Login? { OtherStepsOnlyMark(b, step); }
    hide Sessions.Inv, SamePlaces;
  }

  lemma MarkingsStay(s: State, t: State)
    requires FamiliesStay(s.base, t.base) && forall w :: w in s.marking ==> MarkingInv(s, w)
    requires forall w :: w in t.marking ==> w in s.marking && t.marking[w] == s.marking[w]
    ensures forall w :: w in t.marking ==> MarkingInv(t, w)
  {
    forall w | w in t.marking
      ensures MarkingInv(t, w)
    {
      assert MarkingInv(s, w);
    }
  }

  lemma WholeKeepsInv(s: State, step: Sessions.Step)
    requires Inv(s)
    ensures Inv(Apply(s, Whole(step)))
  {
    var t := Apply(s, Whole(step));
    if t != s {
      Sessions.ApplyKeepsInv(s.base, step);
      WholeStepKeepsFamilies(s.base, step);
      hide Sessions.Apply, Sessions.Inv, MarkingInv;
      MarkingsStay(s, t);
      forall w | w in t.rotating
        ensures RotationInv(t, w)
      {
        assert RotationInv(s, w);
      }
    }
  }

  lemma CheckOnlyAdds(s: State, w: Worker, step: Sessions.Step)
    ensures
      var t := AfterCheck(s, w, step);
      && t.base == s.base
      && (forall v :: v in s.rotating ==> v in t.rotating && t.rotating[v] == s.rotating[v])
      && (forall v :: v in t.rotating && v !in s.rotating ==> v == w)
      && (forall v :: v in s.marking ==> v in t.marking && t.marking[v] == s.marking[v])
      && (forall v :: v in t.marking && v !in s.marking ==> v == w)
  {
    hide RotateReply, IsLocked, FamilyOf;
  }

  lemma CheckedRotation(s: State, w: Worker, step: Sessions.Step)
    requires w !in s.rotating && w in AfterCheck(s, w, step).rotating
    ensures RotationInv(AfterCheck(s, w, step), w)
    ensures forall v :: v in s.rotating ==> s.rotating[v].row != AfterCheck(s, w, step).rotating[w].row
  {
    hide FamilyOf;
    assert forall v :: v in s.rotating ==> IsLocked(s, s.rotating[v].row);
  }

  lemma StartedMarking(s: State, w: Worker, step: Sessions.Step)
    requires Sessions.Inv(s.base) && w !in s.marking && w in AfterCheck(s, w, step).marking
    ensures MarkingInv(AfterCheck(s, w, step), w)
  {
    assert Known(s.base, Found(s.base, step.token).value);
    hide Sessions.Inv, IsLocked;
  }

  lemma CheckKeepsInv(s: State, w: Worker, step: Sessions.Step)
    requires Inv(s)
    ensures Inv(AfterCheck(s, w, step))
  {
    hide AfterCheck, Sessions.Inv;
    var t := AfterCheck(s, w, step);
    CheckOnlyAdds(s, w, step);
    if w !in s.rotating && w in t.rotating { CheckedRotation(s, w, step); }
    if w !in s.marking && w in t.marking { StartedMarking(s, w, step); }
    forall v | v in t.rotating
      ensures RotationInv(t, v)
    {
      assert v in s.rotating ==> RotationInv(s, v);
    }
    forall v | v in t.marking
      ensures MarkingInv(t, v)
    {
      assert v in s.marking ==> MarkingInv(s, v);
    }
    hide RotationInv, MarkingInv;
  }

  lemma ReplacedRows(s: State, w: Worker)
    requires w in s.rotating && RotationInv(s, w)
    ensures
      var t, row := AfterFinish(s, w), s.rotating[w].row;
      && t.rotating == s.rotating - {w} && t.marking == s.marking && FamiliesStay(s.base, t.base)
      && forall id :: id in s.base.sessions && id != row ==>
           id in t.base.sessions && t.base.sessions[id] == s.base.sessions[id]
  {
  }

  lemma ReplacedBase(s: State, w: Worker)
    requires w in s.rotating && RotationInv(s, w) && Sessions.Inv(s.base)
    ensures Sessions.Inv(AfterFinish(s, w).base)
  {
    var Rotation(step, row) := s.rotating[w];
    if Fresh(s.base, step.id, step.newToken) { Sessions.ReplacementKeepsInv(s.base, step, row); }
    hide Sessions.Inv;
  }

  lemma ReplacementKeepsInv(s: State, w: Worker)
    requires Inv(s) && w in s.rotating
    ensures Inv(AfterFinish(s, w)) && FamiliesStay(s.base, AfterFinish(s, w).base)
  {
    hide AfterFinish, Sessions.Inv, MarkingInv, FamiliesStay;
    var t := AfterFinish(s, w);
    assert RotationInv(s, w);
    ReplacedBase(s, w);
    ReplacedRows(s, w);
    MarkingsStay(s, t);
    forall v | v in t.rotating
      ensures RotationInv(t, v)
    {
      assert RotationInv(s, v) && s.rotating[v].row != s.rotating[w].row;
    }
  }

  lemma MarkedRows(s: State, w: Worker)
    requires w !in s.rotating && CanMark(s, w)
    ensures
      var t := AfterFinish(s, w);
      && SamePlaces(s.base, t.base) && FamiliesStay(s.base, t.base)
      && t.rotating == s.rotating && t.marking == s.marking - {w}
      && forall id :: id in s.base.sessions && IsLocked(s, id) ==> t.base.sessions[id] == s.base.sessions[id]
  {
    hide IsLocked;
  }

  lemma MarkKeepsInv(s: State, w: Worker)
    requires Inv(s) && w !in s.rotating && CanMark(s, w)
    ensures Inv(AfterFinish(s, w)) && FamiliesStay(s.base, AfterFinish(s, w).base)
  {
    hide Sessions.Inv, MarkingInv, SamePlaces;
    var t := AfterFinish(s, w);
    MarkedRows(s, w);
    SamePlacesKeepInv(s.base, t.base);
    assert forall v :: v in s.rotating ==> IsLocked(s, s.rotating[v].row);
    hide AfterFinish, FamiliesStay;
    MarkingsStay(s, t);
    forall v | v in t.rotating
      ensures RotationInv(t, v)
    {
      assert RotationInv(s, v);
    }
  }

  lemma ApplyKeepsInv(s: State, step: Step)
    requires Inv(s)
    ensures Inv(Apply(s, step))
  {
    match step
    case Whole(whole) => WholeKeepsInv(s, whole);
    case Check(w, rotation) => CheckKeepsInv(s, w, rotation);
    case Finish(w) =>
      if w in s.rotating { ReplacementKeepsInv(s, w); } else if CanMark(s, w) { MarkKeepsInv(s, w); }
    case Abort(w) =>
      var t := Apply(s, step);
      hide Sessions.Inv, MarkingInv;
      MarkingsStay(s, t);
      assert forall v :: v in t.rotating ==> RotationInv(s, v);
  }

  /** Families stay chains when calls overlap: generations without gaps or repeats, all but the newest
      revoked and replaced, at most one active. */
  lemma {:induction false} RunKeepsInv(s: State, steps: seq<Step>)
    requires Inv(s)
    ensures Inv(Run(s, steps)) && Sessions.Inv(Run(s, steps).base)
    decreases |steps|
  {
    if steps != [] {
      ApplyKeepsInv(s, steps[0]);
      RunKeepsInv(Apply(s, steps[0]), steps[1..]);
      hide Inv, Apply;
    }
  }

  // ----- When a replay kills the family -----

  /** No session of the family can ever be active. */
  ghost predicate IsSpent(s: State, f: Family) {
    f in s.base.chains && forall id :: id in FamilyOf(s.base, f) ==> !IsUsable(s.base.sessions[id])
  }

  lemma WholeKeepsSpent(b: Sessions.State, step: Sessions.Step, f: Family)
    requires f in b.chains && !step.Rotate?
    requires forall id :: id in FamilyOf(b, f) ==> !IsUsable(b.sessions[id])
    ensures f in Sessions.Apply(b, step).chains
    ensures forall id :: id in FamilyOf(Sessions.Apply(b, step), f) ==> !IsUsable(Sessions.Apply(b, step).sessions[id])
  {
    forall id | id in FamilyOf(Sessions.Apply(b, step), f)
      ensures !IsUsable(Sessions.Apply(b, step).sessions[id])
    {
      assert id in b.sessions ==> (id in FamilyOf(b, f) <==> b.sessions[id].family == f);
    }
  }

  lemma FinishKeepsSpent(s: State, w: Worker, f: Family)
    requires Inv(s) && IsSpent(s, f)
    ensures IsSpent(AfterFinish(s, w), f)
  {
    var t := AfterFinish(s, w);
    if w in s.rotating {
      var row := s.rotating[w].row;
      assert RotationInv(s, w);
      assert s.base.sessions[row].family != f by { assert row in s.base.sessions; }
    }
    hide Inv;
    forall id | id in FamilyOf(t.base, f)
      ensures !IsUsable(t.base.sessions[id])
    {
      assert id in s.base.sessions && id in FamilyOf(s.base, f);
    }
  }

  lemma ApplyKeepsSpent(s: State, step: Step, f: Family)
    requires Inv(s) && IsSpent(s, f)
    ensures IsSpent(Apply(s, step), f)
  {
    match step
    case Whole(whole) => if !whole.Rotate? { WholeKeepsSpent(s.base, whole, f); }
    case Finish(w) => FinishKeepsSpent(s, w, f);
    case _ =>
  }

  lemma {:induction false} SpentStaysSpent(s: State, steps: seq<Step>, f: Family)
    requires Inv(s) && IsSpent(s, f)
    ensures IsSpent(Run(s, steps), f)
    decreases |steps|
  {
    if steps != [] {
      hide Inv, IsSpent, Apply;
      ApplyKeepsInv(s, steps[0]);
      ApplyKeepsSpent(s, steps[0], f);
      SpentStaysSpent(Apply(s, steps[0]), steps[1..], f);
    }
  }

  ghost predicate HasActive(s: State, f: Family) {
    exists id, now: nat :: id in FamilyOf(s.base, f) && IsActive(s.base.sessions[id], now)
  }

  ghost predicate IsEverActive(s: State, f: Family) {
    exists steps :: HasActive(Run(s, steps), f)
  }

  /** The replacement that a rotation committed while the replay was marking, if it is still usable. */
  predicate Escaped(s: State, m: Marking) {
    exists id :: id in FamilyOf(s.base, m.family) && id !in m.seen && IsUsable(s.base.sessions[id])
  }

  /** A replay kills its family - no session of it is active at any time of any later run - exactly if,
      when it writes, every session of the family that it did not see is already unusable. */
  lemma ReplayKillsTheFamilyIff(s: State, w: Worker)
    requires Inv(s) && w !in s.rotating && CanMark(s, w)
    ensures !IsEverActive(Apply(s, Finish(w)), s.marking[w].family) <==> !Escaped(s, s.marking[w])
  {
    var t, m := Apply(s, Finish(w)), s.marking[w];
    assert MarkingInv(s, w);
    MarkKeepsInv(s, w);
    hide Inv;
    if Escaped(s, m) {
      var id :| id in FamilyOf(s.base, m.family) && id !in m.seen && IsUsable(s.base.sessions[id]);
      assert t.base.sessions[id] == s.base.sessions[id] && IsActive(t.base.sessions[id], 0);
      assert HasActive(Run(t, []), m.family);
    } else {
      forall id | id in FamilyOf(t.base, m.family)
        ensures !IsUsable(t.base.sessions[id])
      {
        assert id in FamilyOf(s.base, m.family);
      }
      forall steps
        ensures !HasActive(Run(t, steps), m.family)
      {
        SpentStaysSpent(t, steps, m.family);
      }
    }
  }

  /** No rotation in the family commits. */
  predicate NoCommit(s: State, steps: seq<Step>, f: Family)
    decreases |steps|
  {
    steps == []
    || (!(steps[0].Finish? && steps[0].worker in s.rotating && s.rotating[steps[0].worker].row in FamilyOf(s.base, f))
        && NoCommit(Apply(s, steps[0]), steps[1..], f))
  }

  lemma FinishKeepsFamily(s: State, w: Worker, f: Family)
    requires Inv(s) && !(w in s.rotating && s.rotating[w].row in FamilyOf(s.base, f))
    ensures FamilyOf(AfterFinish(s, w).base, f) == FamilyOf(s.base, f)
    ensures s.base.chains.Keys <= AfterFinish(s, w).base.chains.Keys
  {
    if w in s.rotating { assert RotationInv(s, w); }
    hide Inv;
    assert forall id :: id in FamilyOf(AfterFinish(s, w).base, f) <==> id in FamilyOf(s.base, f);
  }

  lemma WholeKeepsFamily(b: Sessions.State, step: Sessions.Step, f: Family)
    requires f in b.chains && !step.Rotate?
    ensures FamilyOf(Sessions.Apply(b, step), f) == FamilyOf(b, f) && f in Sessions.Apply(b, step).chains
  {
    assert forall id :: id in FamilyOf(Sessions.Apply(b, step), f) <==> id in FamilyOf(b, f);
  }

  lemma StepKeepsFamily(s: State, step: Step, f: Family)
    requires Inv(s) && f in s.base.chains && NoCommit(s, [step], f)
    ensures FamilyOf(Apply(s, step).base, f) == FamilyOf(s.base, f) && f in Apply(s, step).base.chains
  {
    hide Inv, Sessions.Apply, AfterFinish, AfterCheck, FamilyOf, Disturbs;
    match step
    case Whole(whole) => if !whole.Rotate? { WholeKeepsFamily(s.base, whole, f); }
    case Finish(w) => FinishKeepsFamily(s, w, f);
    case Check(w, rotation) => CheckOnlyAdds(s, w, rotation);
    case Abort(_) =>
  }

  lemma {:induction false} FamilyStaysWithoutCommit(s: State, steps: seq<Step>, f: Family)
    requires Inv(s) && f in s.base.chains && NoCommit(s, steps, f)
    ensures FamilyOf(Run(s, steps).base, f) == FamilyOf(s.base, f)
    decreases |steps|
  {
    if steps != [] {
      assert NoCommit(s, [steps[0]], f);
      StepKeepsFamily(s, steps[0], f);
      ApplyKeepsInv(s, steps[0]);
      hide Inv, Apply;
      FamilyStaysWithoutCommit(Apply(s, steps[0]), steps[1..], f);
    }
  }

  /** So it kills the family whenever no rotation in it commits between the replay's two halves. */
  lemma UndisturbedReplayKills(s: State, w: Worker, replay: Sessions.Step, steps: seq<Step>)
    requires Inv(s) && w !in s.marking && w in Apply(s, Check(w, replay)).marking
    requires
      var t := Apply(s, Check(w, replay));
      var m, u := t.marking[w], Run(t, steps);
      NoCommit(t, steps, m.family) && w in u.marking && u.marking[w] == m && w !in u.rotating && CanMark(u, w)
    ensures
      var t := Apply(s, Check(w, replay));
      !IsEverActive(Apply(Run(t, steps), Finish(w)), t.marking[w].family)
  {
    var t := Apply(s, Check(w, replay));
    var m, u := t.marking[w], Run(t, steps);
    assert m.seen == FamilyOf(s.base, m.family) && t.base == s.base;
    ApplyKeepsInv(s, Check(w, replay));
    assert MarkingInv(t, w);
    hide Inv, Apply, IsEverActive, CanMark, NoCommit;
    FamilyStaysWithoutCommit(t, steps, m.family);
    RunKeepsInv(t, steps);
    ReplayKillsTheFamilyIff(u, w);
  }

  // ----- A family that survives -----

  lemma {:induction false} RunThen(s: State, steps: seq<Step>, last: Step)
    ensures Run(s, steps + [last]) == Apply(Run(s, steps), last)
    decreases |steps|
  {
    hide Apply;
    if steps == [] {
      assert steps + [last] == [last] && [last][1..] == [] && Run(Apply(s, last), []) == Apply(s, last);
    } else {
      assert (steps + [last])[1..] == steps[1..] + [last];
      RunThen(Apply(s, steps[0]), steps[1..], last);
    }
  }

  /** One login and one rotation, then a second rotation locks the row of token 20 and a replay of
      token 10 starts to mark; the rotation commits before the replay writes. */
  const OVERTAKEN := [Whole(Login(1, 0, 10, 5, 0, 100)), Check(1, Rotate(10, 1, 2, 20, 100)), Finish(1),
                      Check(2, Rotate(20, 2, 3, 30, 100)), Check(3, Rotate(10, 3, 4, 40, 100)), Finish(2), Finish(3)]

  const FIRST := Session(0, 10, 100, 5, 0, None, None, None, None, None)
  const SECOND := Session(0, 20, 101, 5, 1, None, None, None, None, None)
  const THIRD := Session(0, 30, 102, 5, 2, None, None, None, None, None)

  lemma RotatedOnce(s: State)
    requires Init(s) && 0 in s.base.users && s.base.users[0] == User(true, None)
    ensures
      var t := Run(s, OVERTAKEN[..3]);
      && t.base.users == s.base.users && t.rotating == map[] && t.marking == map[]
      && t.base.byHash == map[10 := 1, 20 := 2]
      && t.base.sessions == map[1 := FIRST.(revokedAt := Some(1), lastUsedAt := Some(1), replacedBy := Some(2)),
                                2 := SECOND]
  {
    var x := OVERTAKEN;
    assert x[..0] == [] && x[..1] == x[..0] + [x[0]] && x[..2] == x[..1] + [x[1]] && x[..3] == x[..2] + [x[2]];
    RunThen(s, x[..0], x[0]);
    RunThen(s, x[..1], x[1]);
    RunThen(s, x[..2], x[2]);
    hide Run;
    var a := Apply(s, x[0]);
    assert a.base.sessions == map[1 := FIRST] && a.base.byHash == map[10 := 1] && a.rotating == map[];
    var b := Apply(a, x[1]);
    assert b == a.(rotating := map[1 := Rotation(Rotate(10, 1, 2, 20, 100), 1)]);
    var c := Apply(b, x[2]);
    assert c.base == Replaced(a.base, Rotate(10, 1, 2, 20, 100), 1);
  }

  lemma BothAreOpen(t: State)
    requires 0 in t.base.users && t.base.users[0] == User(true, None) && t.rotating == map[] && t.marking == map[]
    requires t.base.byHash == map[10 := 1, 20 := 2]
    requires
      t.base.sessions == map[1 := FIRST.(revokedAt := Some(1), lastUsedAt := Some(1), replacedBy := Some(2)),
                             2 := SECOND]
    ensures Apply(Apply(t, OVERTAKEN[3]), OVERTAKEN[4]) ==
      t.(rotating := map[2 := Rotation(Rotate(20, 2, 3, 30, 100), 2)], marking := map[3 := Marking(5, 3, {1, 2})])
  {
    var d := Apply(t, OVERTAKEN[3]);
    assert d == t.(rotating := map[2 := Rotation(Rotate(20, 2, 3, 30, 100), 2)]);
    assert FamilyOf(t.base, 5) == {1, 2};
    assert !IsLocked(d, 1);
  }

  lemma TheRotationOvertakes(e: State)
    requires e.rotating == map[2 := Rotation(Rotate(20, 2, 3, 30, 100), 2)]
      && e.marking == map[3 := Marking(5, 3, {1, 2})]
    requires e.base.byHash == map[10 := 1, 20 := 2] && e.base.sessions.Keys == {1, 2} && e.base.sessions[2] == SECOND
    ensures
      var end := Apply(Apply(e, Finish(2)), Finish(3));
      && end.base.users == e.base.users && end.marking == map[]
      && end.base.byHash == map[10 := 1, 20 := 2, 30 := 3] && 3 in end.base.sessions && end.base.sessions[3] == THIRD
      && 1 in end.base.sessions && end.base.sessions[1].compromisedAt == Some(3)
      && 2 in end.base.sessions && end.base.sessions[2].compromisedAt == Some(3)
  {
    var f := Apply(e, Finish(2));
    assert f.base == Replaced(e.base, Rotate(20, 2, 3, 30, 100), 2) && f.rotating == map[];
    assert CanMark(f, 3);
  }

  /** It happens: the replay is detected and marks the two sessions that it saw, and the third stays
      active and can be rotated. */
  lemma FamilyCanSurviveAReplay(s: State)
    requires Init(s) && 0 in s.base.users && s.base.users[0] == User(true, None)
    ensures
      var end := Run(s, OVERTAKEN);
      && 1 in end.base.sessions && end.base.sessions[1].compromisedAt == Some(3)
      && 2 in end.base.sessions && end.base.sessions[2].compromisedAt == Some(3)
      && 3 in end.base.sessions && end.base.sessions[3].family == 5 && IsActive(end.base.sessions[3], 4)
      && RotateReply(end.base, Rotate(30, 4, 6, 60, 100)) == Rotated(6)
  {
    RotatedOnce(s);
    hide Run, Apply, RotateReply, IsActive;
    AfterTheFirst(Run(s, OVERTAKEN[..3]));
    LastFour(s, OVERTAKEN);
  }

  lemma LastFour(s: State, x: seq<Step>)
    requires |x| == 7
    ensures Run(s, x) == Apply(Apply(Apply(Apply(Run(s, x[..3]), x[3]), x[4]), x[5]), x[6])
  {
    hide Run, Apply;
    assert x[..4] == x[..3] + [x[3]] && x[..5] == x[..4] + [x[4]] && x[..6] == x[..5] + [x[5]];
    assert x == x[..6] + [x[6]];
    RunThen(s, x[..3], x[3]);
    RunThen(s, x[..4], x[4]);
    RunThen(s, x[..5], x[5]);
    RunThen(s, x[..6], x[6]);
  }

  lemma AfterTheFirst(t: State)
    requires 0 in t.base.users && t.base.users[0] == User(true, None) && t.rotating == map[] && t.marking == map[]
    requires t.base.byHash == map[10 := 1, 20 := 2]
    requires
      t.base.sessions == map[1 := FIRST.(revokedAt := Some(1), lastUsedAt := Some(1), replacedBy := Some(2)),
                             2 := SECOND]
    ensures
      var x := OVERTAKEN;
      var end := Apply(Apply(Apply(Apply(t, x[3]), x[4]), x[5]), x[6]);
      && 1 in end.base.sessions && end.base.sessions[1].compromisedAt == Some(3)
      && 2 in end.base.sessions && end.base.sessions[2].compromisedAt == Some(3)
      && 3 in end.base.sessions && end.base.sessions[3].family == 5 && IsActive(end.base.sessions[3], 4)
      && RotateReply(end.base, Rotate(30, 4, 6, 60, 100)) == Rotated(6)
  {
    BothAreOpen(t);
    var e := Apply(Apply(t, OVERTAKEN[3]), OVERTAKEN[4]);
    hide Apply;
    TheRotationOvertakes(e);
  }
}
