/** Refresh-session families: app/modules/identity/services/sessions.py and
    app/modules/identity/repositories/sessions.py.

    Tokens and ids are fresh, and a token stands for its own hash. Each call is one step; SessionRaces
    splits rotations and replays. */
module Sessions {
  import opened Options

  type SessionId = nat
  type UserId = nat
  type Family = nat
  type Token = nat

  datatype User = User(isActive: bool, deletedAt: Option<nat>)

  datatype Session = Session(
    user: UserId, token: Token, expiresAt: nat, family: Family, generation: nat,
    revokedAt: Option<nat>, replacedBy: Option<SessionId>, lastUsedAt: Option<nat>,
    compromisedAt: Option<nat>, deletedAt: Option<nat>)

  /** `byHash` is the unique index on refresh_token_hash; `chains` records, for each family, its
      sessions in the order of their creation, which the code does not keep. */
  datatype State = State(users: map<UserId, User>, sessions: map<SessionId, Session>,
                         byHash: map<Token, SessionId>, chains: map<Family, seq<SessionId>>)

  datatype Step =
    | Login(id: SessionId, user: UserId, token: Token, family: Family, now: nat, ttl: nat)
    | Rotate(token: Token, now: nat, id: SessionId, newToken: Token, ttl: nat)
    | RevokeToken(token: Token, now: nat)
    | RevokeSession(id: SessionId, now: nat)
    | DeleteAccount(user: UserId, now: nat)
    | SetUser(user: UserId, row: User)
    | SoftDelete(id: SessionId, now: nat)

  datatype Reply = Rotated(id: SessionId) | InvalidToken | Reuse | InactiveUser | Collision

  /** `refresh_session_is_active` */
  predicate IsActive(session: Session, now: nat) {
    session.deletedAt.None? && session.revokedAt.None? && session.expiresAt > now && session.replacedBy.None?
  }

  predicate UserIsLive(users: map<UserId, User>, user: UserId) {
    user in users && users[user].deletedAt.None?
  }

  function Created(user: UserId, token: Token, expiresAt: nat, family: Family, generation: nat): Session {
    Session(user, token, expiresAt, family, generation, None, None, None, None, None)
  }

  function Compromised(sessions: map<SessionId, Session>, family: Family, now: nat): map<SessionId, Session> {
    map id | id in sessions ::
      if sessions[id].family == family then sessions[id].(revokedAt := Some(now), compromisedAt := Some(now))
      else sessions[id]
  }

  function RevokedByHash(sessions: map<SessionId, Session>, token: Token, now: nat): map<SessionId, Session> {
    map id | id in sessions ::
      if sessions[id].token == token then sessions[id].(revokedAt := Some(now)) else sessions[id]
  }

  function RevokedForUser(sessions: map<SessionId, Session>, user: UserId, now: nat): map<SessionId, Session> {
    map id | id in sessions ::
      if sessions[id].user == user && sessions[id].revokedAt.None? then sessions[id].(revokedAt := Some(now))
      else sessions[id]
  }

  function Found(s: State, token: Token): Option<SessionId> {
    if token in s.byHash && s.byHash[token] in s.sessions then Some(s.byHash[token]) else None
  }

  predicate Fresh(s: State, id: SessionId, token: Token) {
    id !in s.sessions && token !in s.byHash
  }

  function RotateReply(s: State, step: Step): Reply
    requires step.Rotate?
  {
    var found := Found(s, step.token);
    if found.None? || s.sessions[found.value].deletedAt.Some? || s.sessions[found.value].expiresAt <= step.now
        then InvalidToken
    else
      var existing := s.sessions[found.value];
      if existing.revokedAt.Some? || existing.replacedBy.Some? then Reuse
      else if !UserIsLive(s.users, existing.user) then InvalidToken
      else if !s.users[existing.user].isActive then InactiveUser
      else if !Fresh(s, step.id, step.newToken) then Collision
      else Rotated(step.id)
  }

  function WithSession(s: State, id: SessionId, session: Session): State {
    var chain := if session.family in s.chains then s.chains[session.family] else [];
    s.(sessions := s.sessions[id := session], byHash := s.byHash[session.token := id],
       chains := s.chains[session.family := chain + [id]])
  }

  /** The writes of a rotation: the replacement, and the end of the session it replaces. */
  function Replaced(s: State, step: Step, current: SessionId): State
    requires step.Rotate? && current in s.sessions
  {
    var existing := s.sessions[current];
    var ended := existing.(lastUsedAt := Some(step.now), revokedAt := Some(step.now), replacedBy := Some(step.id));
    WithSession(s.(sessions := s.sessions[current := ended]), step.id,
                Created(existing.user, step.newToken, step.now + step.ttl, existing.family, existing.generation + 1))
  }

  function RotatedState(s: State, step: Step): State
    requires step.Rotate?
  {
    var reply := RotateReply(s, step);
    if reply == Reuse && Found(s, step.token).Some? then
      s.(sessions := Compromised(s.sessions, s.sessions[Found(s, step.token).value].family, step.now))
    else if reply.Rotated? && Found(s, step.token).Some? then Replaced(s, step, Found(s, step.token).value)
    else s
  }

  function Apply(s: State, step: Step): State {
    match step
    case Login(id, user, token, family, now, ttl) =>
      if !Fresh(s, id, token) || family in s.chains then s
      else WithSession(s, id, Created(user, token, now + ttl, family, 0))
    case Rotate(_, _, _, _, _) => RotatedState(s, step)
    case RevokeToken(token, now) => s.(sessions := RevokedByHash(s.sessions, token, now))
    case RevokeSession(id, now) =>
      if id !in s.sessions then s else s.(sessions := s.sessions[id := s.sessions[id].(revokedAt := Some(now))])
    case DeleteAccount(user, now) =>
      s.(sessions := RevokedForUser(s.sessions, user, now),
         users := if user in s.users then s.users[user := s.users[user].(deletedAt := Some(now))] else s.users)
    case SetUser(user, row) => s.(users := s.users[user := row])
    case SoftDelete(id, now) =>
      if id !in s.sessions then s else s.(sessions := s.sessions[id := s.sessions[id].(deletedAt := Some(now))])
  }

  function Run(s: State, steps: seq<Step>): State
    decreases |steps|
  {
    if steps == [] then s else Run(Apply(s, steps[0]), steps[1..])
  }

  ghost predicate Init(s: State) {
    s.sessions == map[] && s.byHash == map[] && s.chains == map[]
  }

  // ----- A family is a chain -----

  /** What ties a session to its place in the chain of its family. */
  ghost predicate Placed(s: State, f: Family, i: nat)
    requires f in s.chains && i < |s.chains[f]|
  {
    var chain := s.chains[f];
    && chain[i] in s.sessions
    && var x := s.sessions[chain[i]];
       && x.family == f && x.generation == i
       && chain[0] in s.sessions && x.user == s.sessions[chain[0]].user
       && (if i + 1 < |chain| then x.replacedBy == Some(chain[i + 1]) && x.revokedAt.Some? else x.replacedBy.None?)
  }

  ghost predicate Known(s: State, id: SessionId)
    requires id in s.sessions
  {
    var x := s.sessions[id];
    && x.family in s.chains && x.generation < |s.chains[x.family]| && s.chains[x.family][x.generation] == id
    && x.token in s.byHash && s.byHash[x.token] == id
  }

  ghost predicate Inv(s: State) {
    && (forall id :: id in s.sessions ==> Known(s, id))
    && (forall f, i: nat :: f in s.chains && i < |s.chains[f]| ==> Placed(s, f, i))
    && (forall token :: token in s.byHash ==>
        s.byHash[token] in s.sessions && s.sessions[s.byHash[token]].token == token)
  }

  /** Rows change only in ways that keep every session in its place. */
  ghost predicate SamePlaces(s: State, t: State) {
    && t.chains == s.chains && t.byHash == s.byHash && t.sessions.Keys == s.sessions.Keys
    && (forall id :: id in s.sessions ==>
          var x, y := s.sessions[id], t.sessions[id];
          && y.user == x.user && y.token == x.token && y.family == x.family && y.generation == x.generation
          && y.replacedBy == x.replacedBy && (x.revokedAt.Some? ==> y.revokedAt.Some?))
  }

  lemma SamePlacesKeepInv(s: State, t: State)
    requires Inv(s) && SamePlaces(s, t)
    ensures Inv(t)
  {
    forall id | id in t.sessions
      ensures Known(t, id)
    {
      assert Known(s, id);
    }
    forall f, i: nat | f in t.chains && i < |t.chains[f]|
      ensures Placed(t, f, i)
    {
      assert Placed(s, f, i) && Placed(s, f, 0);
    }
  }

  lemma LoginKeepsInv(s: State, id: SessionId, session: Session)
    requires Inv(s) && Fresh(s, id, session.token) && session.family !in s.chains
    requires session.generation == 0 && session.replacedBy.None?
    ensures Inv(WithSession(s, id, session))
  {
    var t := WithSession(s, id, session);
    forall x | x in t.sessions
      ensures Known(t, x)
    {
      if x != id { assert Known(s, x); }
    }
    forall f, i: nat | f in t.chains && i < |t.chains[f]|
      ensures Placed(t, f, i)
    {
      if f != session.family { assert Placed(s, f, i) && Placed(s, f, 0); }
    }
  }

  /** A rotation appends one generation to the chain of the session it replaces. */
  lemma ReplacementKeepsInv(s: State, step: Step, current: SessionId)
    requires Inv(s) && step.Rotate? && current in s.sessions && Fresh(s, step.id, step.newToken)
    requires s.sessions[current].revokedAt.None? && s.sessions[current].replacedBy.None?
    ensures Inv(Replaced(s, step, current))
  {
    var t := Replaced(s, step, current);
    var g := s.sessions[current].family;
    assert Known(s, current) && Placed(s, g, s.sessions[current].generation);
    assert |s.chains[g]| == s.sessions[current].generation + 1;
    forall x | x in t.sessions
      ensures Known(t, x)
    {
      if x != step.id { assert Known(s, x); }
    }
    forall f, i: nat | f in t.chains && i < |t.chains[f]|
      ensures Placed(t, f, i)
    {
      if f != g {
        assert Placed(s, f, i) && Placed(s, f, 0);
      } else if i < |s.chains[g]| {
        assert Placed(s, g, i) && Placed(s, g, 0);
      } else {
        assert Placed(s, g, 0);
      }
    }
  }

  lemma RotationKeepsInv(s: State, step: Step)
    requires Inv(s) && step.Rotate? && RotateReply(s, step).Rotated?
    ensures Inv(RotatedState(s, step))
  {
    ReplacementKeepsInv(s, step, Found(s, step.token).value);
  }

  /** Every step but a login and a rotation only marks rows. */
  lemma OtherStepsOnlyMark(s: State, step: Step)
    requires !step.Login? && (step.Rotate? ==> !RotateReply(s, step).Rotated?)
    ensures SamePlaces(s, Apply(s, step))
  {
  }

  lemma ApplyKeepsInv(s: State, step: Step)
    requires Inv(s)
    ensures Inv(Apply(s, step))
  {
    hide Inv, SamePlaces;
    if step.Login? {
      if Fresh(s, step.id, step.token) && step.family !in s.chains {
        LoginKeepsInv(s, step.id, Created(step.user, step.token, step.now + step.ttl, step.family, 0));
      }
    } else if step.Rotate? && RotateReply(s, step).Rotated? {
      RotationKeepsInv(s, step);
    } else {
      OtherStepsOnlyMark(s, step);
      SamePlacesKeepInv(s, Apply(s, step));
    }
  }

  lemma {:induction false} RunKeepsInv(s: State, steps: seq<Step>)
    requires Inv(s)
    ensures Inv(Run(s, steps))
    decreases |steps|
  {
    if steps != [] {
      hide Inv, Apply;
      ApplyKeepsInv(s, steps[0]);
      RunKeepsInv(Apply(s, steps[0]), steps[1..]);
    }
  }

  // ----- The results -----

  /** In every reachable state, two sessions of one family belong to one user and differ in
      generation, and whichever is not the newest is revoked and points to the next one. */
  lemma FamilyIsAChain(s: State, steps: seq<Step>, a: SessionId, b: SessionId)
    requires Init(s) && a in Run(s, steps).sessions && b in Run(s, steps).sessions
    requires Run(s, steps).sessions[a].family == Run(s, steps).sessions[b].family
    ensures
      var t := Run(s, steps);
      var x, y := t.sessions[a], t.sessions[b];
      && x.user == y.user
      && (x.generation == y.generation ==> a == b)
      && (x.generation < y.generation ==>
            && x.revokedAt.Some? && x.replacedBy.Some? && x.replacedBy.value in t.sessions
            && t.sessions[x.replacedBy.value].family == x.family
            && t.sessions[x.replacedBy.value].generation == x.generation + 1)
  {
    RunKeepsInv(s, steps);
    ChainFacts(Run(s, steps), a, b);
  }

  lemma ChainFacts(t: State, a: SessionId, b: SessionId)
    requires Inv(t) && a in t.sessions && b in t.sessions && t.sessions[a].family == t.sessions[b].family
    ensures
      var x, y := t.sessions[a], t.sessions[b];
      && x.user == y.user
      && (x.generation == y.generation ==> a == b)
      && (x.generation < y.generation ==>
            && x.revokedAt.Some? && x.replacedBy.Some? && x.replacedBy.value in t.sessions
            && t.sessions[x.replacedBy.value].family == x.family
            && t.sessions[x.replacedBy.value].generation == x.generation + 1)
  {
    var x, y := t.sessions[a], t.sessions[b];
    assert Known(t, a) && Known(t, b);
    assert Placed(t, x.family, x.generation) && Placed(t, x.family, y.generation);
    if x.generation < y.generation {
      assert Placed(t, x.family, x.generation + 1);
    }
  }

  /** Every generation below a session's exists in its family. */
  lemma GenerationsHaveNoGaps(s: State, steps: seq<Step>, a: SessionId, g: nat)
    requires Init(s) && a in Run(s, steps).sessions && g <= Run(s, steps).sessions[a].generation
    ensures exists b ::
      && b in Run(s, steps).sessions && Run(s, steps).sessions[b].generation == g
      && Run(s, steps).sessions[b].family == Run(s, steps).sessions[a].family
  {
    RunKeepsInv(s, steps);
    var t := Run(s, steps);
    assert Known(t, a);
    assert Placed(t, t.sessions[a].family, g);
  }

  /** At most one session of a family is active, and it is the newest. */
  lemma OnlyTheNewestIsActive(s: State, steps: seq<Step>, a: SessionId, b: SessionId, now: nat)
    requires Init(s) && a in Run(s, steps).sessions && b in Run(s, steps).sessions
    requires Run(s, steps).sessions[a].family == Run(s, steps).sessions[b].family
    requires IsActive(Run(s, steps).sessions[a], now) && a != b
    ensures !IsActive(Run(s, steps).sessions[b], now)
    ensures Run(s, steps).sessions[b].generation < Run(s, steps).sessions[a].generation
  {
    RunKeepsInv(s, steps);
    ChainFacts(Run(s, steps), a, b);
    ChainFacts(Run(s, steps), b, a);
  }

  /** Rotation succeeds exactly when the token's session is active and its user live and active; it
      then leaves the new session as the only one of the family that is active. */
  lemma RotationSucceedsIffActive(s: State, step: Step)
    requires Inv(s) && step.Rotate? && Fresh(s, step.id, step.newToken) && step.ttl > 0
    ensures RotateReply(s, step).Rotated? <==>
      && Found(s, step.token).Some?
      && var x := s.sessions[Found(s, step.token).value];
         IsActive(x, step.now) && UserIsLive(s.users, x.user) && s.users[x.user].isActive
    ensures RotateReply(s, step).Rotated? ==>
      var x, t := s.sessions[Found(s, step.token).value], Apply(s, step);
      && step.id in t.sessions && IsActive(t.sessions[step.id], step.now)
      && t.sessions[step.id].family == x.family && t.sessions[step.id].generation == x.generation + 1
      && Found(t, step.newToken) == Some(step.id)
      && forall b :: b in t.sessions && t.sessions[b].family == x.family && b != step.id ==>
           !IsActive(t.sessions[b], step.now)
  {
    if RotateReply(s, step).Rotated? {
      var t := Apply(s, step);
      ApplyKeepsInv(s, step);
      forall b | b in t.sessions && t.sessions[b].family == t.sessions[step.id].family && b != step.id
        ensures !IsActive(t.sessions[b], step.now)
      {
        ChainFacts(t, b, step.id);
        ChainFacts(t, step.id, b);
      }
      hide Inv;
    }
  }

  /** Every session of the family is revoked. */
  ghost predicate FamilyIsDead(s: State, f: Family) {
    f in s.chains && forall id :: id in s.sessions && s.sessions[id].family == f ==> s.sessions[id].revokedAt.Some?
  }

  lemma ApplyKeepsDead(s: State, step: Step, f: Family)
    requires Inv(s) && FamilyIsDead(s, f)
    ensures FamilyIsDead(Apply(s, step), f)
  {
    hide Inv;
  }

  lemma {:induction false} DeadStaysDead(s: State, steps: seq<Step>, f: Family)
    requires Inv(s) && FamilyIsDead(s, f)
    ensures FamilyIsDead(Run(s, steps), f)
    decreases |steps|
  {
    if steps != [] {
      hide Inv, Apply, FamilyIsDead;
      ApplyKeepsInv(s, steps[0]);
      ApplyKeepsDead(s, steps[0], f);
      DeadStaysDead(Apply(s, steps[0]), steps[1..], f);
    }
  }

  /** With calls that do not overlap: once a rotation has seen a token that was already used, no session
      of that family is ever active again and no rotation in it ever succeeds, whatever follows. */
  lemma ReuseKillsTheFamily(s: State, replayed: Step, steps: seq<Step>, f: Family)
    requires Inv(s) && replayed.Rotate? && RotateReply(s, replayed) == Reuse
    requires Found(s, replayed.token).Some? && f == s.sessions[Found(s, replayed.token).value].family
    ensures
      var t := Run(Apply(s, replayed), steps);
      && (forall id, now: nat :: id in t.sessions && t.sessions[id].family == f ==> !IsActive(t.sessions[id], now))
      && (forall step: Step ::
            step.Rotate? && Found(t, step.token).Some? && t.sessions[Found(t, step.token).value].family == f ==>
              !RotateReply(t, step).Rotated?)
  {
    var u := Apply(s, replayed);
    assert Known(s, Found(s, replayed.token).value);
    assert FamilyIsDead(u, f);
    ApplyKeepsInv(s, replayed);
    DeadStaysDead(u, steps, f);
    hide Inv, Apply, Run;
  }

  lemma ApplyKeepsRevoked(s: State, step: Step, id: SessionId)
    requires Inv(s) && id in s.sessions && s.sessions[id].revokedAt.Some?
    ensures id in Apply(s, step).sessions
    ensures Apply(s, step).sessions[id].revokedAt.Some?
      && Apply(s, step).sessions[id].expiresAt == s.sessions[id].expiresAt
    ensures Apply(s, step).sessions[id].token == s.sessions[id].token
  {
    hide Inv;
  }

  /** A token that has been rotated or revoked never rotates again, and presenting it while it is
      neither expired nor deleted is always recognised as a replay. */
  lemma {:induction false} UsedTokenIsAlwaysRecognised(s: State, steps: seq<Step>, id: SessionId, again: Step)
    requires Inv(s) && id in s.sessions && s.sessions[id].revokedAt.Some?
    requires again.Rotate? && again.token == s.sessions[id].token
    ensures id in Run(s, steps).sessions
    ensures RotateReply(Run(s, steps), again) ==
      if Run(s, steps).sessions[id].deletedAt.None? && s.sessions[id].expiresAt > again.now then Reuse else InvalidToken
    decreases |steps|
  {
    if steps == [] {
      assert Known(s, id);
    } else {
      hide Inv, Apply, RotateReply;
      ApplyKeepsInv(s, steps[0]);
      ApplyKeepsRevoked(s, steps[0], id);
      UsedTokenIsAlwaysRecognised(Apply(s, steps[0]), steps[1..], id, again);
    }
  }

  // ----- The table and the service functions -----

  class SessionTable {
    var users: map<UserId, User>
    var sessions: map<SessionId, Session>
    var byHash: map<Token, SessionId>
    ghost var chains: map<Family, seq<SessionId>>

    ghost function Abs(): State
      reads this
    {
      State(users, sessions, byHash, chains)
    }

    constructor (users: map<UserId, User>)
      ensures Init(Abs())
    {
      this.users := users;
      sessions, byHash, chains := map[], map[], map[];
    }

    method GetSessionByRefreshHash(token: Token) returns (found: Option<SessionId>)
      ensures found == Found(Abs(), token)
    {
      if token in byHash && byHash[token] in sessions {
        found := Some(byHash[token]);
      } else {
        found := None;
      }
    }

    method MarkSessionFamilyCompromised(family: Family, at: nat)
      modifies this`sessions
      ensures sessions == Compromised(old(sessions), family, at)
      ensures sessions.Keys == old(sessions).Keys
      ensures forall id :: id in sessions ==>
        sessions[id] == if old(sessions)[id].family == family
                        then old(sessions)[id].(revokedAt := Some(at), compromisedAt := Some(at))
                        else old(sessions)[id]
    {
      sessions := map id | id in sessions ::
        if sessions[id].family == family then sessions[id].(revokedAt := Some(at), compromisedAt := Some(at))
        else sessions[id];
    }

    /** The insert of `create_refresh_session_record`, in the caller's transaction. */
    method CreateRefreshSessionRecord(id: SessionId, user: UserId, token: Token, expiresAt: nat, family: Family,
                                      generation: nat)
      requires Fresh(Abs(), id, token)
      modifies this
      ensures Abs() == WithSession(old(Abs()), id, Created(user, token, expiresAt, family, generation))
      ensures users == old(users) && byHash == old(byHash)[token := id]
      ensures sessions ==
        old(sessions)[id := Session(user, token, expiresAt, family, generation, None, None, None, None, None)]
    {
      var session := Session(user, token, expiresAt, family, generation, None, None, None, None, None);
      sessions := sessions[id := session];
      byHash := byHash[token := id];
      chains := chains[family := (if family in chains then chains[family] else []) + [id]];
    }

    method RotateRefreshSession(token: Token, now: nat, id: SessionId, newToken: Token, ttl: nat) returns (reply: Reply)
      modifies this
      ensures Abs() == Apply(old(Abs()), Rotate(token, now, id, newToken, ttl))
      ensures reply == RotateReply(old(Abs()), Rotate(token, now, id, newToken, ttl))
    {
      var found := GetSessionByRefreshHash(token);
      if found.None? || sessions[found.value].deletedAt.Some? || sessions[found.value].expiresAt <= now {
        return InvalidToken;
      }
      var existing := sessions[found.value];
      if existing.revokedAt.Some? || existing.replacedBy.Some? {
        MarkSessionFamilyCompromised(existing.family, now);
        return Reuse;
      }
      if existing.user !in users || users[existing.user].deletedAt.Some? {
        return InvalidToken;
      }
      if !users[existing.user].isActive {
        return InactiveUser;
      }
      if id in sessions || newToken in byHash {
        return Collision;
      }
      CreateRefreshSessionRecord(id, existing.user, newToken, now + ttl, existing.family, existing.generation + 1);
      sessions := sessions[found.value := existing.(lastUsedAt := Some(now), revokedAt := Some(now),
                                                    replacedBy := Some(id))];
      assert sessions == old(sessions)[found.value := sessions[found.value]][id := sessions[id]];
      return Rotated(id);
    }

    method RefreshSessionIsActive(id: SessionId, now: nat) returns (active: bool)
      ensures active <==> id in sessions && IsActive(sessions[id], now)
      ensures active <==>
        id in sessions && sessions[id].deletedAt.None? && sessions[id].revokedAt.None?
        && sessions[id].expiresAt > now && sessions[id].replacedBy.None?
    {
      if id !in sessions || sessions[id].deletedAt.Some? || sessions[id].revokedAt.Some? {
        return false;
      }
      return sessions[id].expiresAt > now && sessions[id].replacedBy.None?;
    }

    method RevokeRefreshSession(token: Token, now: nat)
      modifies this
      ensures Abs() == Apply(old(Abs()), RevokeToken(token, now))
    {
      sessions := map id | id in sessions ::
        if sessions[id].token == token then sessions[id].(revokedAt := Some(now)) else sessions[id];
    }

    method RevokeAuthSession(id: SessionId, now: nat)
      requires id in sessions
      modifies this
      ensures Abs() == Apply(old(Abs()), RevokeSession(id, now))
    {
      sessions := sessions[id := sessions[id].(revokedAt := Some(now))];
    }
  }
}
