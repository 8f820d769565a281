/** What each call on sessions does, said of the rows and replies alone, and that a revoked session
    never comes back. */
module SessionLaws {
  import opened Options
  import opened Sessions

  /** A token finds the one session that holds it. */
  lemma FoundLaw(s: State, token: Token, id: SessionId)
    requires Inv(s)
    ensures Found(s, token) == Some(id) <==> id in s.sessions && s.sessions[id].token == token
  {
    if id in s.sessions { assert Known(s, id); }
  }

  lemma ActiveLaw(x: Session, now: nat)
    ensures IsActive(x, now) <==>
      x.deletedAt.None? && x.revokedAt.None? && x.replacedBy.None? && now < x.expiresAt
  {
  }

  lemma LoginLaw(s: State, id: SessionId, user: UserId, token: Token, family: Family, now: nat, ttl: nat)
    ensures
      var t := Apply(s, Login(id, user, token, family, now, ttl));
      if id !in s.sessions && token !in s.byHash && family !in s.chains
      then
        && t.sessions == s.sessions[id := Session(user, token, now + ttl, family, 0, None, None, None, None, None)]
        && t.byHash == s.byHash[token := id] && t.users == s.users
      else t == s
  {
  }

  /** Every reply of a rotation and what it leaves: a good token is replaced by a session of the next
      generation; a used one marks its family; any other changes nothing. */
  lemma RotateLaw(s: State, token: Token, now: nat, id: SessionId, newToken: Token, ttl: nat)
    requires Inv(s)
    ensures
      var step := Rotate(token, now, id, newToken, ttl);
      var t, reply := Apply(s, step), RotateReply(s, step);
      if !(exists x :: x in s.sessions && s.sessions[x].token == token && s.sessions[x].deletedAt.None?
             && s.sessions[x].expiresAt > now)
      then reply == InvalidToken && t == s
      else
        exists x :: x in s.sessions && s.sessions[x].token == token && RotatesTo(s, step, x, t, reply)
  {
    var step := Rotate(token, now, id, newToken, ttl);
    forall x
      ensures Found(s, token) == Some(x) <==> x in s.sessions && s.sessions[x].token == token
    {
      FoundLaw(s, token, x);
    }
    hide Inv;
    if Found(s, token).Some? {
      var x := Found(s, token).value;
      assert s.sessions[x].deletedAt.None? && s.sessions[x].expiresAt > now ==>
        RotatesTo(s, step, x, Apply(s, step), RotateReply(s, step));
    }
  }

  predicate RotatesTo(s: State, step: Step, x: SessionId, t: State, reply: Reply)
    requires step.Rotate? && x in s.sessions
  {
    var row := s.sessions[x];
    if row.revokedAt.Some? || row.replacedBy.Some? then
      && reply == Reuse && t.users == s.users && t.byHash == s.byHash && t.sessions.Keys == s.sessions.Keys
      && forall y :: y in s.sessions ==>
           t.sessions[y] == if s.sessions[y].family == row.family
                            then s.sessions[y].(revokedAt := Some(step.now), compromisedAt := Some(step.now))
                            else s.sessions[y]
    else if row.user !in s.users || s.users[row.user].deletedAt.Some? then reply == InvalidToken && t == s
    else if !s.users[row.user].isActive then reply == InactiveUser && t == s
    else if step.id in s.sessions || step.newToken in s.byHash then reply == Collision && t == s
    else
      && reply == Rotated(step.id) && t.users == s.users && t.byHash == s.byHash[step.newToken := step.id]
      && t.sessions ==
           s.sessions[x := row.(lastUsedAt := Some(step.now), revokedAt := Some(step.now), replacedBy := Some(step.id))]
             [step.id := Session(row.user, step.newToken, step.now + step.ttl, row.family, row.generation + 1,
                                 None, None, None, None, None)]
  }

  // ----- Revocation -----

  /** A logout by token revokes the session of the token and changes no other row. */
  lemma RevokeTokenLaw(s: State, token: Token, now: nat)
    requires Inv(s)
    ensures
      var t := Apply(s, RevokeToken(token, now));
      && t.users == s.users && t.byHash == s.byHash && t.sessions.Keys == s.sessions.Keys
      && forall id :: id in s.sessions ==>
           t.sessions[id] ==
             if s.sessions[id].token == token then s.sessions[id].(revokedAt := Some(now)) else s.sessions[id]
  {
    hide Inv;
  }

  lemma RevokeSessionLaw(s: State, id: SessionId, now: nat)
    ensures Apply(s, RevokeSession(id, now)) ==
      if id in s.sessions then s.(sessions := s.sessions[id := s.sessions[id].(revokedAt := Some(now))]) else s
  {
  }

  /** Deleting an account revokes every session of the user that is not revoked yet, and no other. */
  lemma DeleteAccountLaw(s: State, user: UserId, now: nat)
    ensures
      var t := Apply(s, DeleteAccount(user, now));
      && t.byHash == s.byHash && t.sessions.Keys == s.sessions.Keys
      && t.users == (if user in s.users then s.users[user := s.users[user].(deletedAt := Some(now))] else s.users)
      && forall id :: id in s.sessions ==>
           t.sessions[id] ==
             if s.sessions[id].user == user && s.sessions[id].revokedAt.None?
             then s.sessions[id].(revokedAt := Some(now)) else s.sessions[id]
  {
  }

  /** In the state the session is active at no time, and its token is answered Rotated at no time. */
  ghost predicate IsOver(t: State, id: SessionId, token: Token) {
    && id in t.sessions
    && t.sessions[id].revokedAt.Some? && (forall now: nat :: !IsActive(t.sessions[id], now))
    && (forall step: Step :: step.Rotate? && step.token == token ==> !RotateReply(t, step).Rotated?)
  }

  lemma {:induction false} RevokedStaysRevoked(s: State, steps: seq<Step>, id: SessionId)
    requires Inv(s) && id in s.sessions && s.sessions[id].revokedAt.Some?
    ensures
      var t := Run(s, steps);
      && Inv(t) && id in t.sessions && t.sessions[id].revokedAt.Some? && t.sessions[id].token == s.sessions[id].token
    decreases |steps|
  {
    if steps != [] {
      hide Inv, Apply;
      ApplyKeepsInv(s, steps[0]);
      ApplyKeepsRevoked(s, steps[0], id);
      RevokedStaysRevoked(Apply(s, steps[0]), steps[1..], id);
    }
  }

  lemma RevokedIsOver(s: State, steps: seq<Step>, id: SessionId)
    requires Inv(s) && id in s.sessions && s.sessions[id].revokedAt.Some?
    ensures IsOver(Run(s, steps), id, s.sessions[id].token)
  {
    RevokedStaysRevoked(s, steps, id);
    var t := Run(s, steps);
    FoundLaw(t, s.sessions[id].token, id);
    hide Inv, Run;
  }

  /** After a logout by token the session is active at no time of any later run, and presenting the token
      never rotates. */
  lemma LogoutEndsTheSession(s: State, token: Token, now: nat, steps: seq<Step>, id: SessionId)
    requires Inv(s) && id in s.sessions && s.sessions[id].token == token
    ensures IsOver(Run(Apply(s, RevokeToken(token, now)), steps), id, token)
  {
    hide Inv, Run, Apply, IsOver;
    RevokeTokenLaw(s, token, now);
    ApplyKeepsInv(s, RevokeToken(token, now));
    RevokedIsOver(Apply(s, RevokeToken(token, now)), steps, id);
  }

  /** The same for a session that is revoked by its id. */
  lemma RevocationEndsTheSession(s: State, id: SessionId, now: nat, steps: seq<Step>)
    requires Inv(s) && id in s.sessions
    ensures IsOver(Run(Apply(s, RevokeSession(id, now)), steps), id, s.sessions[id].token)
  {
    hide Inv, Run, Apply, IsOver;
    RevokeSessionLaw(s, id, now);
    ApplyKeepsInv(s, RevokeSession(id, now));
    RevokedIsOver(Apply(s, RevokeSession(id, now)), steps, id);
  }

  /** And for every session of a user whose account is deleted. */
  lemma DeletionEndsTheSessions(s: State, user: UserId, now: nat, steps: seq<Step>, id: SessionId)
    requires Inv(s) && id in s.sessions && s.sessions[id].user == user
    ensures IsOver(Run(Apply(s, DeleteAccount(user, now)), steps), id, s.sessions[id].token)
  {
    hide Inv, Run, Apply, IsOver;
    var t := Apply(s, DeleteAccount(user, now));
    DeleteAccountLaw(s, user, now);
    ApplyKeepsInv(s, DeleteAccount(user, now));
    TokenStays(s, t, user, now, id);
    RevokedIsOver(t, steps, id);
  }

  lemma TokenStays(s: State, t: State, user: UserId, now: nat, id: SessionId)
    requires t == Apply(s, DeleteAccount(user, now)) && id in s.sessions
    ensures id in t.sessions && t.sessions[id].token == s.sessions[id].token
  {
  }
}
