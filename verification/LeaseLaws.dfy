/** What each call on a detection run does, said of the rows and replies alone. */
module LeaseLaws {
  import opened Options
  import opened DetectionLease

  predicate IsMine(s: State, token: Token) {
    && token in s.workers && s.workers[token].run in s.rows
    && s.rows[s.workers[token].run].owner == Some(token)
  }

  /** A claim takes a pending run, or a running one whose lease has ended or is missing, for the whole
      duration, and writes the cutoff if there is none; an ended run only loses a lease that was left;
      every other claim changes no row. */
  lemma ClaimLaw(s: State, token: Token, run: RunId, workspace: nat, product: nat, now: nat)
    requires token !in s.used
    ensures
      var t, reply := Apply(s, Claim(token, run, workspace, product, now)),
          ClaimReply(s.rows, run, workspace, product, now);
      var drawn := s.(used := s.used + {token});
      if run !in s.rows || !s.rows[run].isDetection then reply == NotFound && t == drawn
      else
        var row := s.rows[run];
        if row.workspace != workspace || row.product != product then reply == TenantMismatch && t == drawn
        else if row.status in {Completed, Stopped, Failed} then
          && reply == Ended(row.status)
          && t == drawn.(rows := s.rows[run := row.(owner := None, expiresAt := None)])
        else if row.status == Running && row.expiresAt.Some? && row.expiresAt.value > now then reply == Busy
            && t == drawn
        else
          var asOf := if row.asOf.Some? then row.asOf.value else now;
          && reply == Claimed(asOf)
          && t == drawn.(rows := s.rows[run := row.(status := Running, owner := Some(token),
                                                    expiresAt := Some(now + s.duration), asOf := Some(asOf),
                                                    failure := false)],
                         workers := s.workers[token := Worker(run, asOf)])
  {
  }

  /** A renewal moves the end of the lease of a run that the worker still owns and that is running. */
  lemma RenewLaw(s: State, token: Token, now: nat)
    ensures Apply(s, Renew(token, now)) ==
      if IsMine(s, token) && s.rows[s.workers[token].run].status == Running
      then
        var run := s.workers[token].run;
        s.(rows := s.rows[run := s.rows[run].(expiresAt := Some(now + s.duration))])
      else s
  {
  }

  /** Completing, stopping and giving back end the lease of a run that the worker still owns; giving back
      leaves a completed one alone. */
  lemma EndLaw(s: State, token: Token)
    requires token in s.workers
    ensures
      var run, gone := s.workers[token].run, s.(workers := s.workers - {token});
      && Apply(s, Complete(token)) ==
           (if IsMine(s, token)
            then gone.(rows := s.rows[run := s.rows[run].(status := Completed, owner := None, expiresAt := None)])
            else s)
      && Apply(s, Stop(token)) ==
           (if IsMine(s, token)
            then gone.(rows := s.rows[run := s.rows[run].(status := Stopped, owner := None, expiresAt := None)])
            else gone)
      && Apply(s, GiveBack(token)) ==
           (if IsMine(s, token) && s.rows[run].status != Completed
            then gone.(rows := s.rows[run := s.rows[run].(status := Pending, owner := None, expiresAt := None,
                                                          failure := true)])
            else gone)
  {
  }

  /** A run that was claimed and given back can be claimed again at once, by anyone, with its cutoff. */
  lemma GivenBackCanBeClaimed(s: State, token: Token, other: Token, now: nat)
    requires Inv(s) && IsMine(s, token) && other !in s.used
    requires s.rows[s.workers[token].run].isDetection && s.rows[s.workers[token].run].status == Running
    ensures
      var run, row := s.workers[token].run, s.rows[s.workers[token].run];
      var t := Apply(Apply(s, GiveBack(token)), Claim(other, run, row.workspace, row.product, now));
      && run in t.rows && t.rows[run].owner == Some(other) && t.rows[run].expiresAt == Some(now + s.duration)
      && t.rows[run].asOf == row.asOf && other in t.workers && Some(t.workers[other].asOf) == row.asOf
  {
    assert WorkerInv(s, token);
    var run, row := s.workers[token].run, s.rows[s.workers[token].run];
    EndLaw(s, token);
    ClaimLaw(Apply(s, GiveBack(token)), other, run, row.workspace, row.product, now);
    hide Inv, Apply;
  }
}
