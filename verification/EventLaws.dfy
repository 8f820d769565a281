/** What the ingest of a delivery and the claims of its consumers do, said of the rows and replies
    alone. */
module EventLaws {
  import opened Options
  import GithubEvents
  import opened Publisher

  type Key = GithubEvents.ConsumerKey

  predicate IsTracked(s: GithubEvents.State, workspace: nat, fullName: string) {
    var key := GithubEvents.RepoKey(workspace, fullName);
    key in s.repos && s.repos[key].isTracked
  }

  ghost predicate HadOrGets(s: GithubEvents.State, event: GithubEvents.RawEvent, w: nat, raw: nat) {
    || GithubEvents.ConsumerKey(w, raw) in s.consumers
    || (raw == event.id && IsTracked(s, w, event.repoFullName))
  }

  /** A known delivery changes nothing and answers with its raw event and the number of its consumers. A
      new one is stored, with one pending consumer of it for each workspace that tracks the repository,
      and answers with their number. */
  lemma IngestLaw(s: GithubEvents.State, delivery: string, event: GithubEvents.RawEvent)
    requires GithubEvents.Inv(s) && !GithubEvents.IsRawId(s.rawEvents, event.id)
    ensures
      var t := GithubEvents.Apply(s, GithubEvents.Ingest(delivery, event));
      var reply := GithubEvents.Reply(s, delivery, event);
      var id := if delivery in s.rawEvents then s.rawEvents[delivery].id else event.id;
      && reply.duplicate == (delivery in s.rawEvents) && reply.rawEvent == id
      && reply.consumerCount == |set key | key in t.consumers && key.rawEvent == id|
      && (if delivery in s.rawEvents then t == s
          else
            && t.rawEvents == s.rawEvents[delivery := event] && t.repos == s.repos
            && (forall w, raw :: var key := GithubEvents.ConsumerKey(w, raw);
                  && (key in t.consumers <==> HadOrGets(s, event, w, raw))
                  && (key in s.consumers ==> key in t.consumers && t.consumers[key] == s.consumers[key])
                  && (key in t.consumers && key !in s.consumers ==>
                        var repo := s.repos[GithubEvents.RepoKey(w, event.repoFullName)];
                        t.consumers[key] == GithubEvents.Consumer(repo.id, repo.user, GithubEvents.Pending, 0, None))))
  {
    var t := GithubEvents.Apply(s, GithubEvents.Ingest(delivery, event));
    var id := if delivery in s.rawEvents then s.rawEvents[delivery].id else event.id;
    assert (set key | key in t.consumers && key.rawEvent == id) == GithubEvents.ConsumersOf(t.consumers, id);
    if delivery !in s.rawEvents {
      GithubEvents.FirstDeliveryCreatesTheConsumers(s, delivery, event);
      NewConsumersLaw(s, event);
      hide GithubEvents.NewConsumers, GithubEvents.Inv;
    }
  }

  lemma NewConsumersLaw(s: GithubEvents.State, event: GithubEvents.RawEvent)
    ensures forall w, raw :: var key := GithubEvents.ConsumerKey(w, raw);
      && (key in GithubEvents.NewConsumers(s.repos, event) <==> raw == event.id && IsTracked(s, w, event.repoFullName))
      && (key in GithubEvents.NewConsumers(s.repos, event) ==>
            var repo := s.repos[GithubEvents.RepoKey(w, event.repoFullName)];
            GithubEvents.NewConsumers(s.repos, event)[key]
              == GithubEvents.Consumer(repo.id, repo.user, GithubEvents.Pending, 0, None))
  {
    forall w, raw
      ensures var key := GithubEvents.ConsumerKey(w, raw);
        key in GithubEvents.NewConsumers(s.repos, event) <==> raw == event.id && IsTracked(s, w, event.repoFullName)
    {
      var key := GithubEvents.RepoKey(w, event.repoFullName);
      assert key in s.repos && s.repos[key].isTracked ==> w in GithubEvents.Tracking(s.repos, event.repoFullName);
    }
  }

  /** A call selects the pending and failed consumers, of one raw event or of all. */
  lemma SelectionLaw(consumers: map<Key, GithubEvents.Consumer>, raw: Option<nat>, key: Key)
    ensures key in Selected(consumers, raw) <==>
      && key in consumers && consumers[key].state in {GithubEvents.Pending, GithubEvents.Failed}
      && (raw == None || raw == Some(key.rawEvent))
  {
  }

  /** What becomes of a consumer that is claimed: one attempt more, and enqueued without an error, unless
      the publisher raised. */
  lemma AttemptLaw(consumers: map<Key, GithubEvents.Consumer>, key: Key, outcome: Outcome)
    requires key in consumers
    ensures
      var row := consumers[key];
      AfterCall(consumers, Call(key, outcome)) ==
        consumers[key :=
          if outcome == Refused
          then row.(state := GithubEvents.Failed, publishAttempts := row.publishAttempts + 1,
                    publishError := Some("transport"))
          else row.(state := GithubEvents.Enqueued, publishAttempts := row.publishAttempts + 1, publishError := None)]
  {
  }

  /** A call that returns leaves every pending or failed consumer that it selects enqueued, with one attempt
      more and no error, and every other consumer as it was. */
  lemma ReturningCallLaw(consumers: map<Key, GithubEvents.Consumer>, raw: Option<nat>, log: seq<Call>, key: Key)
    requires IsPublication(consumers, raw, log, false) && key in consumers
    ensures key in After(consumers, log)
    ensures
      var now, was := After(consumers, log)[key], consumers[key];
      if was.state in {GithubEvents.Pending, GithubEvents.Failed} && (raw == None || raw == Some(key.rawEvent))
      then now == was.(state := GithubEvents.Enqueued, publishAttempts := was.publishAttempts + 1, publishError := None)
      else now == was
  {
    hide After, Orderly;
    StopsAtTheFirstFailure(consumers, raw, log, false, key);
    SelectionLaw(consumers, raw, key);
  }
}
