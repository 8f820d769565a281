/** Ingest of GitHub deliveries, `ingest_github_webhook` in app/services/github_webhook.py: one raw
    event per delivery id, and one consumer of it per workspace that tracks the repository. */
module GithubEvents {
  import opened Options

  type DeliveryId = string
  type RawId = nat
  type Workspace = nat

  datatype ProcessingState = Pending | Enqueued | Processed | Failed

  datatype RepoKey = RepoKey(workspace: Workspace, fullName: string)
  datatype Repo = Repo(id: nat, user: nat, isTracked: bool)
  datatype RawEvent = RawEvent(id: RawId, eventName: string, repoFullName: string, body: string)

  /** The unique key of a consumer. */
  datatype ConsumerKey = ConsumerKey(workspace: Workspace, rawEvent: RawId)
  datatype Consumer = Consumer(repo: nat, user: nat, state: ProcessingState, publishAttempts: nat,
                               publishError: Option<string>)

  datatype State = State(repos: map<RepoKey, Repo>, rawEvents: map<DeliveryId, RawEvent>,
                         consumers: map<ConsumerKey, Consumer>)

  datatype Result = Result(duplicate: bool, consumerCount: nat, rawEvent: RawId)

  /** Besides deliveries, repositories come and go and consumers are worked on. */
  datatype Step =
    | Ingest(delivery: DeliveryId, event: RawEvent)
    | SetRepo(key: RepoKey, repo: Repo)
    | WorkOn(consumer: ConsumerKey, row: Consumer)

  function Tracking(repos: map<RepoKey, Repo>, fullName: string): set<Workspace> {
    set key | key in repos && key.fullName == fullName && repos[key].isTracked :: key.workspace
  }

  function NewConsumers(repos: map<RepoKey, Repo>, event: RawEvent): map<ConsumerKey, Consumer> {
    map workspace | workspace in Tracking(repos, event.repoFullName) ::
      ConsumerKey(workspace, event.id) :=
      var repo := repos[RepoKey(workspace, event.repoFullName)];
      Consumer(repo.id, repo.user, Pending, 0, None)
  }

  function ConsumersOf(consumers: map<ConsumerKey, Consumer>, raw: RawId): set<ConsumerKey> {
    set key | key in consumers && key.rawEvent == raw
  }

  predicate IsRawId(rawEvents: map<DeliveryId, RawEvent>, raw: RawId) {
    exists d :: d in rawEvents && rawEvents[d].id == raw
  }

  function Apply(s: State, step: Step): State {
    match step
    case Ingest(delivery, event) =>
      if delivery in s.rawEvents || IsRawId(s.rawEvents, event.id) then s
      else
        s.(rawEvents := s.rawEvents[delivery := event],
           consumers := NewConsumers(s.repos, event) + s.consumers)
    case SetRepo(key, repo) => s.(repos := s.repos[key := repo])
    case WorkOn(key, row) => if key in s.consumers then s.(consumers := s.consumers[key := row]) else s
  }

  function Run(s: State, steps: seq<Step>): State
    decreases |steps|
  {
    if steps == [] then s else Run(Apply(s, steps[0]), steps[1..])
  }

  /** The reply to a delivery; the fresh id of a new raw event does not collide. */
  function Reply(s: State, delivery: DeliveryId, event: RawEvent): Result {
    if delivery in s.rawEvents then
      Result(true, |ConsumersOf(s.consumers, s.rawEvents[delivery].id)|, s.rawEvents[delivery].id)
    else
      Result(false, |Tracking(s.repos, event.repoFullName)|, event.id)
  }

  ghost predicate Init(s: State) {
    s.rawEvents == map[] && s.consumers == map[]
  }

  ghost predicate Inv(s: State) {
    && (forall key :: key in s.consumers ==> IsRawId(s.rawEvents, key.rawEvent))
    && (forall d, e :: d in s.rawEvents && e in s.rawEvents && s.rawEvents[d].id == s.rawEvents[e].id ==> d == e)
  }

  lemma ApplyKeepsInv(s: State, step: Step)
    requires Inv(s)
    ensures Inv(Apply(s, step))
  {
    var t := Apply(s, step);
    forall key | key in t.consumers
      ensures IsRawId(t.rawEvents, key.rawEvent)
    {
      if key in s.consumers {
        var d :| d in s.rawEvents && s.rawEvents[d].id == key.rawEvent;
        assert d in t.rawEvents && t.rawEvents[d].id == key.rawEvent;
      } else {
        assert step.Ingest? && step.delivery in t.rawEvents;
      }
    }
  }

  lemma {:induction false} RunKeepsInv(s: State, steps: seq<Step>)
    requires Inv(s)
    ensures Inv(Run(s, steps))
    decreases |steps|
  {
    if steps != [] {
      ApplyKeepsInv(s, steps[0]);
      RunKeepsInv(Apply(s, steps[0]), steps[1..]);
    }
  }

  lemma {:induction false} SameSize(workspaces: set<Workspace>, raw: RawId, keys: set<ConsumerKey>)
    requires forall key :: key in keys <==> key.rawEvent == raw && key.workspace in workspaces
    ensures |keys| == |workspaces|
  {
    if workspaces == {} {
      assert keys == {};
    } else {
      var w :| w in workspaces;
      SameSize(workspaces - {w}, raw, keys - {ConsumerKey(w, raw)});
      assert ConsumerKey(w, raw) in keys;
    }
  }

  /** The first delivery creates exactly one pending consumer for each workspace that tracks the
      repository then, with that workspace's repository and its user, touches no other consumer, and
      reports their number. */
  lemma FirstDeliveryCreatesTheConsumers(s: State, delivery: DeliveryId, event: RawEvent)
    requires Inv(s) && delivery !in s.rawEvents && !IsRawId(s.rawEvents, event.id)
    ensures
      var t := Apply(s, Ingest(delivery, event));
      && delivery in t.rawEvents && t.rawEvents[delivery] == event
      && (forall w :: ConsumerKey(w, event.id) in t.consumers <==> w in Tracking(s.repos, event.repoFullName))
      && (forall w :: ConsumerKey(w, event.id) in t.consumers ==>
            && RepoKey(w, event.repoFullName) in s.repos
            && var repo := s.repos[RepoKey(w, event.repoFullName)];
               t.consumers[ConsumerKey(w, event.id)] == Consumer(repo.id, repo.user, Pending, 0, None))
      && (forall key :: key in s.consumers ==> key in t.consumers && t.consumers[key] == s.consumers[key])
      && Reply(s, delivery, event).consumerCount == |ConsumersOf(t.consumers, event.id)|
  {
    var t := Apply(s, Ingest(delivery, event));
    var tracking := Tracking(s.repos, event.repoFullName);
    forall key | key in s.consumers
      ensures key.rawEvent != event.id
    {
      assert IsRawId(s.rawEvents, key.rawEvent);
    }
    forall w
      ensures ConsumerKey(w, event.id) in t.consumers <==> w in tracking
    {
      assert ConsumerKey(w, event.id) !in s.consumers;
      assert ConsumerKey(w, event.id) in NewConsumers(s.repos, event) <==> w in tracking;
    }
    SameSize(tracking, event.id, ConsumersOf(t.consumers, event.id));
  }

  lemma ApplyKeepsConsumers(s: State, step: Step, delivery: DeliveryId)
    requires Inv(s) && delivery in s.rawEvents
    ensures delivery in Apply(s, step).rawEvents && Apply(s, step).rawEvents[delivery] == s.rawEvents[delivery]
    ensures ConsumersOf(Apply(s, step).consumers, s.rawEvents[delivery].id) ==
      ConsumersOf(s.consumers, s.rawEvents[delivery].id)
  {
    assert IsRawId(s.rawEvents, s.rawEvents[delivery].id);
  }

  /** Redelivery never adds a consumer: whatever happens in between - other deliveries, workspaces
      that start or stop tracking, work on the consumers - the raw event and the set of its consumers
      stay as the first receipt made them, and every redelivery, with any body, reports the first raw
      event and the first count. */
  lemma {:induction false} ConsumersAreFixedAtFirstReceipt(s: State, steps: seq<Step>, delivery: DeliveryId,
                                                           again: RawEvent)
    requires Inv(s) && delivery in s.rawEvents
    ensures
      var t, raw := Run(s, steps), s.rawEvents[delivery].id;
      && delivery in t.rawEvents && t.rawEvents[delivery] == s.rawEvents[delivery]
      && ConsumersOf(t.consumers, raw) == ConsumersOf(s.consumers, raw)
      && Reply(t, delivery, again) == Result(true, |ConsumersOf(s.consumers, raw)|, raw)
      && Apply(t, Ingest(delivery, again)) == t
    decreases |steps|
  {
    if steps != [] {
      ApplyKeepsInv(s, steps[0]);
      ApplyKeepsConsumers(s, steps[0], delivery);
      ConsumersAreFixedAtFirstReceipt(Apply(s, steps[0]), steps[1..], delivery, again);
    }
  }

  class EventTables {
    var repos: map<RepoKey, Repo>
    var rawEvents: map<DeliveryId, RawEvent>
    var consumers: map<ConsumerKey, Consumer>

    function Abs(): State
      reads this
    {
      State(repos, rawEvents, consumers)
    }

    constructor (repos: map<RepoKey, Repo>)
      ensures Init(Abs()) && this.repos == repos
    {
      this.repos := repos;
      rawEvents, consumers := map[], map[];
    }

    method IngestGithubWebhook(delivery: DeliveryId, event: RawEvent) returns (result: Result)
      requires !IsRawId(rawEvents, event.id)
      modifies this
      ensures Abs() == Apply(old(Abs()), Ingest(delivery, event))
      ensures result == Reply(old(Abs()), delivery, event)
    {
      if delivery in rawEvents {
        var existing := rawEvents[delivery].id;
        return Result(true, |ConsumersOf(consumers, existing)|, existing);
      }
      rawEvents := rawEvents[delivery := event];
      var tracked := Tracking(repos, event.repoFullName);
      var rows := NewConsumers(repos, event);
      // The insert does nothing where the unique key is taken.
      consumers := rows + consumers;
      return Result(false, |tracked|, event.id);
    }
  }
}
