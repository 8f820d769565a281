/** `publish_pending_consumers` of app/workflows/publisher.py: claim a consumer, publish it, and
    stop at the first one that fails. One caller at a time, which may die at any point. */
module Publisher {
  import opened Options
  import opened GithubEvents

  /** The publisher returned; or it raised, and the failure was recorded; or the process ended after
      the claim was committed and before either. */
  datatype Outcome = Sent | Refused | Lost

  /** One claim of a consumer, and what became of it. */
  datatype Call = Call(consumer: ConsumerKey, outcome: Outcome)

  predicate Open(c: Consumer) {
    c.state in {Pending, Failed}
  }

  predicate Matches(key: ConsumerKey, raw: Option<RawId>) {
    raw.None? || key.rawEvent == raw.value
  }

  /** The consumers that the call selects. */
  function Selected(consumers: map<ConsumerKey, Consumer>, raw: Option<RawId>): set<ConsumerKey> {
    set key | key in consumers && Open(consumers[key]) && Matches(key, raw)
  }

  function Attempted(c: Consumer, outcome: Outcome): Consumer {
    c.(state := if outcome == Refused then Failed else Enqueued, publishAttempts := c.publishAttempts + 1,
       publishError := if outcome == Refused then Some("transport") else None)
  }

  function AfterCall(consumers: map<ConsumerKey, Consumer>, call: Call): map<ConsumerKey, Consumer> {
    if call.consumer in consumers then consumers[call.consumer := Attempted(consumers[call.consumer], call.outcome)]
    else consumers
  }

  /** The consumers after the calls of a log, oldest first. */
  function After(consumers: map<ConsumerKey, Consumer>, log: seq<Call>): map<ConsumerKey, Consumer>
    decreases |log|
  {
    if log == [] then consumers else After(AfterCall(consumers, log[0]), log[1..])
  }

  /** Each consumer is open when it is published. */
  predicate Orderly(consumers: map<ConsumerKey, Consumer>, log: seq<Call>)
    decreases |log|
  {
    log == []
    || (log[0].consumer in consumers && Open(consumers[log[0].consumer])
        && Orderly(AfterCall(consumers, log[0]), log[1..]))
  }

  function Calls(log: seq<Call>, key: ConsumerKey): nat
    decreases |log|
  {
    if log == [] then 0 else (if log[0].consumer == key then 1 else 0) + Calls(log[1..], key)
  }

  function Count(log: seq<Call>, call: Call): nat
    decreases |log|
  {
    if log == [] then 0 else (if log[0] == call then 1 else 0) + Count(log[1..], call)
  }

  function Successes(log: seq<Call>, key: ConsumerKey): nat {
    Count(log, Call(key, Sent))
  }

  function Losses(log: seq<Call>, key: ConsumerKey): nat {
    Count(log, Call(key, Lost))
  }

  /** What one call of `publish_pending_consumers` may do; `raised` is that it did not return. */
  ghost predicate IsPublication(consumers: map<ConsumerKey, Consumer>, raw: Option<RawId>, log: seq<Call>,
                                raised: bool) {
    && Orderly(consumers, log)
    && (forall i :: 0 <= i < |log| ==> log[i].consumer in Selected(consumers, raw))
    && (forall i, j :: 0 <= i < j < |log| ==> log[i].consumer != log[j].consumer)
    // It stops at the first failure at the latest.
    && (forall i :: 0 <= i < |log| - 1 ==> log[i].outcome == Sent)
    && (log != [] && log[|log| - 1].outcome != Sent ==> raised)
    && (!raised ==> forall key :: key in Selected(consumers, raw) ==>
        exists i :: 0 <= i < |log| && log[i].consumer == key)
  }

  lemma {:induction false} AfterAppend(consumers: map<ConsumerKey, Consumer>, log: seq<Call>, more: seq<Call>)
    ensures After(consumers, log + more) == After(After(consumers, log), more)
    ensures Orderly(consumers, log + more) <==> Orderly(consumers, log) && Orderly(After(consumers, log), more)
    ensures forall key :: Calls(log + more, key) == Calls(log, key) + Calls(more, key)
    ensures forall call :: Count(log + more, call) == Count(log, call) + Count(more, call)
    decreases |log|
  {
    if log == [] {
      assert log + more == more;
    } else {
      AfterAppend(AfterCall(consumers, log[0]), log[1..], more);
      assert (log + more)[1..] == log[1..] + more;
    }
  }

  /** Halfway through a call: `rows` are still to come, and what came before succeeded. */
  ghost predicate Progress(start: map<ConsumerKey, Consumer>, raw: Option<RawId>, rows: set<ConsumerKey>,
                           log: seq<Call>) {
    && Orderly(start, log) && rows <= Selected(start, raw) && After(start, log).Keys == start.Keys
    && (forall i :: 0 <= i < |log| ==>
          log[i].outcome == Sent && log[i].consumer in Selected(start, raw) && log[i].consumer !in rows)
    && (forall i, j :: 0 <= i < j < |log| ==> log[i].consumer != log[j].consumer)
    && (forall key :: key in rows ==> After(start, log)[key] == start[key])
    && (forall key :: key in Selected(start, raw) && key !in rows ==>
        exists i :: 0 <= i < |log| && log[i].consumer == key)
  }

  lemma ProgressEnds(start: map<ConsumerKey, Consumer>, raw: Option<RawId>, log: seq<Call>)
    requires Progress(start, raw, {}, log)
    ensures IsPublication(start, raw, log, false)
  {
  }

  lemma ProgressStep(start: map<ConsumerKey, Consumer>, raw: Option<RawId>, rows: set<ConsumerKey>, log: seq<Call>,
                     key: ConsumerKey, outcome: Outcome)
    requires Progress(start, raw, rows, log) && key in rows
    ensures After(start, log + [Call(key, outcome)]) == After(start, log)[key := Attempted(start[key], outcome)]
    ensures outcome == Sent ==> Progress(start, raw, rows - {key}, log + [Call(key, outcome)])
    ensures outcome != Sent ==> IsPublication(start, raw, log + [Call(key, outcome)], true)
  {
    var longer, last := log + [Call(key, outcome)], [Call(key, outcome)];
    AfterAppend(start, log, last);
    var now := After(start, log);
    assert last[1..] == [] && After(AfterCall(now, last[0]), []) == AfterCall(now, last[0]);
    assert After(now, last) == AfterCall(now, last[0]);
    assert Orderly(now, last);
    hide After, Orderly;
    assert longer[|log|] == Call(key, outcome);
    forall k | k in Selected(start, raw) && k !in rows - {key}
      ensures exists i :: 0 <= i < |longer| && longer[i].consumer == k
    {
      if k != key {
        var i :| 0 <= i < |log| && log[i].consumer == k;
        assert longer[i].consumer == k;
      }
    }
  }

  class PublishingWorkflow {
    const tables: EventTables
    // The claims made, and what became of them.
    var calls: seq<Call>

    constructor (tables: EventTables)
      ensures this.tables == tables && calls == []
    {
      this.tables := tables;
      calls := [];
    }

    /** Publish what is pending or failed, for one raw event or for all, in any order. `outcomes`
        is what becomes of the n-th claim. The result is whether the call raised, or ended with the
        process. With one caller at a time every claim finds its row still pending or failed. */
    method PublishPendingConsumers(raw: Option<RawId>, outcomes: nat -> Outcome)
      returns (raised: bool, ghost log: seq<Call>)
      modifies this, tables`consumers
      ensures calls == old(calls) + log
      ensures tables.consumers == After(old(tables.consumers), log)
      ensures IsPublication(old(tables.consumers), raw, log, raised)
      ensures raised <==> log != [] && log[|log| - 1].outcome != Sent
    {
      hide After, Orderly, IsPublication;
      ghost var start, before := tables.consumers, calls;
      var rows := Selected(tables.consumers, raw);
      log := [];
      StartsInProgress(start, raw);
      while rows != {}
        invariant calls == before + log
        invariant tables.consumers == After(start, log)
        invariant Progress(start, raw, rows, log)
        invariant log != [] ==> log[|log| - 1].outcome == Sent
        decreases |rows|
      {
        var key :| key in rows;
        var row := tables.consumers[key];
        row := row.(state := Enqueued, publishAttempts := row.publishAttempts + 1, publishError := None);
        tables.consumers := tables.consumers[key := row];
        var outcome := outcomes(|calls|);
        calls := calls + [Call(key, outcome)];
        ProgressStep(start, raw, rows, log, key, outcome);
        log := log + [Call(key, outcome)];
        rows := rows - {key};
        if outcome == Refused {
          tables.consumers := tables.consumers[key := row.(state := Failed, publishError := Some("transport"))];
        }
        if outcome != Sent {
          return true, log;
        }
      }
      ProgressEnds(start, raw, log);
      return false, log;
    }
  }

  lemma StartsInProgress(consumers: map<ConsumerKey, Consumer>, raw: Option<RawId>)
    ensures Progress(consumers, raw, Selected(consumers, raw), []) && After(consumers, []) == consumers
  {
  }

  // ----- One call -----

  lemma {:induction false} UncalledIsUntouched(consumers: map<ConsumerKey, Consumer>, log: seq<Call>, key: ConsumerKey)
    requires key in consumers && Calls(log, key) == 0
    ensures key in After(consumers, log) && After(consumers, log)[key] == consumers[key]
    decreases |log|
  {
    if log != [] {
      UncalledIsUntouched(AfterCall(consumers, log[0]), log[1..], key);
    }
  }

  lemma {:induction false} CallsOfDistinct(log: seq<Call>, key: ConsumerKey, i: nat)
    requires i < |log| && log[i].consumer == key
    requires forall j, k :: 0 <= j < k < |log| ==> log[j].consumer != log[k].consumer
    ensures Calls(log[..i], key) == 0 && Calls(log[i + 1..], key) == 0
  {
    CallsOfAbsent(log[..i], key);
    CallsOfAbsent(log[i + 1..], key);
  }

  lemma {:induction false} CallsOfAbsent(log: seq<Call>, key: ConsumerKey)
    requires forall i :: 0 <= i < |log| ==> log[i].consumer != key
    ensures Calls(log, key) == 0
    decreases |log|
  {
    if log != [] { CallsOfAbsent(log[1..], key); }
  }

  /** If a call stops at a failing consumer, those before it are sent and enqueued, it is failed and
      the rest are untouched; each consumer it reached counts exactly one more attempt. If the process
      ends with a claimed consumer, that one is enqueued though nothing was sent. */
  lemma StopsAtTheFirstFailure(consumers: map<ConsumerKey, Consumer>, raw: Option<RawId>, log: seq<Call>,
                               raised: bool, key: ConsumerKey)
    requires IsPublication(consumers, raw, log, raised) && key in consumers
    ensures key in After(consumers, log)
    ensures
      var now, was := After(consumers, log)[key], consumers[key];
      if i :| 0 <= i < |log| && log[i].consumer == key
      then now == Attempted(was, log[i].outcome) && (i < |log| - 1 ==> log[i].outcome == Sent)
      else now == was
  {
    if i :| 0 <= i < |log| && log[i].consumer == key {
      ReachedOnce(consumers, log, key, i);
    } else {
      CallsOfAbsent(log, key);
      UncalledIsUntouched(consumers, log, key);
    }
  }

  lemma ReachedOnce(consumers: map<ConsumerKey, Consumer>, log: seq<Call>, key: ConsumerKey, i: nat)
    requires key in consumers && i < |log| && log[i].consumer == key
    requires forall j, k :: 0 <= j < k < |log| ==> log[j].consumer != log[k].consumer
    ensures key in After(consumers, log) && After(consumers, log)[key] == Attempted(consumers[key], log[i].outcome)
  {
    hide Orderly, Count;
    var before, tail := log[..i], log[i + 1..];
    CallsOfDistinct(log, key, i);
    UncalledIsUntouched(consumers, before, key);
    var middle := AfterCall(After(consumers, before), log[i]);
    assert log == before + ([log[i]] + tail);
    AfterAppend(consumers, before, [log[i]] + tail);
    assert ([log[i]] + tail)[1..] == tail;
    UncalledIsUntouched(middle, tail, key);
  }

  // ----- Calling again until a call returns -----

  /** In an orderly log a consumer that starts open was sent or lost exactly once if it is enqueued
      now, and neither if it is still open; and every claim counts one attempt. */
  lemma {:induction false} SuccessesMatchTheState(consumers: map<ConsumerKey, Consumer>, log: seq<Call>,
                                                  key: ConsumerKey)
    requires Orderly(consumers, log) && key in consumers
    ensures key in After(consumers, log)
    ensures
      var now, was := After(consumers, log)[key], consumers[key];
      && now.publishAttempts == was.publishAttempts + Calls(log, key)
      && (if Open(was)
          then Successes(log, key) + Losses(log, key) == (if Open(now) then 0 else 1)
              && (!Open(now) ==> now.state == Enqueued)
          else Calls(log, key) == 0 && now == was)
    decreases |log|
  {
    if log != [] {
      SuccessesMatchTheState(AfterCall(consumers, log[0]), log[1..], key);
      if !Open(consumers[key]) {
        assert log[0].consumer != key;
      } else if log[0] == Call(key, Sent) || log[0] == Call(key, Lost) {
        NothingWithoutCalls(log[1..], key, Sent);
        NothingWithoutCalls(log[1..], key, Lost);
      }
    }
  }

  lemma {:induction false} NothingWithoutCalls(log: seq<Call>, key: ConsumerKey, outcome: Outcome)
    ensures Count(log, Call(key, outcome)) <= Calls(log, key)
    decreases |log|
  {
    if log != [] { NothingWithoutCalls(log[1..], key, outcome); }
  }

  /** Calls one after the other, of which the last and only the last returns. */
  ghost predicate RepeatedUntilReturned(consumers: map<ConsumerKey, Consumer>, raw: Option<RawId>, logs: seq<seq<Call>>)
    decreases |logs|
  {
    && logs != []
    && IsPublication(consumers, raw, logs[0], |logs| > 1)
    && (|logs| > 1 ==> RepeatedUntilReturned(After(consumers, logs[0]), raw, logs[1..]))
  }

  function Joined(logs: seq<seq<Call>>): seq<Call> {
    if logs == [] then [] else logs[0] + Joined(logs[1..])
  }

  lemma {:induction false} RepeatedIsOrderly(consumers: map<ConsumerKey, Consumer>, raw: Option<RawId>,
                                             logs: seq<seq<Call>>)
    requires RepeatedUntilReturned(consumers, raw, logs)
    ensures Orderly(consumers, Joined(logs))
    ensures Selected(After(consumers, Joined(logs)), raw) == {}
    ensures forall key :: key in consumers && !Matches(key, raw) ==> Calls(Joined(logs), key) == 0
    decreases |logs|
  {
    var rest, next := Joined(logs[1..]), After(consumers, logs[0]);
    AfterAppend(consumers, logs[0], rest);
    forall key | key in consumers && !Matches(key, raw)
      ensures Calls(logs[0], key) == 0
    {
      CallsOfAbsent(logs[0], key);
    }
    KeysStay(consumers, logs[0]);
    if |logs| == 1 {
      assert rest == [] && After(next, rest) == next;
      forall key | key in next && Matches(key, raw)
        ensures !Open(next[key])
      {
        StopsAtTheFirstFailure(consumers, raw, logs[0], false, key);
        if key in Selected(consumers, raw) {
          var i :| 0 <= i < |logs[0]| && logs[0][i].consumer == key;
        }
      }
    } else {
      RepeatedIsOrderly(next, raw, logs[1..]);
    }
  }

  lemma {:induction false} KeysStay(consumers: map<ConsumerKey, Consumer>, log: seq<Call>)
    ensures After(consumers, log).Keys == consumers.Keys
    decreases |log|
  {
    if log != [] { KeysStay(AfterCall(consumers, log[0]), log[1..]); }
  }

  /** Repeating the call until it returns publishes every selected consumer successfully exactly
      once, unless the process ended between its claim and its publish, and then never; it counts as
      many attempts as claims, and touches no other consumer. */
  lemma EveryConsumerIsPublishedExactlyOnce(consumers: map<ConsumerKey, Consumer>, raw: Option<RawId>,
                                            logs: seq<seq<Call>>, key: ConsumerKey)
    requires RepeatedUntilReturned(consumers, raw, logs) && key in consumers
    ensures key in After(consumers, Joined(logs))
    ensures
      var now, was := After(consumers, Joined(logs))[key], consumers[key];
      if key in Selected(consumers, raw)
      then now.state == Enqueued && Successes(Joined(logs), key) == (if Losses(Joined(logs), key) == 0 then 1 else 0)
           && now.publishAttempts == was.publishAttempts + Calls(Joined(logs), key)
      else now == was && Calls(Joined(logs), key) == 0
  {
    RepeatedIsOrderly(consumers, raw, logs);
    SuccessesMatchTheState(consumers, Joined(logs), key);
    KeysStay(consumers, Joined(logs));
    if !Matches(key, raw) {
      UncalledIsUntouched(consumers, Joined(logs), key);
    } else {
      assert key !in Selected(After(consumers, Joined(logs)), raw);
    }
  }

  /** The measure: a call leaves as many fewer consumers to publish as it published or lost. */
  lemma {:induction false} EverySuccessIsProgress(consumers: map<ConsumerKey, Consumer>, raw: Option<RawId>,
                                                  log: seq<Call>)
    requires Orderly(consumers, log) && forall i :: 0 <= i < |log| ==> Matches(log[i].consumer, raw)
    ensures |Selected(After(consumers, log), raw)| == |Selected(consumers, raw)| - Succeeded(log)
    decreases |log|
  {
    if log != [] {
      var next, key := AfterCall(consumers, log[0]), log[0].consumer;
      EverySuccessIsProgress(next, raw, log[1..]);
      if log[0].outcome != Refused {
        assert Selected(next, raw) == Selected(consumers, raw) - {key};
      } else {
        assert Selected(next, raw) == Selected(consumers, raw);
      }
    }
  }

  function Succeeded(log: seq<Call>): nat
    decreases |log|
  {
    if log == [] then 0 else (if log[0].outcome != Refused then 1 else 0) + Succeeded(log[1..])
  }

  /** It happens: the process ends after the only claim was committed, the next call finds nothing to
      publish and returns, and the consumer stays enqueued without ever having been sent. */
  lemma LostConsumerIsNeverPublished(key: ConsumerKey, row: Consumer, raw: Option<RawId>)
    requires row.state == Pending && Matches(key, raw)
    ensures
      var logs := [[Call(key, Lost)], []];
      var consumers := map[key := row];
      && RepeatedUntilReturned(consumers, raw, logs) && Successes(Joined(logs), key) == 0
      && key in After(consumers, Joined(logs)) && After(consumers, Joined(logs))[key].state == Enqueued
  {
    var consumers, log: seq<Call> := map[key := row], [Call(key, Lost)];
    var after := AfterCall(consumers, log[0]);
    assert log[1..] == [] && After(consumers, log) == After(after, []) == after;
    assert Selected(consumers, raw) == {key} && Selected(after, raw) == {};
    assert [log, []][1..] == [[]] && Joined([[]]) == [] + Joined([]) == [] && log + [] == log;
    assert Joined([log, []]) == log + Joined([[]]) == log;
    assert IsPublication(after, raw, [], false) && RepeatedUntilReturned(after, raw, [[]]);
    assert Count(log[1..], Call(key, Sent)) == 0;
  }
}
