/** What the outbox keeps when the transactions that record a publish overlap.

    `_publishing_event` reads the row without locking it, and the flush at the end writes only the
    columns that differ from what was read. So recording is two steps here, and claims and the records
    of other late workers come between them. Claims lock the rows they take and stay whole. */
module OutboxRaces {
  import opened Options
  import opened Outbox
  import OutboxSafety
  import OutboxSchedule

  /** The outbox, and the row that each recording worker has read. */
  datatype State = Racing(base: Outbox.State, readings: map<Worker, Event>)

  /** A whole step is any step of the outbox but a record. */
  datatype Step = Whole(step: Outbox.Step) | Read(worker: Worker) | Write(worker: Worker)

  predicate CanRecord(b: Outbox.State, w: Worker) {
    w in b.workers && b.workers[w].queue != [] && b.workers[w].result.Some?
  }

  function Target(b: Outbox.State, w: Worker): EventId
    requires CanRecord(b, w)
  {
    b.workers[w].queue[0].id
  }

  /** The row that the worker means to leave, made from the one it has read. */
  function Wanted(b: Outbox.State, w: Worker, seen: Event): Event
    requires CanRecord(b, w)
  {
    var d := b.workers[w];
    if d.result.value then MarkedPublished(seen, d.at)
    else Released(seen, d.at + Delay(d.queue[0].attempts), b.maxAttempts)
  }

  /** The UPDATE: the columns in which `want` differs from `seen`, over the row as it is now. */
  function Merged(now: Event, seen: Event, want: Event): Event {
    now.(status := if want.status != seen.status then want.status else now.status,
         availableAt := if want.availableAt != seen.availableAt then want.availableAt else now.availableAt,
         lease := if want.lease != seen.lease then want.lease else now.lease,
         publishedAt := if want.publishedAt != seen.publishedAt then want.publishedAt else now.publishedAt,
         lastError := if want.lastError != seen.lastError then want.lastError else now.lastError)
  }

  function AfterRead(s: State, w: Worker): State {
    if w in s.readings || !CanRecord(s.base, w) then s
    else if Recorded(s.base, s.base.workers[w]).None? then s.(base := s.base.(workers := s.base.workers - {w}))
    else s.(readings := s.readings[w := s.base.events[Target(s.base, w)]])
  }

  function AfterWrite(s: State, w: Worker): State {
    if w !in s.readings || !CanRecord(s.base, w) || Target(s.base, w) !in s.base.events then s
    else
      var b, d, id := s.base, s.base.workers[w], Target(s.base, w);
      var want := Wanted(b, w, s.readings[w]);
      Racing(b.(events := b.events[id := Merged(b.events[id], s.readings[w], want)],
               workers := b.workers[w := d.(queue := d.queue[1..], result := None,
                                            tally := Counted(d.tally, want.status))]),
            s.readings - {w})
  }

  function Apply(s: State, step: Step): State {
    match step
    case Whole(whole) =>
      if whole.Record? then s
      else Racing(Outbox.Apply(s.base, whole), if whole.Leave? then s.readings - {whole.worker} else s.readings)
    case Read(w) => AfterRead(s, w)
    case Write(w) => AfterWrite(s, w)
  }

  function Run(s: State, steps: seq<Step>): State
    decreases |steps|
  {
    if steps == [] then s else Run(Apply(s, steps[0]), steps[1..])
  }

  ghost predicate Init(s: State) {
    Outbox.Init(s.base) && s.readings == map[]
  }

  // ----- Serial records -----

  /** A record with nothing between its read and its write is the one step of the outbox. */
  lemma SerialRecordIsOneStep(s: State, w: Worker)
    requires w !in s.readings
    ensures Apply(Apply(s, Read(w)), Write(w)) == s.(base := Outbox.Apply(s.base, Outbox.Record(w)))
  {
    if CanRecord(s.base, w) && Recorded(s.base, s.base.workers[w]).Some? {
      assert s.readings[w := s.base.events[Target(s.base, w)]] - {w} == s.readings;
      hide Delay;
      var id := Target(s.base, w);
      assert Merged(s.base.events[id], s.base.events[id], Wanted(s.base, w, s.base.events[id])) ==
          Wanted(s.base, w, s.base.events[id]);
    }
  }

  function Serial(step: Outbox.Step): seq<Step> {
    if step.Record? then [Read(step.worker), Write(step.worker)] else [Whole(step)]
  }

  function AllSerial(steps: seq<Outbox.Step>): seq<Step> {
    if steps == [] then [] else Serial(steps[0]) + AllSerial(steps[1..])
  }

  /** So the runs of the outbox are the runs here whose records do not overlap, and what is proved of
      them holds of these. */
  lemma {:induction false} SerialRunsAreOutboxRuns(b: Outbox.State, steps: seq<Outbox.Step>)
    ensures Run(Racing(b, map[]), AllSerial(steps)) == Racing(Outbox.Run(b, steps), map[])
    decreases |steps|
  {
    if steps != [] {
      var s, all := Racing(b, map[]), AllSerial(steps);
      var t := Racing(Outbox.Apply(b, steps[0]), map[]);
      if steps[0].Record? {
        var w := steps[0].worker;
        SerialRecordIsOneStep(s, w);
        hide Apply, Outbox.Apply, Outbox.Run;
        assert all[0] == Read(w) && all[1..][0] == Write(w) && all[1..][1..] == AllSerial(steps[1..]);
        assert Run(s, all) == Run(Apply(Apply(s, Read(w)), Write(w)), AllSerial(steps[1..]));
      } else {
        assert Apply(s, Whole(steps[0])) == t;
        hide Apply, Outbox.Apply, Outbox.Run;
        assert all[0] == Whole(steps[0]) && all[1..] == AllSerial(steps[1..]);
      }
      SerialRunsAreOutboxRuns(Outbox.Apply(b, steps[0]), steps[1..]);
      assert Outbox.Run(b, steps) == Outbox.Run(Outbox.Apply(b, steps[0]), steps[1..]);
    }
  }

  // ----- What survives the races -----

  ghost predicate EventInv(b: Outbox.State, id: EventId)
    requires id in b.events
  {
    var e := b.events[id];
    && (e.status == Publishing <==> e.lease.Some?)
    && (e.status == Failed ==> e.attempts >= b.maxAttempts >= 1)
    && (e.status == Published ==> id in b.accepted && e.publishedAt.Some?)
    && (e.status != Pending ==> e.attempts >= 1)
  }

  /** What a worker has read is a publishing row that was there, and may since have moved on. */
  ghost predicate ReadInv(s: State, w: Worker)
    requires w in s.readings
  {
    && CanRecord(s.base, w) && Target(s.base, w) in s.base.events
    && var seen, now := s.readings[w], s.base.events[Target(s.base, w)];
       && seen.status == Publishing && seen.lease.Some? && 1 <= seen.attempts <= now.attempts
       && (seen.publishedAt.Some? ==> now.publishedAt.Some?)
       && (s.base.workers[w].result == Some(false) ==> s.base.maxAttempts >= 1)
  }

  ghost predicate Inv(s: State) {
    && (forall id :: id in s.base.events ==> EventInv(s.base, id))
    && (forall w :: w in s.base.workers ==> OutboxSafety.WorkerInv(s.base, w))
    && (forall w :: w in s.readings ==> ReadInv(s, w))
    && OutboxSafety.KeysAreUnique(s.base.events)
  }

  /** What no step takes back, races or not. */
  ghost predicate Continues(was: Event, e: Event) {
    && e.key == was.key && e.payload == was.payload && e.workspace == was.workspace && e.createdAt == was.createdAt
    && e.attempts >= was.attempts && (was.publishedAt.Some? ==> e.publishedAt.Some?)
  }

  ghost predicate EventsContinue(b: Outbox.State, c: Outbox.State) {
    && c.maxAttempts == b.maxAttempts && b.accepted <= c.accepted
    && (forall id :: id in b.events ==> id in c.events && Continues(b.events[id], c.events[id]))
  }

  lemma OtherWorker(b: Outbox.State, c: Outbox.State, w: Worker)
    requires w in b.workers && OutboxSafety.WorkerInv(b, w) && EventsContinue(b, c)
    requires w in c.workers && c.workers[w] == b.workers[w]
    ensures OutboxSafety.WorkerInv(c, w)
  {
  }

  lemma OtherRead(s: State, t: State, w: Worker)
    requires w in s.readings && ReadInv(s, w) && EventsContinue(s.base, t.base)
    requires w in t.readings && t.readings[w] == s.readings[w]
    requires w in t.base.workers && t.base.workers[w] == s.base.workers[w]
    ensures ReadInv(t, w)
  {
  }

  lemma ClaimKeepsEvents(b: Outbox.State, step: Outbox.Step)
    requires step.Claim? && forall id :: id in b.events ==> EventInv(b, id)
    ensures EventsContinue(b, Outbox.Apply(b, step))
    ensures forall id :: id in Outbox.Apply(b, step).events ==> id in b.events && EventInv(Outbox.Apply(b, step), id)
  {
    var c := Outbox.Apply(b, step);
    BatchIsKnown(b.events, step);
    hide Batch;
    forall id | id in c.events
      ensures id in b.events && EventInv(c, id)
    {
      assert EventInv(b, id);
    }
  }

  lemma ClaimingWorker(b: Outbox.State, step: Outbox.Step)
    requires step.Claim? && Outbox.Apply(b, step) != b
    ensures step.worker in Outbox.Apply(b, step).workers && OutboxSafety.WorkerInv(Outbox.Apply(b, step), step.worker)
  {
    BatchIsKnown(b.events, step);
    FirstOfTakesTheFirst(b.events, Eligible(b.events, step.now, step.workspace, step.locked), step.limit);
    hide FirstOf;
  }

  lemma ClaimLeavesWorkers(b: Outbox.State, step: Outbox.Step)
    requires step.Claim?
    ensures
      var c := Outbox.Apply(b, step);
      && (forall w :: w in b.workers ==> w in c.workers && c.workers[w] == b.workers[w])
      && (forall w :: w in c.workers && w !in b.workers ==> w == step.worker && c != b)
  {
    hide Batch, Leased, Copies;
  }

  lemma ClaimKeepsInv(s: State, step: Outbox.Step)
    requires Inv(s) && step.Claim?
    ensures Inv(Apply(s, Whole(step))) && EventsContinue(s.base, Apply(s, Whole(step)).base)
  {
    var t, c := Apply(s, Whole(step)), Outbox.Apply(s.base, step);
    assert t == s.(base := c);
    ClaimKeepsEvents(s.base, step);
    ClaimLeavesWorkers(s.base, step);
    if c != s.base { ClaimingWorker(s.base, step); }
    hide Apply, Outbox.Apply, EventInv, OutboxSafety.WorkerInv, ReadInv;
    forall w | w in c.workers
      ensures OutboxSafety.WorkerInv(c, w)
    {
      if w in s.base.workers { OtherWorker(s.base, c, w); }
    }
    forall w | w in t.readings
      ensures ReadInv(t, w)
    {
      KnownReading(s, w);
      OtherRead(s, t, w);
    }
  }

  lemma OtherWholeStepKeepsWorkers(b: Outbox.State, step: Outbox.Step)
    requires !step.Claim? && !step.Record? && EventsContinue(b, Outbox.Apply(b, step))
    requires forall w :: w in b.workers ==> OutboxSafety.WorkerInv(b, w)
    ensures forall w :: w in Outbox.Apply(b, step).workers ==> OutboxSafety.WorkerInv(Outbox.Apply(b, step), w)
    ensures forall w :: w in b.workers && !(step.Leave? && step.worker == w) && CanRecord(b, w) ==>
      w in Outbox.Apply(b, step).workers && Outbox.Apply(b, step).workers[w] == b.workers[w]
  {
    var c := Outbox.Apply(b, step);
    forall w | w in c.workers
      ensures OutboxSafety.WorkerInv(c, w)
    {
      assert OutboxSafety.WorkerInv(b, w);
      if c.workers[w] == b.workers[w] { OtherWorker(b, c, w); }
    }
  }

  lemma OtherWholeStepKeepsInv(s: State, step: Outbox.Step)
    requires Inv(s) && !step.Claim? && !step.Record?
    ensures Inv(Apply(s, Whole(step))) && EventsContinue(s.base, Apply(s, Whole(step)).base)
  {
    var t := Apply(s, Whole(step));
    hide Outbox.Apply, EventInv, OutboxSafety.WorkerInv, ReadInv, CanRecord, EventsContinue;
    OtherWholeStepKeepsEvents(s.base, step);
    OtherWholeStepKeepsWorkers(s.base, step);
    ReadersCanRecord(s);
    forall w | w in t.readings
      ensures ReadInv(t, w)
    {
      KnownReading(s, w);
      OtherRead(s, t, w);
    }
  }

  lemma OtherWholeStepKeepsEvents(b: Outbox.State, step: Outbox.Step)
    requires !step.Claim? && !step.Record? && OutboxSafety.KeysAreUnique(b.events)
    requires forall id :: id in b.events ==> EventInv(b, id)
    ensures EventsContinue(b, Outbox.Apply(b, step)) && OutboxSafety.KeysAreUnique(Outbox.Apply(b, step).events)
    ensures forall id :: id in Outbox.Apply(b, step).events ==> EventInv(Outbox.Apply(b, step), id)
  {
    var c := Outbox.Apply(b, step);
    forall id | id in c.events
      ensures EventInv(c, id)
    {
      if id in b.events { assert EventInv(b, id); }
    }
  }

  lemma FirstReading(s: State, w: Worker)
    requires Inv(s) && w !in s.readings && w in AfterRead(s, w).readings
    ensures AfterRead(s, w).base == s.base && ReadInv(AfterRead(s, w), w)
  {
    assert OutboxSafety.WorkerInv(s.base, w) && EventInv(s.base, Target(s.base, w));
    hide Inv;
  }

  lemma ReadOnlyReads(s: State, w: Worker)
    ensures
      var t := AfterRead(s, w);
      && t.base.events == s.base.events && t.base.maxAttempts == s.base.maxAttempts
           && t.base.accepted == s.base.accepted
      && (forall v :: v in t.base.workers ==> v in s.base.workers && t.base.workers[v] == s.base.workers[v])
      && (forall v :: v in s.readings ==>
            v in t.readings && t.readings[v] == s.readings[v] && (v in s.base.workers ==> v in t.base.workers))
      && (forall v :: v in t.readings && v != w ==> v in s.readings)
  {
    hide Recorded;
  }

  lemma ReadKeepsInv(s: State, w: Worker)
    requires Inv(s)
    ensures Inv(Apply(s, Read(w))) && EventsContinue(s.base, Apply(s, Read(w)).base)
  {
    hide AfterRead, EventInv, OutboxSafety.WorkerInv, ReadInv;
    var t := AfterRead(s, w);
    assert t == Apply(s, Read(w));
    hide Apply;
    ReadOnlyReads(s, w);
    if w !in s.readings && w in t.readings { FirstReading(s, w); }
    forall v | v in t.base.workers
      ensures OutboxSafety.WorkerInv(t.base, v)
    {
      OtherWorker(s.base, t.base, v);
    }
    forall v | v in t.readings
      ensures ReadInv(t, v)
    {
      if v in s.readings { KnownReading(s, v); OtherRead(s, t, v); }
    }
    forall id | id in t.base.events
      ensures EventInv(t.base, id)
    {
      SameEvent(s.base, t.base, id);
    }
  }

  lemma KnownReading(s: State, w: Worker)
    requires Inv(s) && w in s.readings
    ensures ReadInv(s, w) && w in s.base.workers
  {
    assert ReadInv(s, w);
  }

  lemma SameEvent(b: Outbox.State, c: Outbox.State, id: EventId)
    requires id in b.events && EventInv(b, id) && id in c.events && c.events[id] == b.events[id]
    requires c.maxAttempts == b.maxAttempts && b.accepted <= c.accepted
    ensures EventInv(c, id)
  {
  }

  lemma WrittenRow(s: State, w: Worker)
    requires Inv(s) && w in s.readings
    ensures CanRecord(s.base, w)
    ensures
      var t, id := AfterWrite(s, w), Target(s.base, w);
      && id in s.base.events && t.base.events == s.base.events[id := t.base.events[id]]
      && EventInv(t.base, id) && Continues(s.base.events[id], t.base.events[id])
      && t.base.events[id].status == Wanted(s.base, w, s.readings[w]).status
  {
    assert ReadInv(s, w) && OutboxSafety.WorkerInv(s.base, w);
    assert EventInv(s.base, Target(s.base, w));
    hide Inv, Delay;
  }

  lemma KeysStayUnique(events: map<EventId, Event>, id: EventId, e: Event)
    requires OutboxSafety.KeysAreUnique(events) && id in events && e.key == events[id].key
    ensures OutboxSafety.KeysAreUnique(events[id := e])
  {
  }

  lemma WriteKeepsEvents(s: State, t: State, w: Worker)
    requires Inv(s) && w in s.readings && t == AfterWrite(s, w)
    ensures EventsContinue(s.base, t.base) && OutboxSafety.KeysAreUnique(t.base.events)
    ensures forall id :: id in t.base.events ==> EventInv(t.base, id)
  {
    WrittenRow(s, w);
    assert t.base.maxAttempts == s.base.maxAttempts && t.base.accepted == s.base.accepted;
    hide AfterWrite, EventInv;
    KeysStayUnique(s.base.events, Target(s.base, w), t.base.events[Target(s.base, w)]);
    forall id | id in t.base.events
      ensures EventInv(t.base, id)
    {
      if id != Target(s.base, w) { SameEvent(s.base, t.base, id); }
    }
  }

  lemma WriteKeepsInv(s: State, w: Worker)
    requires Inv(s)
    ensures Inv(Apply(s, Write(w))) && EventsContinue(s.base, Apply(s, Write(w)).base)
  {
    var t := AfterWrite(s, w);
    assert t == Apply(s, Write(w));
    if w in s.readings {
      hide Apply, AfterWrite, EventInv, OutboxSafety.WorkerInv, ReadInv, EventsContinue;
      WriteKeepsEvents(s, t, w);
      WriteKeepsWorkers(s, t, w);
    }
  }

  lemma WriteKeepsWorkers(s: State, t: State, w: Worker)
    requires Inv(s) && w in s.readings && t == AfterWrite(s, w) && EventsContinue(s.base, t.base)
    ensures forall v :: v in t.base.workers ==> OutboxSafety.WorkerInv(t.base, v)
    ensures forall v :: v in t.readings ==> ReadInv(t, v)
  {
    assert ReadInv(s, w);
    forall v | v in t.base.workers
      ensures OutboxSafety.WorkerInv(t.base, v)
    {
      assert OutboxSafety.WorkerInv(s.base, v);
      hide EventInv, Merged, ReadInv;
      if v != w { OtherWorker(s.base, t.base, v); }
    }
    forall v | v in t.readings
      ensures ReadInv(t, v)
    {
      assert ReadInv(s, v);
      hide EventInv, Merged, OutboxSafety.WorkerInv;
      OtherRead(s, t, v);
    }
  }

  lemma ApplyKeepsInv(s: State, step: Step)
    requires Inv(s)
    ensures Inv(Apply(s, step)) && EventsContinue(s.base, Apply(s, step).base)
  {
    if step.Whole? && step.step.Record? {
    } else {
      hide Apply, Inv;
      match step
      case Whole(whole) =>
        if whole.Claim? { ClaimKeepsInv(s, whole); } else { OtherWholeStepKeepsInv(s, whole); }
      case Read(w) => ReadKeepsInv(s, w);
      case Write(w) => WriteKeepsInv(s, w);
    }
  }

  lemma {:induction false} RunKeepsInv(s: State, steps: seq<Step>)
    requires Inv(s)
    ensures Inv(Run(s, steps)) && EventsContinue(s.base, Run(s, steps).base)
    decreases |steps|
  {
    if steps != [] {
      ApplyKeepsInv(s, steps[0]);
      RunKeepsInv(Apply(s, steps[0]), steps[1..]);
      hide Inv, Apply;
    }
  }

  /** Over every run, overlapping records included: a lease is present exactly while publishing,
      failed means that the attempts are used up, published means that some publish succeeded, and
      attempts and the facts about an event are never taken back. */
  lemma EventsStayConsistent(s: State, steps: seq<Step>, id: EventId)
    requires Init(s) && id in Run(s, steps).base.events
    ensures
      var b := Run(s, steps).base;
      var e := b.events[id];
      && (e.lease.Some? <==> e.status == Publishing)
      && (e.status == Failed ==> e.attempts >= s.base.maxAttempts)
      && (e.status == Published ==> id in b.accepted && e.publishedAt.Some?)
  {
    RunKeepsInv(s, steps);
    assert EventInv(Run(s, steps).base, id);
  }

  /** A call that reaches the end of its batch reports claimed = published + retried + failed, too. */
  lemma ReportAddsUp(s: State, steps: seq<Step>, w: Worker)
    requires Init(s) && w in Run(s, steps).base.workers && Run(s, steps).base.workers[w].queue == []
    ensures
      var tally := Run(s, steps).base.workers[w].tally;
      tally.claimed == tally.published + tally.retried + tally.failed
  {
    RunKeepsInv(s, steps);
    assert OutboxSafety.WorkerInv(Run(s, steps).base, w);
  }

  // ----- What does not -----

  predicate IsTerminal(b: Outbox.State, id: EventId) {
    id in b.events && b.events[id].status in {Published, Failed}
  }

  /** A worker has read the event before it ended, and its write would change the row as it is. */
  predicate OverwrittenBy(s: State, w: Worker, id: EventId) {
    && w in s.readings && CanRecord(s.base, w) && Target(s.base, w) == id && id in s.base.events
    && Merged(s.base.events[id], s.readings[w], Wanted(s.base, w, s.readings[w])) != s.base.events[id]
  }

  ghost predicate IsSettled(s: State, id: EventId) {
    IsTerminal(s.base, id) && forall w :: !OverwrittenBy(s, w, id)
  }

  lemma WholeStepLeavesTerminal(s: State, step: Outbox.Step, id: EventId)
    requires IsTerminal(s.base, id) && !step.Record?
    ensures
      var t := Apply(s, Whole(step));
      && id in t.base.events && t.base.events[id] == s.base.events[id] && t.base.maxAttempts == s.base.maxAttempts
      && forall w :: w in t.readings && CanRecord(s.base, w) ==>
           w in s.readings && t.readings[w] == s.readings[w] && w in t.base.workers
               && t.base.workers[w] == s.base.workers[w]
  {
    if step.Claim? { BatchIsKnown(s.base.events, step); }
    hide Batch, Copies;
  }

  lemma SameOverwrite(s: State, t: State, w: Worker, id: EventId)
    requires w in s.readings && CanRecord(s.base, w) && id in s.base.events
    requires w in t.readings && t.readings[w] == s.readings[w]
    requires w in t.base.workers && t.base.workers[w] == s.base.workers[w] && t.base.maxAttempts == s.base.maxAttempts
    requires id in t.base.events && t.base.events[id] == s.base.events[id]
    ensures OverwrittenBy(t, w, id) == OverwrittenBy(s, w, id)
  {
    hide Merged, Delay;
  }

  lemma ReadersCanRecord(s: State)
    requires Inv(s)
    ensures forall w :: w in s.readings ==> CanRecord(s.base, w)
  {
    forall w | w in s.readings
      ensures CanRecord(s.base, w)
    {
      KnownReading(s, w);
    }
  }

  lemma WholeStepKeepsSettled(s: State, step: Outbox.Step, id: EventId)
    requires Inv(s) && IsSettled(s, id) && !step.Record?
    ensures IsSettled(Apply(s, Whole(step)), id) && Apply(s, Whole(step)).base.events[id] == s.base.events[id]
  {
    var t := Apply(s, Whole(step));
    assert forall w :: w in t.readings ==> w in s.readings;
    hide Apply, Inv, OverwrittenBy, CanRecord;
    ReadersCanRecord(s);
    WholeStepLeavesTerminal(s, step, id);
    forall w
      ensures !OverwrittenBy(t, w, id)
    {
      if w in t.readings { SameOverwrite(s, t, w, id); } else { NoReading(t, w, id); }
    }
  }

  lemma NoReading(s: State, w: Worker, id: EventId)
    requires w !in s.readings
    ensures !OverwrittenBy(s, w, id)
  {
  }

  lemma RecordKeepsSettled(s: State, v: Worker, id: EventId)
    requires Inv(s) && IsSettled(s, id)
    ensures IsSettled(AfterRead(s, v), id) && AfterRead(s, v).base.events[id] == s.base.events[id]
    ensures IsSettled(AfterWrite(s, v), id) && AfterWrite(s, v).base.events[id] == s.base.events[id]
  {
    hide EventInv, OutboxSafety.WorkerInv, Delay;
    var t, u := AfterRead(s, v), AfterWrite(s, v);
    assert !OverwrittenBy(s, v, id);
    forall w | w in s.readings
      ensures !OverwrittenBy(s, w, id) && ReadInv(s, w)
    {
    }
    hide Inv, Merged;
    forall w | w in t.readings
      ensures !OverwrittenBy(t, w, id)
    {
      if w in s.readings { assert t.base.workers[w] == s.base.workers[w]; }
    }
    forall w | w in u.readings
      ensures !OverwrittenBy(u, w, id)
    {
      assert u.base.workers[w] == s.base.workers[w];
    }
  }

  lemma {:induction false} SettledStaysSettled(s: State, steps: seq<Step>, id: EventId)
    requires Inv(s) && IsSettled(s, id)
    ensures id in Run(s, steps).base.events && Run(s, steps).base.events[id] == s.base.events[id]
    decreases |steps|
  {
    if steps != [] {
      var t := Apply(s, steps[0]);
      ApplyKeepsInv(s, steps[0]);
      assert IsSettled(t, id) && t.base.events[id] == s.base.events[id] by {
        match steps[0]
        case Whole(whole) => if !whole.Record? { WholeStepKeepsSettled(s, whole, id); }
        case Read(v) => RecordKeepsSettled(s, v, id);
        case Write(v) => RecordKeepsSettled(s, v, id);
      }
      hide Inv, Apply;
      SettledStaysSettled(t, steps[1..], id);
    }
  }

  ghost predicate ChangesRow(s: State, steps: seq<Step>, id: EventId) {
    id in s.base.events && (id !in Run(s, steps).base.events || Run(s, steps).base.events[id] != s.base.events[id])
  }

  /** A published or failed event can still change exactly if a worker that read it while it was
      publishing has yet to write something else. */
  lemma TerminalEventChangesIffAReadIsPending(s: State, id: EventId)
    requires Inv(s) && IsTerminal(s.base, id)
    ensures (exists steps :: ChangesRow(s, steps, id)) <==> exists w :: OverwrittenBy(s, w, id)
  {
    if w :| OverwrittenBy(s, w, id) {
      var steps := [Write(w)];
      assert steps[1..] == [] && Run(s, steps) == Run(Apply(s, Write(w)), []) == Apply(s, Write(w));
      assert ChangesRow(s, steps, id);
    } else {
      assert IsSettled(s, id);
      forall steps
        ensures !ChangesRow(s, steps, id)
      {
        SettledStaysSettled(s, steps, id);
      }
    }
  }

  /** A write leaves a spent event pending exactly if it is a release by a worker that read the event
      while attempts were left, and claims have used them up since. */
  lemma SpentEventIsLeftPendingIff(s: State, w: Worker)
    requires Inv(s) && w in s.readings
    ensures
      var b, id := s.base, Target(s.base, w);
      var e := Apply(s, Write(w)).base.events[id];
      e.status == Pending && e.attempts >= b.maxAttempts <==>
        b.workers[w].result == Some(false) && s.readings[w].attempts < b.maxAttempts <= b.events[id].attempts
  {
    WrittenRow(s, w);
    assert ReadInv(s, w);
    hide Inv, EventInv;
  }

  // ----- Leases and attempts under overlap -----

  predicate Claims(s: State, step: Step, id: EventId) {
    step.Whole? && OutboxSchedule.Claims(s.base, step.step, id)
  }

  /** A write gives the event back, or fails it. */
  predicate Releases(s: State, step: Step, id: EventId) {
    && step.Write? && step.worker in s.readings && CanRecord(s.base, step.worker) && Target(s.base, step.worker) == id
    && s.base.workers[step.worker].result == Some(false)
  }

  predicate NeverClaimed(s: State, steps: seq<Step>, id: EventId)
    decreases |steps|
  {
    steps == [] || (!Claims(s, steps[0], id) && NeverClaimed(Apply(s, steps[0]), steps[1..], id))
  }

  predicate EverReleased(s: State, steps: seq<Step>, id: EventId)
    decreases |steps|
  {
    steps != [] && (Releases(s, steps[0], id) || EverReleased(Apply(s, steps[0]), steps[1..], id))
  }

  lemma StepKeepsLease(s: State, step: Step, id: EventId, until: nat)
    requires Inv(s) && OutboxSchedule.LeasedOrDone(s.base, id, until)
    requires !Claims(s, step, id) && !Releases(s, step, id)
    ensures OutboxSchedule.LeasedOrDone(Apply(s, step).base, id, until)
  {
    hide Batch, Copies, Recorded, Delay, EventInv, OutboxSafety.WorkerInv;
    if step.Write? && step.worker in s.readings {
      assert ReadInv(s, step.worker);
    }
    hide Inv;
  }

  /** Without a claim or a release a lease stays as it is, or the event is done: overlap or not. */
  lemma {:induction false} UnreleasedStaysLeased(s: State, steps: seq<Step>, id: EventId, until: nat)
    requires Inv(s) && OutboxSchedule.LeasedOrDone(s.base, id, until)
    requires NeverClaimed(s, steps, id) && !EverReleased(s, steps, id)
    ensures OutboxSchedule.LeasedOrDone(Run(s, steps).base, id, until)
    decreases |steps|
  {
    if steps != [] {
      hide Inv, Claims, Releases, OutboxSchedule.LeasedOrDone, Apply;
      StepKeepsLease(s, steps[0], id, until);
      ApplyKeepsInv(s, steps[0]);
      UnreleasedStaysLeased(Apply(s, steps[0]), steps[1..], id, until);
    }
  }

  lemma ClaimedIsLeased(s: State, claim: Step, id: EventId)
    requires Claims(s, claim, id)
    ensures claim.step.Claim? && claim.step.lease > 0
    ensures OutboxSchedule.LeasedOrDone(Apply(s, claim).base, id, claim.step.now + claim.step.lease)
    ensures id in s.base.events && IsEligible(s.base.events[id], claim.step.now, claim.step.workspace)
    ensures Apply(s, claim).base.events[id].attempts == s.base.events[id].attempts + 1
    ensures Apply(s, claim).base.maxAttempts == s.base.maxAttempts
  {
    BatchIsKnown(s.base.events, claim.step);
  }

  lemma LeaseExcludesClaims(s: State, claim: Step, id: EventId, until: nat)
    requires Inv(s) && OutboxSchedule.LeasedOrDone(s.base, id, until)
    requires Claims(s, claim, id) && claim.step.Claim?
    ensures claim.step.now >= until
  {
    ClaimedIsLeased(s, claim, id);
    assert EventInv(s.base, id);
    hide Inv, Claims;
  }

  /** An event is claimed again before its lease ends only if a write released it in between, and its
      new available_at has passed: overlap or not. */
  lemma ClaimedAgainOnlyIfReleased(s: State, claim: Step, steps: seq<Step>, again: Step, id: EventId)
    requires Inv(s) && Claims(s, claim, id) && claim.step.Claim?
    requires NeverClaimed(Apply(s, claim), steps, id)
    requires Claims(Run(Apply(s, claim), steps), again, id) && again.step.Claim?
    requires again.step.now < claim.step.now + claim.step.lease
    ensures EverReleased(Apply(s, claim), steps, id)
    ensures
      var events := Run(Apply(s, claim), steps).base.events;
      id in events && events[id].availableAt <= again.step.now
  {
    hide Inv, Apply, Run, NeverClaimed, EverReleased, OutboxSchedule.LeasedOrDone;
    var t, until := Apply(s, claim), claim.step.now + claim.step.lease;
    ClaimedIsLeased(s, claim, id);
    ApplyKeepsInv(s, claim);
    RunKeepsInv(t, steps);
    ClaimedIsLeased(Run(t, steps), again, id);
    hide Claims;
    if !EverReleased(t, steps, id) {
      UnreleasedStaysLeased(t, steps, id, until);
      LeaseExcludesClaims(Run(t, steps), again, id, until);
    }
  }

  /** The claim takes an event whose attempts are used up, publishing or pending. */
  predicate TakesSpent(s: State, step: Step, id: EventId) {
    Claims(s, step, id) && id in s.base.events && s.base.events[id].attempts >= s.base.maxAttempts
  }

  predicate EverTakesSpent(s: State, steps: seq<Step>, id: EventId)
    decreases |steps|
  {
    steps != [] && (TakesSpent(s, steps[0], id) || EverTakesSpent(Apply(s, steps[0]), steps[1..], id))
  }

  lemma StepExceedsIffSpent(s: State, step: Step, id: EventId)
    requires s.base.maxAttempts >= 1 && OutboxSchedule.WithinMaximum(s.base, id)
    ensures OutboxSchedule.WithinMaximum(Apply(s, step).base, id) <==> !TakesSpent(s, step, id)
  {
    if Claims(s, step, id) { ClaimedIsLeased(s, step, id); }
    hide Batch, Copies, Recorded, Delay;
  }

  /** Over every run, overlapping records included: the attempts of an event pass the maximum exactly
      if some claim takes it, whatever its status, when they are already used up. */
  lemma {:induction false} AttemptsExceedIffSpentTaken(s: State, steps: seq<Step>, id: EventId)
    requires Inv(s) && s.base.maxAttempts >= 1 && OutboxSchedule.WithinMaximum(s.base, id)
    ensures OutboxSchedule.WithinMaximum(Run(s, steps).base, id) <==> !EverTakesSpent(s, steps, id)
    decreases |steps|
  {
    if steps != [] {
      var t := Apply(s, steps[0]);
      ApplyKeepsInv(s, steps[0]);
      StepExceedsIffSpent(s, steps[0], id);
      hide Inv, Apply, TakesSpent;
      if OutboxSchedule.WithinMaximum(t.base, id) {
        AttemptsExceedIffSpentTaken(t, steps[1..], id);
      } else {
        RunKeepsInv(t, steps[1..]);
      }
    }
  }

  // ----- Concrete runs -----

  lemma {:induction false} RunThen(s: State, steps: seq<Step>, last: Step)
    ensures Run(s, steps + [last]) == Apply(Run(s, steps), last)
    decreases |steps|
  {
    hide Apply;
    if steps == [] {
      assert [last][1..] == [] && Run(Apply(s, last), []) == Apply(s, last);
    } else {
      assert (steps + [last])[1..] == steps[1..] + [last];
      RunThen(Apply(s, steps[0]), steps[1..], last);
    }
  }

  /** Two late workers have both published an event, the first with success, and both have read it
      as publishing. */
  ghost predicate BothHaveRead(s: State, e: Event) {
    && e.status == Publishing && e.attempts == 2 && e.publishedAt.None? && e.lease.Some? && e.availableAt == 0
    && s.base.maxAttempts == 10 && s.base.events == map[7 := e] && s.readings == map[1 := e, 2 := e]
    && s.base.workers == map[1 := Delivery(0, [Claimed(7, 1)], Some(true), Tally(1, 0, 0, 0)),
                             2 := Delivery(120, [Claimed(7, 2)], Some(false), Tally(1, 0, 0, 0))]
  }

  const TO_BOTH_READS := [Whole(Outbox.Claim(1, 0, 1, 120, None, {})), Whole(Outbox.Send(1, true)),
                          Whole(Outbox.Claim(2, 120, 1, 120, None, {})), Whole(Outbox.Send(2, false)), Read(1), Read(2)]

  lemma FirstSends(b: Outbox.State, e: Event)
    requires b.maxAttempts == 10 && b.events == map[7 := e] && b.workers == map[] && IsEligible(e, 0, None)
      && e.attempts == 0
    ensures
      var c := Outbox.Apply(Outbox.Apply(b, Outbox.Claim(1, 0, 1, 120, None, {})), Outbox.Send(1, true));
      && c.maxAttempts == 10 && c.events == map[7 := e.(status := Publishing, attempts := 1, lease := Some(120))]
      && c.workers == map[1 := Delivery(0, [Claimed(7, 1)], Some(true), Tally(1, 0, 0, 0))]
  {
    TheOnlyEventIsClaimed(b.events, 7, 0);
    var c := Outbox.Apply(b, Outbox.Claim(1, 0, 1, 120, None, {}));
    assert c.events == map[7 := e.(status := Publishing, attempts := 1, lease := Some(120))];
    TheOnlyCopy(c.events, 7);
    assert c.workers == map[1 := Delivery(0, [Claimed(7, 1)], None, Tally(1, 0, 0, 0))];
  }

  lemma SecondSends(b: Outbox.State, e: Event)
    requires b.maxAttempts == 10 && b.events == map[7 := e] && b.workers.Keys == {1} && IsEligible(e, 120, None)
      && e.attempts == 1
    ensures
      var c := Outbox.Apply(Outbox.Apply(b, Outbox.Claim(2, 120, 1, 120, None, {})), Outbox.Send(2, false));
      && c.maxAttempts == 10 && c.events == map[7 := e.(status := Publishing, attempts := 2, lease := Some(240))]
      && c.workers == b.workers[2 := Delivery(120, [Claimed(7, 2)], Some(false), Tally(1, 0, 0, 0))]
  {
    TheOnlyEventIsClaimed(b.events, 7, 120);
    var c := Outbox.Apply(b, Outbox.Claim(2, 120, 1, 120, None, {}));
    assert c.events == map[7 := e.(status := Publishing, attempts := 2, lease := Some(240))];
    TheOnlyCopy(c.events, 7);
  }

  lemma BothRead(s: State, e: Event)
    requires BothHaveRead(s.(readings := map[1 := e, 2 := e]), e) && s.readings == map[]
    ensures Apply(Apply(s, Read(1)), Read(2)) == s.(readings := map[1 := e, 2 := e])
  {
    hide Delay;
    assert Apply(s, Read(1)) == s.(readings := map[1 := e]);
  }

  lemma BothCanHaveRead(s: State, key: Key)
    requires Init(s) && s.base.maxAttempts == 10
    ensures exists e :: BothHaveRead(Run(Apply(s, Whole(Outbox.Enqueue(7, key, "", None, 0, 0))), TO_BOTH_READS), e)
  {
    var t := Apply(s, Whole(Outbox.Enqueue(7, key, "", None, 0, 0)));
    var e := EnqueuedEvent(Outbox.Enqueue(7, key, "", None, 0, 0));
    assert t.base.events == map[7 := e] && t.readings == map[];
    FirstSends(t.base, e);
    var u := Apply(Apply(t, TO_BOTH_READS[0]), TO_BOTH_READS[1]);
    SecondSends(u.base, e.(status := Publishing, attempts := 1, lease := Some(120)));
    var v := Apply(Apply(u, TO_BOTH_READS[2]), TO_BOTH_READS[3]);
    assert u.readings == map[] && v.readings == map[];
    hide Outbox.Apply, Apply;
    var e4 := e.(status := Publishing, attempts := 2, lease := Some(240));
    BothRead(v, e4);
    SixSteps(t, TO_BOTH_READS);
    assert BothHaveRead(Run(t, TO_BOTH_READS), e4);
  }

  lemma SixSteps(s: State, x: seq<Step>)
    requires |x| == 6
    ensures Run(s, x) == Apply(Apply(Apply(Apply(Apply(Apply(s, x[0]), x[1]), x[2]), x[3]), x[4]), x[5])
  {
    hide Apply;
    assert x[..0] == [] && x[..6] == x;
    assert x[..1] == x[..0] + [x[0]] && x[..2] == x[..1] + [x[1]] && x[..3] == x[..2] + [x[2]];
    assert x[..4] == x[..3] + [x[3]] && x[..5] == x[..4] + [x[4]] && x[..6] == x[..5] + [x[5]];
    RunThen(s, x[..0], x[0]);
    RunThen(s, x[..1], x[1]);
    RunThen(s, x[..2], x[2]);
    RunThen(s, x[..3], x[3]);
    RunThen(s, x[..4], x[4]);
    RunThen(s, x[..5], x[5]);
  }

  /** It happens, from an empty outbox: the first write publishes the event, the second makes it
      pending again, and the next claim will publish it once more. */
  lemma PublishedEventCanBecomePendingAgain(s: State, key: Key)
    requires Init(s) && s.base.maxAttempts == 10
    ensures
      var both := Run(Apply(s, Whole(Outbox.Enqueue(7, key, "", None, 0, 0))), TO_BOTH_READS);
      var won := Apply(both, Write(1));
      var end := Apply(won, Write(2));
      && 7 in won.base.events && won.base.events[7].status == Published
      && 7 in end.base.events && end.base.events[7].status == Pending && end.base.events[7].publishedAt == Some(0)
  {
    BothCanHaveRead(s, key);
    var both := Run(Apply(s, Whole(Outbox.Enqueue(7, key, "", None, 0, 0))), TO_BOTH_READS);
    var e :| BothHaveRead(both, e);
    SecondWriteWins(both, e);
  }

  lemma SecondWriteWins(both: State, e: Event)
    requires BothHaveRead(both, e)
    ensures
      var won := Apply(both, Write(1));
      var end := Apply(won, Write(2));
      && 7 in won.base.events && won.base.events[7].status == Published
      && 7 in end.base.events && end.base.events[7].status == Pending && end.base.events[7].publishedAt == Some(0)
  {
    hide Delay;
    var won := Apply(both, Write(1));
    assert won.readings == map[2 := e];
  }

  const TO_SPENT_AND_PENDING := [Whole(Outbox.Claim(1, 0, 1, 120, None, {})), Whole(Outbox.Send(1, false)), Read(1),
                                 Whole(Outbox.Claim(2, 120, 1, 120, None, {})), Write(1),
                                 Whole(Outbox.Claim(3, 240, 1, 120, None, {}))]

  lemma FirstFails(b: Outbox.State, e: Event)
    requires b.maxAttempts == 2 && b.events == map[7 := e] && b.workers == map[]
    requires IsEligible(e, 0, None) && e.attempts == 0
    ensures
      var c := Outbox.Apply(Outbox.Apply(b, Outbox.Claim(1, 0, 1, 120, None, {})), Outbox.Send(1, false));
      && c.maxAttempts == 2 && c.events == map[7 := e.(status := Publishing, attempts := 1, lease := Some(120))]
      && c.workers == map[1 := Delivery(0, [Claimed(7, 1)], Some(false), Tally(1, 0, 0, 0))]
  {
    TheOnlyEventIsClaimed(b.events, 7, 0);
    var c := Outbox.Apply(b, Outbox.Claim(1, 0, 1, 120, None, {}));
    assert c.events == map[7 := e.(status := Publishing, attempts := 1, lease := Some(120))];
    TheOnlyCopy(c.events, 7);
    assert c.workers == map[1 := Delivery(0, [Claimed(7, 1)], None, Tally(1, 0, 0, 0))];
  }

  lemma NextClaim(b: Outbox.State, w: Worker, now: nat, e: Event)
    requires b.events == map[7 := e] && w !in b.workers && IsEligible(e, now, None)
    ensures
      var step := Outbox.Claim(w, now, 1, 120, None, {});
      var c := Outbox.Apply(b, step);
      && c.events == map[7 := e.(status := Publishing, attempts := e.attempts + 1, lease := Some(now + 120))]
      && c.maxAttempts == b.maxAttempts && OutboxSchedule.Claims(b, step, 7)
      && forall v :: v in b.workers ==> v in c.workers && c.workers[v] == b.workers[v]
  {
    TheOnlyEventIsClaimed(b.events, 7, now);
  }

  lemma LateRelease(s: State, seen: Event, now: Event)
    requires 1 in s.base.workers && s.base.maxAttempts == 2
    requires s.base.workers[1] == Delivery(0, [Claimed(7, 1)], Some(false), Tally(1, 0, 0, 0))
    requires s.base.events == map[7 := now] && s.readings == map[1 := seen]
    requires seen.status == Publishing && seen.attempts == 1 && seen.lease == Some(120) && seen.availableAt == 0
    requires now == seen.(attempts := 2, lease := Some(240))
    ensures
      var t := Apply(s, Write(1));
      && 7 in t.base.events && t.base.events == map[7 := t.base.events[7]]
      && t.base.events[7].status == Pending && t.base.events[7].attempts == 2 && t.base.events[7].availableAt == 2
      && t.base.workers.Keys == s.base.workers.Keys && t.base.maxAttempts == 2
  {
    OutboxSchedule.CapNeverBinds(1);
    hide Delay;
    assert Power2(1) == 2;
  }

  lemma ToLateRelease(s: State, e: Event)
    requires s.readings == map[] && s.base.events == map[7 := e] && s.base.maxAttempts == 2 && s.base.workers == map[]
    requires IsEligible(e, 0, None) && e.attempts == 0 && e.availableAt == 0
    ensures
      var x := TO_SPENT_AND_PENDING;
      var t := Apply(Apply(Apply(Apply(s, x[0]), x[1]), x[2]), x[3]);
      var seen := e.(status := Publishing, attempts := 1, lease := Some(120));
      && t.base.workers.Keys == {1, 2} && t.base.maxAttempts == 2 && t.readings == map[1 := seen]
      && t.base.workers[1] == Delivery(0, [Claimed(7, 1)], Some(false), Tally(1, 0, 0, 0))
      && t.base.events == map[7 := seen.(attempts := 2, lease := Some(240))]
  {
    var x := TO_SPENT_AND_PENDING;
    FirstFails(s.base, e);
    var t := Apply(Apply(s, x[0]), x[1]);
    var seen := e.(status := Publishing, attempts := 1, lease := Some(120));
    assert t.readings == map[];
    hide Outbox.Apply;
    var u := Apply(t, x[2]);
    assert u == t.(readings := map[1 := seen]) by { FirstReads(t, seen); }
    NextClaim(u.base, 2, 120, seen);
    var v := Apply(u, x[3]);
    hide Apply;
    OnlyTwoWorkers(u, v);
  }

  lemma FirstReads(s: State, e: Event)
    requires s.readings == map[] && s.base.events == map[7 := e] && e.status == Publishing && s.base.maxAttempts == 2
    requires s.base.workers == map[1 := Delivery(0, [Claimed(7, 1)], Some(false), Tally(1, 0, 0, 0))]
    ensures Apply(s, Read(1)) == s.(readings := map[1 := e])
  {
    hide Delay;
  }

  /** Without a crash and without a claim of a spent publishing event: the first worker reads the event,
      the second claims it, the first write makes it pending with both attempts used, and the third claim
      is a third attempt. */
  lemma OverlapCanExceedTheMaximum(s: State, key: Key)
    requires Init(s) && s.base.maxAttempts == 2
    ensures
      var start := Apply(s, Whole(Outbox.Enqueue(7, key, "", None, 0, 0)));
      var spent, end := Run(start, TO_SPENT_AND_PENDING[..5]), Run(start, TO_SPENT_AND_PENDING);
      && 7 in spent.base.events && spent.base.events[7].status == Pending && spent.base.events[7].attempts == 2
      && 7 in end.base.events && end.base.events[7].attempts == 3 > s.base.maxAttempts
  {
    var x := TO_SPENT_AND_PENDING;
    var e := EnqueuedEvent(Outbox.Enqueue(7, key, "", None, 0, 0));
    var t0 := Apply(s, Whole(Outbox.Enqueue(7, key, "", None, 0, 0)));
    assert t0.base.events == map[7 := e] && t0.readings == map[];
    hide Outbox.Apply, AfterWrite, AfterRead;
    ToLateRelease(t0, e);
    var t4 := Apply(Apply(Apply(Apply(t0, x[0]), x[1]), x[2]), x[3]);
    var seen := e.(status := Publishing, attempts := 1, lease := Some(120));
    LateRelease(t4, seen, seen.(attempts := 2, lease := Some(240)));
    var t5 := Apply(t4, x[4]);
    NextClaim(t5.base, 3, 240, t5.base.events[7]);
    var t6 := Apply(t5, x[5]);
    assert t6.base == Outbox.Apply(t5.base, x[5].step);
    hide Apply;
    SixSteps(t0, x);
    FiveSteps(t0, x[..5]);
  }

  lemma OnlyTwoWorkers(s: State, t: State)
    requires s.base.workers.Keys == {1} && t == Apply(s, Whole(Outbox.Claim(2, 120, 1, 120, None, {})))
    ensures t.base.workers.Keys == {1, 2}
  {
    hide Batch, Copies;
  }

  lemma FiveSteps(s: State, x: seq<Step>)
    requires |x| == 5
    ensures Run(s, x) == Apply(Apply(Apply(Apply(Apply(s, x[0]), x[1]), x[2]), x[3]), x[4])
  {
    hide Apply;
    assert x[..0] == [] && x[..5] == x;
    assert x[..1] == x[..0] + [x[0]] && x[..2] == x[..1] + [x[1]] && x[..3] == x[..2] + [x[2]];
    assert x[..4] == x[..3] + [x[3]] && x[..5] == x[..4] + [x[4]];
    RunThen(s, x[..0], x[0]);
    RunThen(s, x[..1], x[1]);
    RunThen(s, x[..2], x[2]);
    RunThen(s, x[..3], x[3]);
    RunThen(s, x[..4], x[4]);
  }
}
