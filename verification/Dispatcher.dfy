/**
 The schedule dispatcher and idempotent commits, in every interleaving of any number of workers, with a
 crash possible after each step (services/api/src/worker.ts, `dispatchOneSchedule`;
 services/api/src/domain/relay-service.ts, `triggerSchedule`, `updateSchedule` and the other callers of
 `commitMessageRun`).

 `next(timing, now)` is the cron search, None where it throws; all that is used of it is that its
 result is later than `now`, which CronSearch proves.
 */
module Dispatcher {
  import opened Wrappers
  import opened EventLog
  import opened Repository

  type Search = (Label, int) -> Option<int>

  ghost predicate Forward(next: Search) {
    forall timing, now :: next(timing, now).Some? ==> next(timing, now).value > now
  }

  /** Where a trigger stands: it holds the copy it was handed, and then has committed the run. */
  datatype Phase = Phase(id: Id, copy: Schedule, due: int, webhook: bool, committed: bool)

  /** `ledger` lists the commits that created something, oldest first; it is history only. */
  datatype System = System(store: Store, now: int, workers: map<Id, Phase>, ledger: seq<Commit>)

  datatype Step =
    | Tick(ms: nat)
    | ClaimDue(worker: Id, workspace: Id, id: Id)
    | OpenWebhook(worker: Id, id: Id)
    | Trigger(worker: Id, commit: Commit)
    | Advance(worker: Id)
    | Release(worker: Id)
    | Crash(worker: Id)
    | Create(id: Id, schedule: Schedule)
    | Update(id: Id, schedule: Schedule)
    | Delete(id: Id)
    | Send(commit: Commit)
    | TouchRun(id: Id, run: Run)
    | TouchJob(id: Id, job: Job)
    | ForgetMessages(ids: set<Id>)
    | Emit(event: NewEvent)

  ghost predicate DistinctIds(a: Commit, b: Commit) {
    a.messageId != b.messageId && a.runId != b.runId && a.jobId != b.jobId
  }

  /** Generated ids are never reused, and a commit's two events announce its message and its run. */
  ghost predicate FreshCommit(s: System, c: Commit) {
    && (forall i :: 0 <= i < |s.ledger| ==> DistinctIds(s.ledger[i], c))
    && c.job.runId == c.runId && c.run.triggerMessage == c.messageId && c.message.operation == c.key
    && |c.events| == 2
    && c.events[0].kind == MessageCreated
    && c.events[1].kind == RunCreated && c.events[1].payload.Some? && c.events[1].payload.value.id == c.runId
  }

  /** The next time that a write of a schedule stores; where the search throws there is no write. */
  predicate NextTime(next: Search, s: Schedule, now: int) {
    if s.enabled && s.cron then s.nextRunAt.Some? && next(s.timing, now) == s.nextRunAt else s.nextRunAt == None
  }

  /** `updateSchedule` keeps the stored time unless the timing changed or there is none. */
  predicate UpdatedTime(next: Search, current: Schedule, s: Schedule, now: int) {
    var timingChanged := s.cron != current.cron || s.timing != current.timing || (!current.enabled && s.enabled);
    if s.enabled && s.cron && !timingChanged && current.nextRunAt.Some? then s.nextRunAt == current.nextRunAt
    else NextTime(next, s, now)
  }

  ghost predicate Enabled(next: Search, s: System, step: Step) {
    match step
    case Tick(_) => true
    case ClaimDue(w, workspace, id) => w !in s.workers && MayClaimSchedule(s.store, workspace, s.now, id)
    case OpenWebhook(w, id) =>
      w !in s.workers && id in s.store.schedules && !s.store.schedules[id].cron && s.store.schedules[id].enabled
    case Trigger(w, c) =>
      && w in s.workers && !s.workers[w].committed && FreshCommit(s, c)
      && (if s.workers[w].webhook then c.key.WebhookKey? else c.key == DueKey(s.workers[w].id, s.workers[w].due))
    case Advance(w) =>
      && w in s.workers && s.workers[w].committed
      && (s.workers[w].copy.enabled && s.workers[w].copy.cron ==> next(s.workers[w].copy.timing, s.now).Some?)
    case Release(w) => w in s.workers && !s.workers[w].webhook
    case Crash(w) => w in s.workers
    case Create(id, c) => id !in s.store.schedules && NextTime(next, c, s.now)
    case Update(id, c) => id in s.store.schedules && UpdatedTime(next, s.store.schedules[id], c, s.now)
    case Delete(id) => id in s.store.schedules
    case Send(c) => FreshCommit(s, c) && (c.key.ClientKey? || c.key.HelpKey?)
    case TouchRun(id, run) => id in s.store.runs && run.triggerMessage == s.store.runs[id].triggerMessage
    case TouchJob(id, job) => id in s.store.jobs && job.runId == s.store.jobs[id].runId
    case ForgetMessages(_) => true
    case Emit(e) => e.kind != RunCreated
  }

  function Committing(s: System, c: Commit): System {
    s.(store := AfterCommit(s.store, c),
       ledger := if c.key in s.store.idempotency then s.ledger else s.ledger + [c])
  }

  ghost function Apply(next: Search, s: System, step: Step): System
    requires Enabled(next, s, step)
  {
    match step
    case Tick(ms) => s.(now := s.now + ms)
    case ClaimDue(w, _, id) =>
      var c := s.store.schedules[id];
      s.(store := s.store.(locks := s.store.locks[id := Lock(s.now, w)]),
         workers := s.workers[w := Phase(id, c, c.nextRunAt.value, false, false)])
    case OpenWebhook(w, id) => s.(workers := s.workers[w := Phase(id, s.store.schedules[id], s.now, true, false)])
    case Trigger(w, c) => Committing(s, c).(workers := s.workers[w := s.workers[w].(committed := true)])
    case Advance(w) =>
      var p := s.workers[w];
      var time := if p.copy.enabled && p.copy.cron then next(p.copy.timing, s.now) else None;
      s.(store := AfterPut(s.store, p.id, p.copy.(nextRunAt := time)), workers := s.workers - {w})
    case Release(w) =>
      s.(store := s.store.(locks := s.store.locks - {s.workers[w].id}), workers := s.workers - {w})
    case Crash(w) => s.(workers := s.workers - {w})
    case Create(id, c) => s.(store := AfterPut(s.store, id, c))
    case Update(id, c) => s.(store := AfterPut(s.store, id, c))
    case Delete(id) => s.(store := AfterDelete(s.store, id))
    case Send(c) => Committing(s, c)
    case TouchRun(id, run) => s.(store := s.store.(runs := s.store.runs[id := run]))
    case TouchJob(id, job) => s.(store := s.store.(jobs := s.store.jobs[id := job]))
    case ForgetMessages(ids) => s.(store := s.store.(messages := s.store.messages - ids))
    case Emit(e) => s.(store := s.store.(events := AppendAll(s.store.events, [e])))
  }

  ghost predicate Legal(next: Search, s: System, steps: seq<Step>)
    decreases |steps|
  {
    steps == [] || (Enabled(next, s, steps[0]) && Legal(next, Apply(next, s, steps[0]), steps[1..]))
  }

  ghost function Run(next: Search, s: System, steps: seq<Step>): System
    requires Legal(next, s, steps)
    decreases |steps|
  {
    if steps == [] then s else Run(next, Apply(next, s, steps[0]), steps[1..])
  }

  function Start(now: int): System { System(EMPTY, now, map[], []) }

  // ---------- one commit per key ----------

  /** How many events announce the creation of a run. */
  function Creations(events: seq<Event>, runId: Id): nat {
    if events == [] then 0
    else
      var e := events[|events| - 1];
      Creations(events[..|events| - 1], runId) +
        (if e.kind == RunCreated && e.payload.Some? && e.payload.value.id == runId then 1 else 0)
  }

  /** What one ledger entry left in the store. */
  ghost predicate Recorded(s: Store, c: Commit) {
    && c.key in s.idempotency && s.idempotency[c.key] == Response(c.messageId, c.runId)
    && (c.messageId in s.messages ==> s.messages[c.messageId].operation == c.key)
    && c.runId in s.runs && s.runs[c.runId].triggerMessage == c.messageId
    && c.jobId in s.jobs && s.jobs[c.jobId].runId == c.runId
    && Creations(s.events, c.runId) == 1
  }

  /** The ledger's keys, run ids and job ids are exactly the store's. */
  ghost predicate Covered(s: System) {
    KeysCovered(s) && MessagesCovered(s) && RunsCovered(s) && JobsCovered(s)
  }

  ghost predicate KeysCovered(s: System) {
    forall k :: k in s.store.idempotency ==> exists i :: 0 <= i < |s.ledger| && s.ledger[i].key == k
  }

  ghost predicate MessagesCovered(s: System) {
    forall m :: m in s.store.messages ==> exists i :: 0 <= i < |s.ledger| && s.ledger[i].messageId == m
  }

  ghost predicate RunsCovered(s: System) {
    forall r :: r in s.store.runs ==> exists i :: 0 <= i < |s.ledger| && s.ledger[i].runId == r
  }

  ghost predicate JobsCovered(s: System) {
    forall j :: j in s.store.jobs ==> exists i :: 0 <= i < |s.ledger| && s.ledger[i].jobId == j
  }

  /** Keys, runs and jobs correspond one to one, entry by entry of the ledger; messages too, while kept. */
  ghost predicate OneToOne(s: System) {
    AllRecorded(s) && AllDistinct(s.ledger) && Covered(s) && CreationsKnown(s.store)
  }

  ghost predicate AllRecorded(s: System) {
    forall i {:trigger Recorded(s.store, s.ledger[i])} :: 0 <= i < |s.ledger| ==> Recorded(s.store, s.ledger[i])
  }

  ghost predicate AllDistinct(ledger: seq<Commit>) {
    forall i, j :: 0 <= i < j < |ledger| ==> DistinctIds(ledger[i], ledger[j]) && ledger[i].key != ledger[j].key
  }

  ghost predicate CreationsKnown(s: Store) {
    forall r :: Creations(s.events, r) > 0 ==> r in s.runs
  }

  lemma CreationsAppend(events: seq<Event>, e: NewEvent, runId: Id)
    ensures Creations(AppendAll(events, [e]), runId) ==
      Creations(events, runId) + if e.kind == RunCreated && e.payload.Some? && e.payload.value.id == runId then 1 else 0
  {
    var after := events + [Stored(events, |events|, e)];
    assert [e][1..] == [];
    assert AppendAll(events, [e]) == AppendAll(after, []) == after;
    assert after[..|after| - 1] == events;
  }

  lemma CreationsCommit(events: seq<Event>, c: Commit, runId: Id)
    requires |c.events| == 2 && c.events[0].kind == MessageCreated
    requires c.events[1].kind == RunCreated && c.events[1].payload.Some? && c.events[1].payload.value.id == c.runId
    ensures Creations(AppendAll(events, c.events), runId) == Creations(events, runId) + if runId == c.runId then 1 else 0
  {
    var one := AppendAll(events, [c.events[0]]);
    CreationsAppend(events, c.events[0], runId);
    CreationsAppend(one, c.events[1], runId);
    assert c.events == [c.events[0], c.events[1]];
    assert c.events[1..] == [c.events[1]];
    assert [c.events[0]][1..] == [];
    assert one == events + [Stored(events, |events|, c.events[0])];
  }

  lemma RecordedAfterCommit(s: Store, c: Commit, earlier: Commit)
    requires c.key !in s.idempotency && Recorded(s, earlier) && DistinctIds(earlier, c)
    requires Creations(AfterCommit(s, c).events, earlier.runId) == Creations(s.events, earlier.runId)
    ensures Recorded(AfterCommit(s, c), earlier)
  {
  }

  lemma CommitCreations(s: System, c: Commit)
    requires OneToOne(s) && FreshCommit(s, c)
    ensures forall r :: (Creations(AppendAll(s.store.events, c.events), r) ==
                         Creations(s.store.events, r) + if r == c.runId then 1 else 0)
    ensures c.runId !in s.store.runs && Creations(s.store.events, c.runId) == 0
  {
    forall r
      ensures Creations(AppendAll(s.store.events, c.events), r) ==
        Creations(s.store.events, r) + if r == c.runId then 1 else 0
    {
      CreationsCommit(s.store.events, c, r);
    }
  }

  lemma CommitRecords(s: System, c: Commit, i: int)
    requires OneToOne(s) && FreshCommit(s, c) && c.key !in s.store.idempotency && 0 <= i < |s.ledger| + 1
    ensures Recorded(AfterCommit(s.store, c), (s.ledger + [c])[i])
  {
    CommitCreations(s, c);
    if i < |s.ledger| {
      assert Recorded(s.store, s.ledger[i]);
      RecordedAfterCommit(s.store, c, s.ledger[i]);
    }
  }

  lemma CommitKeepsKnown(s: System, c: Commit)
    requires OneToOne(s) && FreshCommit(s, c)
    ensures CreationsKnown(AfterCommit(s.store, c))
  {
    CommitCreations(s, c);
  }

  lemma CommitCovers(s: System, c: Commit)
    requires Covered(s) && c.key !in s.store.idempotency
    ensures Covered(Committing(s, c))
  {
    var s' := Committing(s, c);
    CoverKeys(s, s', c);
    CoverMessages(s, s', c);
    CoverRuns(s, s', c);
    CoverJobs(s, s', c);
  }

  lemma CommittingKeepsOneToOne(s: System, c: Commit)
    requires OneToOne(s) && FreshCommit(s, c)
    ensures OneToOne(Committing(s, c))
  {
    if c.key !in s.store.idempotency {
      CommitKeepsRecords(s, c);
      CommitKeepsDistinct(s, c);
      CommitKeepsKnown(s, c);
      CommitCovers(s, c);
    }
  }

  lemma CommitKeepsRecords(s: System, c: Commit)
    requires OneToOne(s) && FreshCommit(s, c) && c.key !in s.store.idempotency
    ensures AllRecorded(Committing(s, c))
  {
    forall i | 0 <= i < |s.ledger| + 1
      ensures Recorded(AfterCommit(s.store, c), (s.ledger + [c])[i])
    {
      CommitRecords(s, c, i);
    }
  }

  lemma CommitKeepsDistinct(s: System, c: Commit)
    requires AllRecorded(s) && AllDistinct(s.ledger) && FreshCommit(s, c) && c.key !in s.store.idempotency
    ensures AllDistinct(Committing(s, c).ledger)
  {
    forall i | 0 <= i < |s.ledger|
      ensures s.ledger[i].key != c.key
    {
      assert Recorded(s.store, s.ledger[i]);
    }
  }

  lemma CoverKeys(s: System, s': System, c: Commit)
    requires KeysCovered(s) && s'.ledger == s.ledger + [c]
    requires s'.store.idempotency.Keys == s.store.idempotency.Keys + {c.key}
    ensures KeysCovered(s')
  {
    forall x | x in s'.store.idempotency
      ensures exists i :: 0 <= i < |s'.ledger| && s'.ledger[i].key == x
    {
      var i :| 0 <= i <= |s.ledger| && (if i < |s.ledger| then s.ledger[i].key == x else x == c.key);
      assert s'.ledger[i].key == x;
    }
  }

  lemma CoverMessages(s: System, s': System, c: Commit)
    requires MessagesCovered(s) && s'.ledger == s.ledger + [c]
    requires s'.store.messages.Keys == s.store.messages.Keys + {c.messageId}
    ensures MessagesCovered(s')
  {
    forall x | x in s'.store.messages
      ensures exists i :: 0 <= i < |s'.ledger| && s'.ledger[i].messageId == x
    {
      var i :| 0 <= i <= |s.ledger| && (if i < |s.ledger| then s.ledger[i].messageId == x else x == c.messageId);
      assert s'.ledger[i].messageId == x;
    }
  }

  lemma CoverRuns(s: System, s': System, c: Commit)
    requires RunsCovered(s) && s'.ledger == s.ledger + [c]
    requires s'.store.runs.Keys == s.store.runs.Keys + {c.runId}
    ensures RunsCovered(s')
  {
    forall x | x in s'.store.runs
      ensures exists i :: 0 <= i < |s'.ledger| && s'.ledger[i].runId == x
    {
      var i :| 0 <= i <= |s.ledger| && (if i < |s.ledger| then s.ledger[i].runId == x else x == c.runId);
      assert s'.ledger[i].runId == x;
    }
  }

  lemma CoverJobs(s: System, s': System, c: Commit)
    requires JobsCovered(s) && s'.ledger == s.ledger + [c]
    requires s'.store.jobs.Keys == s.store.jobs.Keys + {c.jobId}
    ensures JobsCovered(s')
  {
    forall x | x in s'.store.jobs
      ensures exists i :: 0 <= i < |s'.ledger| && s'.ledger[i].jobId == x
    {
      var i :| 0 <= i <= |s.ledger| && (if i < |s.ledger| then s.ledger[i].jobId == x else x == c.jobId);
      assert s'.ledger[i].jobId == x;
    }
  }

  predicate IsCommit(step: Step) { step.Trigger? || step.Send? }

  /** What the other steps do to the parts of the store that commits write. */
  lemma OtherStep(next: Search, s: System, step: Step)
    requires Enabled(next, s, step) && !IsCommit(step)
    ensures var s' := Apply(next, s, step);
      && s'.ledger == s.ledger && s'.store.idempotency == s.store.idempotency
      && s'.store.messages.Keys <= s.store.messages.Keys
      && (forall m :: m in s'.store.messages ==> s'.store.messages[m] == s.store.messages[m])
      && s'.store.runs.Keys == s.store.runs.Keys
      && (forall r :: r in s'.store.runs ==> s'.store.runs[r].triggerMessage == s.store.runs[r].triggerMessage)
      && s'.store.jobs.Keys == s.store.jobs.Keys
      && (forall j :: j in s'.store.jobs ==> s'.store.jobs[j].runId == s.store.jobs[j].runId)
      && s'.store.events == if step.Emit? then AppendAll(s.store.events, [step.event]) else s.store.events
  {
  }

  lemma StepKeepsOneToOne(next: Search, s: System, step: Step)
    requires OneToOne(s) && Enabled(next, s, step)
    ensures OneToOne(Apply(next, s, step))
  {
    if IsCommit(step) {
      CommittingKeepsOneToOne(s, step.commit);
    } else {
      OtherStep(next, s, step);
      var s' := Apply(next, s, step);
      if step.Emit? {
        forall r ensures Creations(s'.store.events, r) == Creations(s.store.events, r) {
          CreationsAppend(s.store.events, step.event, r);
        }
      }
      Reassure(s, s');
    }
  }

  /** A step that commits nothing keeps the correspondence, as long as it only rewrites or forgets. */
  lemma Reassure(s: System, s': System)
    requires OneToOne(s) && s'.ledger == s.ledger && s'.store.idempotency == s.store.idempotency
    requires s'.store.messages.Keys <= s.store.messages.Keys
    requires forall m :: m in s'.store.messages ==> s'.store.messages[m] == s.store.messages[m]
    requires s'.store.runs.Keys == s.store.runs.Keys
    requires forall r :: r in s'.store.runs ==> s'.store.runs[r].triggerMessage == s.store.runs[r].triggerMessage
    requires s'.store.jobs.Keys == s.store.jobs.Keys
    requires forall j :: j in s'.store.jobs ==> s'.store.jobs[j].runId == s.store.jobs[j].runId
    requires forall r :: Creations(s'.store.events, r) == Creations(s.store.events, r)
    ensures OneToOne(s')
  {
    forall i | 0 <= i < |s.ledger|
      ensures Recorded(s'.store, s'.ledger[i])
    {
      assert Recorded(s.store, s.ledger[i]);
    }
  }

  // ---------- the stored next time ----------

  ghost predicate NotBefore(c: Schedule, due: int) {
    c.nextRunAt.Some? ==> due <= c.nextRunAt.value
  }

  /** A due time is in the past, and its schedule's stored next time is not earlier. */
  ghost predicate Behind(s: System, id: Id, due: int) {
    due <= s.now && (id in s.store.schedules ==> NotBefore(s.store.schedules[id], due))
  }

  ghost predicate NeverEarlier(s: System) {
    && (forall i :: 0 <= i < |s.ledger| && s.ledger[i].key.DueKey? ==>
         Behind(s, s.ledger[i].key.schedule, s.ledger[i].key.due))
    && (forall w :: w in s.workers && !s.workers[w].webhook ==> Behind(s, s.workers[w].id, s.workers[w].due))
  }

  /** Steps that write a schedule write either a time that lies ahead, or the one that is there. */
  lemma StepMovesForward(next: Search, s: System, step: Step, id: Id, due: int)
    requires Forward(next) && Enabled(next, s, step) && Behind(s, id, due)
    ensures Behind(Apply(next, s, step), id, due)
  {
  }

  lemma StepKeepsNeverEarlier(next: Search, s: System, step: Step)
    requires Forward(next) && NeverEarlier(s) && Enabled(next, s, step)
    ensures NeverEarlier(Apply(next, s, step))
  {
    var s' := Apply(next, s, step);
    forall i | 0 <= i < |s'.ledger| && s'.ledger[i].key.DueKey?
      ensures Behind(s', s'.ledger[i].key.schedule, s'.ledger[i].key.due)
    {
      if i < |s.ledger| {
        StepMovesForward(next, s, step, s.ledger[i].key.schedule, s.ledger[i].key.due);
      }
    }
  }

  // ---------- whole runs ----------

  lemma {:induction false} RunKeepsInvariants(next: Search, s: System, steps: seq<Step>)
    requires Forward(next) && OneToOne(s) && NeverEarlier(s) && Legal(next, s, steps)
    ensures OneToOne(Run(next, s, steps)) && NeverEarlier(Run(next, s, steps))
    decreases |steps|
  {
    if steps != [] {
      StepKeepsOneToOne(next, s, steps[0]);
      StepKeepsNeverEarlier(next, s, steps[0]);
      RunKeepsInvariants(next, Apply(next, s, steps[0]), steps[1..]);
    }
  }

  /** The commit in the ledger that a run, or a job, came from. */
  ghost predicate RunFrom(s: System, runId: Id, key: Key) {
    runId in s.store.runs && exists i :: 0 <= i < |s.ledger| && s.ledger[i].key == key && s.ledger[i].runId == runId
  }

  ghost predicate JobFrom(s: System, jobId: Id, key: Key) {
    jobId in s.store.jobs && exists i :: 0 <= i < |s.ledger| && s.ledger[i].key == key && s.ledger[i].jobId == jobId
  }

  ghost predicate MessageUnder(s: System, messageId: Id, key: Key) {
    messageId in s.store.messages && s.store.messages[messageId].operation == key
  }

  lemma KeyedOnce(s: System, key: Key)
    requires OneToOne(s)
    ensures forall m, n :: MessageUnder(s, m, key) && MessageUnder(s, n, key) ==> m == n
    ensures forall q, r :: RunFrom(s, q, key) && RunFrom(s, r, key) ==> q == r
    ensures forall i, j :: JobFrom(s, i, key) && JobFrom(s, j, key) ==> i == j
  {
    forall m, n | MessageUnder(s, m, key) && MessageUnder(s, n, key)
      ensures m == n
    {
      var i :| 0 <= i < |s.ledger| && s.ledger[i].messageId == m;
      var j :| 0 <= j < |s.ledger| && s.ledger[j].messageId == n;
      assert Recorded(s.store, s.ledger[i]) && Recorded(s.store, s.ledger[j]);
    }
  }

  /** In every run each pair of schedule and due time has at most one message, one run and one job. */
  lemma AtMostOncePerDueTime(next: Search, now: int, steps: seq<Step>, id: Id, due: int)
    requires Forward(next) && Legal(next, Start(now), steps)
    ensures var s, key := Run(next, Start(now), steps), DueKey(id, due);
      && (forall m, n :: MessageUnder(s, m, key) && MessageUnder(s, n, key) ==> m == n)
      && (forall q, r :: RunFrom(s, q, key) && RunFrom(s, r, key) ==> q == r)
      && (forall i, j :: JobFrom(s, i, key) && JobFrom(s, j, key) ==> i == j)
  {
    RunKeepsInvariants(next, Start(now), steps);
    KeyedOnce(Run(next, Start(now), steps), DueKey(id, due));
  }

  /** ... and the stored next time of a schedule is never earlier than a due time already committed. */
  lemma NextTimeNeverEarlier(next: Search, now: int, steps: seq<Step>, id: Id, due: int)
    requires Forward(next) && Legal(next, Start(now), steps)
    ensures var s := Run(next, Start(now), steps);
      DueKey(id, due) in s.store.idempotency && id in s.store.schedules && s.store.schedules[id].nextRunAt.Some? ==>
        due <= s.store.schedules[id].nextRunAt.value
  {
    RunKeepsInvariants(next, Start(now), steps);
    var s := Run(next, Start(now), steps);
    if DueKey(id, due) in s.store.idempotency {
      var i :| 0 <= i < |s.ledger| && s.ledger[i].key == DueKey(id, due);
      assert Behind(s, id, due);
    }
  }

  lemma KeysNameRunsAndJobs(s: System, k: Key)
    requires OneToOne(s) && k in s.store.idempotency
    ensures RunFrom(s, s.store.idempotency[k].runId, k)
    ensures exists j :: JobFrom(s, j, k) && s.store.jobs[j].runId == s.store.idempotency[k].runId
  {
    var i :| 0 <= i < |s.ledger| && s.ledger[i].key == k;
    assert Recorded(s.store, s.ledger[i]);
    assert JobFrom(s, s.ledger[i].jobId, k);
  }

  lemma RunsHaveKeys(s: System, r: Id)
    requires OneToOne(s) && r in s.store.runs
    ensures Creations(s.store.events, r) == 1
    ensures exists k :: k in s.store.idempotency && s.store.idempotency[k].runId == r
  {
    var i :| 0 <= i < |s.ledger| && s.ledger[i].runId == r;
    assert Recorded(s.store, s.ledger[i]);
  }

  lemma JobsHaveKeys(s: System, j: Id)
    requires OneToOne(s) && j in s.store.jobs
    ensures exists k :: k in s.store.idempotency && s.store.idempotency[k].runId == s.store.jobs[j].runId && JobFrom(s, j, k)
  {
    var i :| 0 <= i < |s.ledger| && s.ledger[i].jobId == j;
    assert Recorded(s.store, s.ledger[i]);
    assert JobFrom(s, j, s.ledger[i].key);
  }

  /** Each key names one run and one job of that run. */
  ghost predicate KeysAnswered(s: System) {
    forall k :: k in s.store.idempotency ==>
      && RunFrom(s, s.store.idempotency[k].runId, k)
      && exists j :: JobFrom(s, j, k) && s.store.jobs[j].runId == s.store.idempotency[k].runId
  }

  /** Each run is named by exactly one key and has exactly one creation event; each job is its run's. */
  ghost predicate RunsKeyed(s: System) {
    && (forall r :: r in s.store.runs ==>
         Creations(s.store.events, r) == 1 && exists k :: k in s.store.idempotency && s.store.idempotency[k].runId == r)
    && (forall k, l :: k in s.store.idempotency && l in s.store.idempotency && s.store.idempotency[k].runId == s.store.idempotency[l].runId ==> k == l)
    && (forall j :: j in s.store.jobs ==>
         exists k :: k in s.store.idempotency && s.store.idempotency[k].runId == s.store.jobs[j].runId && JobFrom(s, j, k))
  }

  /** Over every run of the system, runs, jobs and idempotency keys stay in one-to-one correspondence. */
  lemma RunsJobsKeysCorrespond(next: Search, now: int, steps: seq<Step>)
    requires Forward(next) && Legal(next, Start(now), steps)
    ensures KeysAnswered(Run(next, Start(now), steps)) && RunsKeyed(Run(next, Start(now), steps))
  {
    RunKeepsInvariants(next, Start(now), steps);
    Correspond(Run(next, Start(now), steps));
  }

  lemma Correspond(s: System)
    requires OneToOne(s)
    ensures KeysAnswered(s) && RunsKeyed(s)
  {
    forall k | k in s.store.idempotency
      ensures RunFrom(s, s.store.idempotency[k].runId, k)
      ensures exists j :: JobFrom(s, j, k) && s.store.jobs[j].runId == s.store.idempotency[k].runId
    {
      KeysNameRunsAndJobs(s, k);
    }
    forall r | r in s.store.runs
      ensures Creations(s.store.events, r) == 1
      ensures exists k :: k in s.store.idempotency && s.store.idempotency[k].runId == r
    {
      RunsHaveKeys(s, r);
    }
    forall j | j in s.store.jobs
      ensures exists k :: k in s.store.idempotency && s.store.idempotency[k].runId == s.store.jobs[j].runId && JobFrom(s, j, k)
    {
      JobsHaveKeys(s, j);
    }
    KeysInjective(s);
  }

  lemma OneKeyPerRun(s: System, k: Key, l: Key)
    requires AllRecorded(s) && AllDistinct(s.ledger) && KeysCovered(s)
    requires k in s.store.idempotency && l in s.store.idempotency
    requires s.store.idempotency[k].runId == s.store.idempotency[l].runId
    ensures k == l
  {
    var i :| 0 <= i < |s.ledger| && s.ledger[i].key == k;
    var j :| 0 <= j < |s.ledger| && s.ledger[j].key == l;
    assert Recorded(s.store, s.ledger[i]) && Recorded(s.store, s.ledger[j]);
  }

  lemma KeysInjective(s: System)
    requires OneToOne(s)
    ensures forall k, l :: k in s.store.idempotency && l in s.store.idempotency && s.store.idempotency[k].runId == s.store.idempotency[l].runId ==> k == l
  {
    forall k, l | k in s.store.idempotency && l in s.store.idempotency && s.store.idempotency[k].runId == s.store.idempotency[l].runId
      ensures k == l
    {
      OneKeyPerRun(s, k, l);
    }
  }

  /** Once a key has answered, it answers the same for ever, and committing under it again changes nothing. */
  lemma {:induction false} FirstResponseStays(next: Search, s: System, steps: seq<Step>, key: Key, c: Commit)
    requires Legal(next, s, steps) && key in s.store.idempotency && c.key == key
    ensures var s' := Run(next, s, steps);
      && key in s'.store.idempotency && s'.store.idempotency[key] == s.store.idempotency[key]
      && AfterCommit(s'.store, c) == s'.store
    decreases |steps|
  {
    if steps != [] {
      if !IsCommit(steps[0]) {
        OtherStep(next, s, steps[0]);
      }
      FirstResponseStays(next, Apply(next, s, steps[0]), steps[1..], key, c);
    }
  }
}
