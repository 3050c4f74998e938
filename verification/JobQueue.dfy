/**
 Workers on the job queue: claiming, settling, retrying and crashing, in every interleaving
 (services/api/src/database/memory-repository.ts, `claim`, `completeJob`, `failJob`;
 services/api/src/worker.ts, `poll` and `process`).

 A token is a `process` call under way. It remembers the attempt number of the copy it was handed,
 which decides whether a failure is retried, and it may settle long after its lock went stale.
 */
module JobQueue {
  import opened Wrappers
  import opened Repository

  datatype Token = Token(job: Id, attempt: nat, claimedAt: int)

  /** What happened to a job, in order: the history that the queue itself does not keep. */
  datatype Entry =
    | Claim(job: Id, time: int)
    | Retry(job: Id, retryAt: int)
    | Fail(job: Id)
    | Complete(job: Id)

  datatype State = State(jobs: map<Id, Job>, tokens: set<Token>, now: int, log: seq<Entry>)

  datatype Step =
    | Enqueue(id: Id, job: Job)
    | Tick(ms: nat)
    | Take(worker: Id, workspace: Id, kinds: set<Label>, id: Id)
    | Finish(token: Token)
    | GiveUp(token: Token, fatal: bool)
    | Crash(token: Token)

  function Pow2(n: nat): nat { if n == 0 then 1 else 2 * Pow2(n - 1) }

  /** The backoff of `process`: two retries, after 500 ms and one second, then none. */
  function RetryAt(t: Token, fatal: bool, now: int): Option<int> {
    if !fatal && t.attempt < 3 then Some(now + 250 * Pow2(t.attempt)) else None
  }

  predicate Enabled(s: State, step: Step) {
    match step
    case Enqueue(id, job) => id !in s.jobs && job.status == Queued && job.attempts == 0
    case Tick(_) => true
    case Take(_, workspace, kinds, id) => MayClaim(s.jobs, workspace, kinds, s.now, id)
    case Finish(t) => t in s.tokens && t.job in s.jobs
    case GiveUp(t, _) => t in s.tokens && t.job in s.jobs
    case Crash(t) => t in s.tokens
  }

  function Apply(s: State, step: Step): State
    requires Enabled(s, step)
  {
    match step
    case Enqueue(id, job) => s.(jobs := s.jobs[id := job])
    case Tick(ms) => s.(now := s.now + ms)
    case Take(worker, _, _, id) =>
      s.(jobs := s.jobs[id := Claimed(s.jobs[id], worker, s.now)],
         tokens := s.tokens + {Token(id, s.jobs[id].attempts + 1, s.now)},
         log := s.log + [Claim(id, s.now)])
    case Finish(t) =>
      s.(jobs := s.jobs[t.job := Settled(s.jobs[t.job])], tokens := s.tokens - {t}, log := s.log + [Complete(t.job)])
    case GiveUp(t, fatal) =>
      var retryAt := RetryAt(t, fatal, s.now);
      s.(jobs := s.jobs[t.job := Retried(s.jobs[t.job], Label(0), retryAt)],
         tokens := s.tokens - {t},
         log := s.log + [if retryAt.Some? then Retry(t.job, retryAt.value) else Fail(t.job)])
    case Crash(t) => s.(tokens := s.tokens - {t})
  }

  predicate Legal(s: State, steps: seq<Step>)
    decreases |steps|
  {
    steps == [] || (Enabled(s, steps[0]) && Legal(Apply(s, steps[0]), steps[1..]))
  }

  function Run(s: State, steps: seq<Step>): State
    requires Legal(s, steps)
    decreases |steps|
  {
    if steps == [] then s else Run(Apply(s, steps[0]), steps[1..])
  }

  function Start(now: int): State { State(map[], {}, now, []) }

  function Claims(log: seq<Entry>, id: Id): nat {
    if log == [] then 0
    else Claims(log[..|log| - 1], id) + if log[|log| - 1].Claim? && log[|log| - 1].job == id then 1 else 0
  }

  // ---------- why a job may be claimed again ----------

  ghost predicate IsClaim(log: seq<Entry>, id: Id, i: int) {
    0 <= i < |log| && log[i].Claim? && log[i].job == id
  }

  /** Between two claims lies a retry that had come due, or more than the lock's five minutes. */
  ghost predicate Justified(log: seq<Entry>, id: Id, i: int, j: int)
    requires IsClaim(log, id, i) && IsClaim(log, id, j)
  {
    || log[i].time + LOCK_MS < log[j].time
    || exists k :: i < k < j && log[k].Retry? && log[k].job == id && log[k].retryAt <= log[j].time
  }

  ghost predicate Separated(log: seq<Entry>) {
    forall id, i, j :: IsClaim(log, id, i) && IsClaim(log, id, j) && i < j ==> Justified(log, id, i, j)
  }

  /** `k` is the last entry about the job. */
  ghost predicate IsLast(log: seq<Entry>, id: Id, k: int) {
    0 <= k < |log| && log[k].job == id && forall m :: k < m < |log| ==> log[m].job != id
  }

  ghost predicate Untouched(log: seq<Entry>, id: Id) {
    forall m :: 0 <= m < |log| ==> log[m].job != id
  }

  /** The job's fields agree with its history. */
  ghost predicate Explained(log: seq<Entry>, id: Id, job: Job) {
    && job.attempts == Claims(log, id)
    && (job.status == Queued ==>
         Untouched(log, id) || exists k :: IsLast(log, id, k) && log[k] == Retry(id, job.availableAt))
    && (job.status == Running ==>
         job.lockedAt.Some? && exists k :: IsLast(log, id, k) && log[k] == Claim(id, job.lockedAt.value))
  }

  ghost predicate TimesAscend(log: seq<Entry>, now: int) {
    && (forall i :: 0 <= i < |log| && log[i].Claim? ==> log[i].time <= now)
    && (forall i, j :: 0 <= i < j < |log| && log[i].Claim? && log[j].Claim? ==> log[i].time <= log[j].time)
  }

  ghost predicate Inv(s: State) {
    && (forall id :: id in s.jobs ==> Explained(s.log, id, s.jobs[id]))
    && (forall id :: id !in s.jobs ==> Untouched(s.log, id))
    && TimesAscend(s.log, s.now)
    && Separated(s.log)
  }

  lemma {:induction false} UntouchedNeverClaimed(log: seq<Entry>, id: Id)
    requires Untouched(log, id)
    ensures Claims(log, id) == 0
  {
    if log != [] {
      UntouchedNeverClaimed(log[..|log| - 1], id);
    }
  }

  lemma LastElsewhere(log: seq<Entry>, id: Id, e: Entry, was: Entry)
    requires e.job != id
    requires exists k :: IsLast(log, id, k) && log[k] == was
    ensures exists k :: IsLast(log + [e], id, k) && (log + [e])[k] == was
  {
    var k :| IsLast(log, id, k) && log[k] == was;
    assert IsLast(log + [e], id, k) && (log + [e])[k] == was;
  }

  lemma ClaimsElsewhere(log: seq<Entry>, id: Id, e: Entry)
    requires e.job != id
    ensures Claims(log + [e], id) == Claims(log, id)
  {
    assert (log + [e])[..|log + [e]| - 1] == log;
  }

  /** An entry about another job leaves a job's explanation alone. */
  lemma ExplainedElsewhere(log: seq<Entry>, id: Id, job: Job, e: Entry)
    requires Explained(log, id, job) && e.job != id
    ensures Explained(log + [e], id, job)
  {
    ClaimsElsewhere(log, id, e);
    if job.status == Queued && !Untouched(log, id) {
      LastElsewhere(log, id, e, Retry(id, job.availableAt));
    }
    if job.status == Running {
      LastElsewhere(log, id, e, Claim(id, job.lockedAt.value));
    }
  }

  lemma ExplainedByEntry(log: seq<Entry>, id: Id, before: Job, job: Job, e: Entry)
    requires Explained(log, id, before) && e.job == id
    requires job.attempts == before.attempts + if e.Claim? then 1 else 0
    requires job.status == Queued ==> e == Retry(id, job.availableAt)
    requires job.status == Running ==> job.lockedAt.Some? && e == Claim(id, job.lockedAt.value)
    ensures Explained(log + [e], id, job)
  {
    var after := log + [e];
    assert after[..|after| - 1] == log;
    assert IsLast(after, id, |log|) && after[|log|] == e;
  }

  /** Entries other than claims keep the claims apart. */
  lemma SeparatedByOther(log: seq<Entry>, e: Entry)
    requires Separated(log) && !e.Claim?
    ensures Separated(log + [e])
  {
    var after := log + [e];
    forall id, i, j | IsClaim(after, id, i) && IsClaim(after, id, j) && i < j
      ensures Justified(after, id, i, j)
    {
      assert IsClaim(log, id, i) && IsClaim(log, id, j);
      JustifiedExtends(log, id, i, j, e);
    }
  }

  lemma JustifiedExtends(log: seq<Entry>, id: Id, i: int, j: int, e: Entry)
    requires IsClaim(log, id, i) && IsClaim(log, id, j) && Justified(log, id, i, j)
    ensures IsClaim(log + [e], id, i) && IsClaim(log + [e], id, j) && Justified(log + [e], id, i, j)
  {
    var after := log + [e];
    if !(log[i].time + LOCK_MS < log[j].time) {
      var k :| i < k < j && log[k].Retry? && log[k].job == id && log[k].retryAt <= log[j].time;
      assert after[k] == log[k];
    }
  }

  /** A claim of a claimable job is justified against every earlier claim of it. */
  lemma ClaimIsJustified(s: State, id: Id, workspace: Id, kinds: set<Label>, i: int)
    requires Inv(s) && id in s.jobs && Claimable(s.jobs[id], workspace, kinds, s.now) && IsClaim(s.log, id, i)
    ensures IsClaim(s.log + [Claim(id, s.now)], id, i) && IsClaim(s.log + [Claim(id, s.now)], id, |s.log|)
    ensures Justified(s.log + [Claim(id, s.now)], id, i, |s.log|)
  {
    var after := s.log + [Claim(id, s.now)];
    var job := s.jobs[id];
    assert Explained(s.log, id, job);
    if job.status == Queued {
      var k :| IsLast(s.log, id, k) && s.log[k] == Retry(id, job.availableAt);
      assert i < k && after[k] == s.log[k];
    } else {
      var k :| IsLast(s.log, id, k) && s.log[k] == Claim(id, job.lockedAt.value);
      assert i <= k && s.log[i].time <= s.log[k].time;
    }
  }

  lemma SeparatedByClaim(s: State, id: Id, workspace: Id, kinds: set<Label>)
    requires Inv(s) && id in s.jobs && Claimable(s.jobs[id], workspace, kinds, s.now)
    ensures Separated(s.log + [Claim(id, s.now)])
  {
    var after := s.log + [Claim(id, s.now)];
    forall other, i, j | IsClaim(after, other, i) && IsClaim(after, other, j) && i < j
      ensures Justified(after, other, i, j)
    {
      assert IsClaim(s.log, other, i);
      if j < |s.log| {
        assert IsClaim(s.log, other, j);
        JustifiedExtends(s.log, other, i, j, Claim(id, s.now));
      } else {
        ClaimIsJustified(s, id, workspace, kinds, i);
      }
    }
  }

  /** The entry a step writes, if it writes one. */
  function EntryOf(s: State, step: Step): Option<Entry>
    requires Enabled(s, step)
  {
    match step
    case Take(_, _, _, id) => Some(Claim(id, s.now))
    case Finish(t) => Some(Complete(t.job))
    case GiveUp(t, fatal) =>
      var retryAt := RetryAt(t, fatal, s.now);
      Some(if retryAt.Some? then Retry(t.job, retryAt.value) else Fail(t.job))
    case _ => None
  }

  lemma QuietStepKeepsInv(s: State, step: Step)
    requires Inv(s) && Enabled(s, step) && EntryOf(s, step).None?
    ensures Inv(Apply(s, step))
  {
    if step.Enqueue? {
      UntouchedNeverClaimed(s.log, step.id);
    }
  }

  /** What a step that writes an entry does to the jobs. */
  lemma EntryChanges(s: State, step: Step, id: Id)
    requires Enabled(s, step) && EntryOf(s, step).Some? && id in s.jobs
    ensures
      var e, after := EntryOf(s, step).value, Apply(s, step);
      && after.log == s.log + [e] && id in after.jobs
      && (id != e.job ==> after.jobs[id] == s.jobs[id])
      && (id == e.job ==>
            && after.jobs[id].attempts == s.jobs[id].attempts + (if e.Claim? then 1 else 0)
            && (after.jobs[id].status == Queued ==> e == Retry(id, after.jobs[id].availableAt))
            && (after.jobs[id].status == Running ==>
                  after.jobs[id].lockedAt.Some? && e == Claim(id, after.jobs[id].lockedAt.value)))
  {
  }

  /** An entry about a job explains what the step made of it, and leaves the other jobs explained. */
  lemma EntryExplains(s: State, step: Step, id: Id)
    requires id in s.jobs && Explained(s.log, id, s.jobs[id]) && Enabled(s, step) && EntryOf(s, step).Some?
    ensures Explained(Apply(s, step).log, id, Apply(s, step).jobs[id])
  {
    var e := EntryOf(s, step).value;
    EntryChanges(s, step, id);
    if id == e.job {
      ExplainedByEntry(s.log, id, s.jobs[id], Apply(s, step).jobs[id], e);
    } else {
      ExplainedElsewhere(s.log, id, s.jobs[id], e);
    }
  }

  lemma EntrySeparates(s: State, step: Step)
    requires Inv(s) && Enabled(s, step) && EntryOf(s, step).Some?
    ensures Separated(Apply(s, step).log)
  {
    if step.Take? {
      SeparatedByClaim(s, step.id, step.workspace, step.kinds);
    } else {
      SeparatedByOther(s.log, EntryOf(s, step).value);
    }
  }

  lemma StepKeepsInv(s: State, step: Step)
    requires Inv(s) && Enabled(s, step)
    ensures Inv(Apply(s, step))
  {
    if EntryOf(s, step).None? {
      QuietStepKeepsInv(s, step);
    } else {
      assert Apply(s, step).log == s.log + [EntryOf(s, step).value];
      forall id | id in s.jobs
        ensures Explained(Apply(s, step).log, id, Apply(s, step).jobs[id])
      {
        EntryExplains(s, step, id);
      }
      EntrySeparates(s, step);
    }
  }

  lemma {:induction false} RunKeepsInv(s: State, steps: seq<Step>)
    requires Inv(s) && Legal(s, steps)
    ensures Inv(Run(s, steps))
    decreases |steps|
  {
    if steps != [] {
      StepKeepsInv(s, steps[0]);
      RunKeepsInv(Apply(s, steps[0]), steps[1..]);
    }
  }

  /** In every run, any two claims of a job are separated by a retry that had come due or by a stale lock,
      and `attempts` counts the claims. */
  lemma ClaimsAreSeparated(now: int, steps: seq<Step>)
    requires Legal(Start(now), steps)
    ensures var s := Run(Start(now), steps);
      && (forall id, i, j :: IsClaim(s.log, id, i) && IsClaim(s.log, id, j) && i < j ==> Justified(s.log, id, i, j))
      && (forall id :: id in s.jobs ==> s.jobs[id].attempts == Claims(s.log, id))
  {
    RunKeepsInv(Start(now), steps);
    var s := Run(Start(now), steps);
    assert forall id :: id in s.jobs ==> Explained(s.log, id, s.jobs[id]);
  }

  // ---------- when a job may be claimed next ----------

  /** Whoever processes a job may complete it, fail or crash at any time, however late. */
  lemma HolderMayEnd(s: State, t: Token, fatal: bool)
    requires t in s.tokens
    ensures Enabled(s, Crash(t)) && Apply(s, Crash(t)) == s.(tokens := s.tokens - {t})
    ensures t.job in s.jobs ==> Enabled(s, Finish(t)) && Enabled(s, GiveUp(t, fatal))
  {
  }

  /** A queued job may be claimed from its time on, in its workspace and under its kind. */
  lemma EnqueuedFrom(s: State, id: Id, job: Job, workspace: Id, kinds: set<Label>, time: int)
    requires Enabled(s, Enqueue(id, job))
    ensures Claimable(Apply(s, Enqueue(id, job)).jobs[id], workspace, kinds, time) <==>
      workspace == job.workspace && job.kind in kinds && job.availableAt <= time
  {
  }

  /** A claim takes one more attempt, under the worker's name and the time, and keeps everybody out until more than
      five minutes have passed. */
  lemma TakenFor(s: State, worker: Id, workspace: Id, kinds: set<Label>, id: Id, other: Id, others: set<Label>, time: int)
    requires Enabled(s, Take(worker, workspace, kinds, id))
    ensures
      var job, after := s.jobs[id], Apply(s, Take(worker, workspace, kinds, id));
      && after.jobs[id] == Job(job.workspace, job.kind, job.runId, Running, job.attempts + 1, job.availableAt,
                               Some(s.now), Some(worker), job.error, job.createdAt)
      && after.jobs == s.jobs[id := after.jobs[id]]
      && Token(id, job.attempts + 1, s.now) in after.tokens
      && (Claimable(after.jobs[id], other, others, time) <==>
            other == job.workspace && job.kind in others && time > s.now + 300_000)
  {
  }

  /** A completed job may never be claimed. */
  lemma CompletedNever(s: State, t: Token, workspace: Id, kinds: set<Label>, time: int)
    requires Enabled(s, Finish(t))
    ensures
      var after := Apply(s, Finish(t));
      && after.jobs == s.jobs[t.job := s.jobs[t.job].(status := Completed)]
      && !Claimable(after.jobs[t.job], workspace, kinds, time)
  {
  }

  /** How long a failed attempt is put off: half a second after the first, a second after the second, and for good
      after the third or a fatal one. */
  function Delay(attempt: nat, fatal: bool): Option<int> {
    if fatal || attempt > 2 then None
    else if attempt == 1 then Some(500)
    else if attempt == 2 then Some(1_000)
    else Some(250)
  }

  /** A failed job may be claimed again exactly once its delay is over, and loses its lock. */
  lemma FailedUntil(s: State, t: Token, fatal: bool, workspace: Id, kinds: set<Label>, time: int)
    requires Enabled(s, GiveUp(t, fatal))
    ensures
      var job, after, delay := s.jobs[t.job], Apply(s, GiveUp(t, fatal)), Delay(t.attempt, fatal);
      && after.jobs == s.jobs[t.job := after.jobs[t.job]]
      && after.jobs[t.job].error.Some?
      && after.jobs[t.job] == Job(job.workspace, job.kind, job.runId, if delay.Some? then Queued else Failed, job.attempts,
                                  if delay.Some? then s.now + delay.value else job.availableAt, None, None,
                                  after.jobs[t.job].error, job.createdAt)
      && (Claimable(after.jobs[t.job], workspace, kinds, time) <==>
            workspace == job.workspace && job.kind in kinds && delay.Some? && time >= s.now + delay.value)
  {
    assert Pow2(0) == 1 && Pow2(1) == 2 && Pow2(2) == 4;
  }

  // ---------- when no processing outlasts its lock ----------

  ghost predicate OnTime(s: State) {
    forall t :: t in s.tokens ==> s.now <= t.claimedAt + LOCK_MS
  }

  /** No worker crashes, and each settles its job before the lock goes stale. */
  ghost predicate Timely(s: State, steps: seq<Step>)
    requires Legal(s, steps)
    decreases |steps|
  {
    steps == [] || (!steps[0].Crash? && OnTime(Apply(s, steps[0])) && Timely(Apply(s, steps[0]), steps[1..]))
  }

  /** A token holds the job it names: the job runs, under that token's claim. */
  ghost predicate Holds(s: State, t: Token) {
    && t.job in s.jobs
    && s.jobs[t.job].status == Running
    && s.jobs[t.job].lockedAt == Some(t.claimedAt)
    && s.jobs[t.job].attempts == t.attempt
  }

  ghost predicate Exclusive(s: State) {
    && (forall t :: t in s.tokens ==> Holds(s, t))
    && (forall id :: id in s.jobs && s.jobs[id].status == Running ==> exists t :: t in s.tokens && t.job == id)
    && (forall id :: id in s.jobs ==> s.jobs[id].attempts <= 3 && (s.jobs[id].status == Queued ==> s.jobs[id].attempts < 3))
  }

  lemma RunningIsLocked(s: State, id: Id, workspace: Id, kinds: set<Label>)
    requires Exclusive(s) && OnTime(s) && id in s.jobs && s.jobs[id].status == Running
    ensures !Claimable(s.jobs[id], workspace, kinds, s.now)
  {
    var t :| t in s.tokens && t.job == id;
    assert Holds(s, t);
  }

  lemma TimelyStep(s: State, step: Step)
    requires Exclusive(s) && OnTime(s) && Enabled(s, step) && !step.Crash?
    ensures Exclusive(Apply(s, step))
    ensures forall id :: id in s.jobs && s.jobs[id].status in {Completed, Failed} ==> Apply(s, step).jobs[id] == s.jobs[id]
  {
    var s' := Apply(s, step);
    match step
    case Take(worker, workspace, kinds, id) =>
      if s.jobs[id].status == Running {
        RunningIsLocked(s, id, workspace, kinds);
      }
      assert Token(id, s.jobs[id].attempts + 1, s.now) in s'.tokens;
      forall other | other in s'.jobs && s'.jobs[other].status == Running && other != id
        ensures exists t :: t in s'.tokens && t.job == other
      {
        var t :| t in s.tokens && t.job == other;
        assert t in s'.tokens;
      }
      forall t | t in s'.tokens ensures Holds(s', t) {
        if t in s.tokens { assert Holds(s, t); }
      }
    case Finish(_) => SettleStep(s, step, step.token);
    case GiveUp(_, _) => SettleStep(s, step, step.token);
    case Enqueue(_, _) =>
      forall t | t in s'.tokens ensures Holds(s', t) { assert Holds(s, t); }
    case Tick(_) =>
      forall t | t in s'.tokens ensures Holds(s', t) { assert Holds(s, t); }
  }

  lemma SettleStep(s: State, step: Step, token: Token)
    requires Exclusive(s) && Enabled(s, step)
    requires (step.Finish? || step.GiveUp?) && step.token == token
    ensures Exclusive(Apply(s, step))
    ensures forall id :: id in s.jobs && s.jobs[id].status in {Completed, Failed} ==> Apply(s, step).jobs[id] == s.jobs[id]
  {
    var s' := Apply(s, step);
    assert Holds(s, token);
    forall t | t in s'.tokens ensures Holds(s', t) {
      assert Holds(s, t);
      assert t.job == token.job ==> t == token;
    }
    forall other | other in s'.jobs && s'.jobs[other].status == Running
      ensures exists t :: t in s'.tokens && t.job == other
    {
      var t :| t in s.tokens && t.job == other;
      assert t in s'.tokens;
    }
  }

  lemma {:induction false} TimelyRun(s: State, steps: seq<Step>)
    requires Exclusive(s) && OnTime(s) && Legal(s, steps) && Timely(s, steps)
    ensures Exclusive(Run(s, steps))
    ensures forall id :: id in s.jobs && s.jobs[id].status in {Completed, Failed} ==>
      id in Run(s, steps).jobs && Run(s, steps).jobs[id] == s.jobs[id]
    decreases |steps|
  {
    if steps != [] {
      TimelyStep(s, steps[0]);
      TimelyRun(Apply(s, steps[0]), steps[1..]);
    }
  }

  /** If no processing outlasts its lock, a job is claimed at most three times, never by two workers at
      once, and whatever happens after it completed or failed leaves it as it is. */
  lemma TimelyQueue(now: int, steps: seq<Step>, more: seq<Step>)
    requires Legal(Start(now), steps) && Timely(Start(now), steps) && OnTime(Run(Start(now), steps))
    requires Legal(Run(Start(now), steps), more) && Timely(Run(Start(now), steps), more)
    ensures var s := Run(Start(now), steps);
      && (forall id :: id in s.jobs ==> Claims(s.log, id) <= 3)
      && (forall t, u :: t in s.tokens && u in s.tokens && t.job == u.job ==> t == u)
      && (forall id :: id in s.jobs && s.jobs[id].status in {Completed, Failed} ==>
           id in Run(s, more).jobs && Run(s, more).jobs[id] == s.jobs[id])
  {
    var s := Run(Start(now), steps);
    TimelyRun(Start(now), steps);
    ClaimsAreSeparated(now, steps);
    TimelyRun(s, more);
    assert forall t :: t in s.tokens ==> Holds(s, t);
  }

  // ---------- when a settled job stays settled ----------

  predicate HasStatus(s: State, id: Id, status: Status) {
    id in s.jobs && s.jobs[id].status == status
  }

  /** No processing of the job is under way. */
  ghost predicate Abandoned(s: State, id: Id) {
    forall t :: t in s.tokens ==> t.job != id
  }

  /** The processing of the job that is under way would not be retried. */
  ghost predicate LastAttempts(s: State, id: Id) {
    forall t :: t in s.tokens && t.job == id ==> t.attempt >= 3
  }

  lemma {:induction false} AbandonedStays(s: State, steps: seq<Step>, id: Id)
    requires HasStatus(s, id, Completed) && Abandoned(s, id) && Legal(s, steps)
    ensures HasStatus(Run(s, steps), id, Completed)
    decreases |steps|
  {
    if steps != [] {
      AbandonedStays(Apply(s, steps[0]), steps[1..], id);
    }
  }

  lemma {:induction false} LastAttemptsSettle(s: State, steps: seq<Step>, id: Id)
    requires id in s.jobs && s.jobs[id].status in {Completed, Failed} && LastAttempts(s, id) && Legal(s, steps)
    ensures id in Run(s, steps).jobs && Run(s, steps).jobs[id].status in {Completed, Failed}
    decreases |steps|
  {
    if steps != [] {
      LastAttemptsSettle(Apply(s, steps[0]), steps[1..], id);
    }
  }

  lemma OneStep(s: State, step: Step)
    requires Enabled(s, step)
    ensures Legal(s, [step]) && Run(s, [step]) == Apply(s, step)
  {
    Unroll(s, [step]);
    assert [step][1..] == [];
  }

  /** A completed job stays completed, whatever happens, exactly if no processing of it is under way. */
  lemma CompletionIsFinalExactly(s: State, id: Id)
    requires HasStatus(s, id, Completed)
    ensures (forall steps :: Legal(s, steps) ==> HasStatus(Run(s, steps), id, Completed)) <==> Abandoned(s, id)
  {
    if Abandoned(s, id) {
      forall steps | Legal(s, steps)
        ensures HasStatus(Run(s, steps), id, Completed)
      {
        AbandonedStays(s, steps, id);
      }
    } else {
      var t :| t in s.tokens && t.job == id;
      OneStep(s, GiveUp(t, true));
      assert !HasStatus(Run(s, [GiveUp(t, true)]), id, Completed);
    }
  }

  /** A settled job can come back into the queue exactly if processing of it is under way that would be retried. */
  lemma ReopensExactly(s: State, id: Id)
    requires id in s.jobs && s.jobs[id].status in {Completed, Failed}
    ensures (exists steps :: Legal(s, steps) && HasStatus(Run(s, steps), id, Queued)) <==> !LastAttempts(s, id)
  {
    if LastAttempts(s, id) {
      forall steps | Legal(s, steps)
        ensures !HasStatus(Run(s, steps), id, Queued)
      {
        LastAttemptsSettle(s, steps, id);
      }
    } else {
      var t :| t in s.tokens && t.job == id && t.attempt < 3;
      OneStep(s, GiveUp(t, false));
      assert HasStatus(Run(s, [GiveUp(t, false)]), id, Queued);
    }
  }

  /** Completing a job is final exactly if whoever completes it is the only one processing it. */
  lemma FinishIsFinalExactly(s: State, t: Token)
    requires Enabled(s, Finish(t))
    ensures
      var r := Apply(s, Finish(t));
      (forall steps :: Legal(r, steps) ==> HasStatus(Run(r, steps), t.job, Completed)) <==>
        forall u :: u in s.tokens && u.job == t.job ==> u == t
  {
    var r := Apply(s, Finish(t));
    CompletionIsFinalExactly(r, t.job);
    assert forall u :: u in r.tokens <==> u in s.tokens && u != t;
  }

  // ---------- and a run in which one does not ----------

  function LateSteps(job: Job): seq<Step> {
    var take := Take(Id(0), job.workspace, {job.kind}, Id(1));
    [Enqueue(Id(1), job), take, Tick(LOCK_MS + 1), take, Finish(Token(Id(1), 2, LOCK_MS + 1)),
     GiveUp(Token(Id(1), 1, 0), false)]
  }

  /** A worker that outlasts its lock and then fails puts a job back in the queue that another worker has
      completed. */
  lemma LateFailureReopens(job: Job)
    requires job.status == Queued && job.attempts == 0 && job.availableAt <= 0
    ensures Legal(Start(0), LateSteps(job)[..5]) && Legal(Start(0), LateSteps(job))
    ensures HasStatus(Run(Start(0), LateSteps(job)[..5]), Id(1), Completed)
    ensures HasStatus(Run(Start(0), LateSteps(job)), Id(1), Queued)
  {
    var steps := LateSteps(job);
    var s0 := Start(0);
    var s1 := Apply(s0, steps[0]);
    var s2 := Apply(s1, steps[1]);
    var s3 := Apply(s2, steps[2]);
    var s4 := Apply(s3, steps[3]);
    var s5 := Apply(s4, steps[4]);
    var s6 := Apply(s5, steps[5]);
    Unfold6(s0, steps, s1, s2, s3, s4, s5);
  }

  lemma Unfold6(s0: State, steps: seq<Step>, s1: State, s2: State, s3: State, s4: State, s5: State)
    requires |steps| == 6
    requires Enabled(s0, steps[0]) && s1 == Apply(s0, steps[0])
    requires Enabled(s1, steps[1]) && s2 == Apply(s1, steps[1])
    requires Enabled(s2, steps[2]) && s3 == Apply(s2, steps[2])
    requires Enabled(s3, steps[3]) && s4 == Apply(s3, steps[3])
    requires Enabled(s4, steps[4]) && s5 == Apply(s4, steps[4])
    requires Enabled(s5, steps[5])
    ensures Legal(s0, steps) && Run(s0, steps) == Apply(s5, steps[5])
    ensures Legal(s0, steps[..5]) && Run(s0, steps[..5]) == s5
  {
    var head := steps[..5];
    Unroll(s5, steps[5..]);
    Unroll(s4, steps[4..]); Unroll(s4, head[4..]);
    Unroll(s3, steps[3..]); Unroll(s3, head[3..]);
    Unroll(s2, steps[2..]); Unroll(s2, head[2..]);
    Unroll(s1, steps[1..]); Unroll(s1, head[1..]);
    assert steps[0..] == steps && head[0..] == head;
  }

  lemma Unroll(s: State, steps: seq<Step>)
    requires steps != [] && Enabled(s, steps[0])
    ensures Legal(s, steps) == Legal(Apply(s, steps[0]), steps[1..])
    ensures Legal(s, steps) ==> Run(s, steps) == Run(Apply(s, steps[0]), steps[1..])
  {
  }
}
