/**
 That the dispatcher keeps going (services/api/src/worker.ts, `dispatchOneSchedule`;
 services/api/src/domain/relay-service.ts, `triggerSchedule`): when a stored schedule has a next time, what
 an advance stores, when a schedule is due again, and that from every reachable state an enabled cron
 schedule is dispatched at its stored time once enough time passes and a worker is idle.
 */
module Occurrences {
  import opened Wrappers
  import opened EventLog
  import opened Repository
  import opened Dispatcher

  // ---------- a next time exactly if enabled and cron ----------

  predicate Recurring(c: Schedule) { c.enabled && c.cron }

  ghost predicate Timed(s: System) {
    forall id :: id in s.store.schedules ==> (s.store.schedules[id].nextRunAt.Some? <==> Recurring(s.store.schedules[id]))
  }

  /** A dispatching worker holds a recurring schedule that was due at the time it commits under; a webhook
      call holds an enabled schedule that is not cron. */
  ghost predicate HeldCopy(p: Phase) {
    && (!p.webhook ==> Recurring(p.copy) && p.copy.nextRunAt == Some(p.due))
    && (p.webhook ==> p.copy.enabled && !p.copy.cron)
  }

  ghost predicate CopiesHeld(s: System) {
    forall w :: w in s.workers ==> HeldCopy(s.workers[w])
  }

  ghost predicate LocksPast(s: System) {
    forall id :: id in s.store.locks ==> s.store.locks[id].lockedAt <= s.now
  }

  ghost predicate Orderly(s: System) {
    Timed(s) && CopiesHeld(s) && LocksPast(s)
  }

  lemma StepKeepsTimed(next: Search, s: System, step: Step)
    requires Orderly(s) && Enabled(next, s, step)
    ensures Orderly(Apply(next, s, step))
  {
    var s' := Apply(next, s, step);
    if IsCommit(step) {
      assert s'.store.schedules == s.store.schedules && s'.store.locks == s.store.locks;
    }
  }

  lemma {:induction false} RunKeepsTimed(next: Search, s: System, steps: seq<Step>)
    requires Forward(next) && Orderly(s) && NeverEarlier(s) && Legal(next, s, steps)
    ensures Orderly(Dispatcher.Run(next, s, steps)) && NeverEarlier(Dispatcher.Run(next, s, steps))
    decreases |steps|
  {
    if steps != [] {
      StepKeepsTimed(next, s, steps[0]);
      StepKeepsNeverEarlier(next, s, steps[0]);
      RunKeepsTimed(next, Apply(next, s, steps[0]), steps[1..]);
    }
  }

  /** In every run a stored schedule has a next time exactly if it is enabled and cron. */
  lemma TimedExactly(next: Search, now: int, steps: seq<Step>, id: Id)
    requires Forward(next) && Legal(next, Start(now), steps)
    ensures var schedules := Dispatcher.Run(next, Start(now), steps).store.schedules;
      id in schedules ==> (schedules[id].nextRunAt.Some? <==> schedules[id].enabled && schedules[id].cron)
  {
    RunKeepsTimed(next, Start(now), steps);
  }

  // ---------- what an advance stores ----------

  /** In every run an advance stores what the search answers for the timing of the copy handed out, at the
      current time: later than now, and than the due time just committed. It frees the schedule and the
      worker and touches no other schedule. A webhook call leaves the schedule without a next time. */
  lemma AdvanceStoresNextTime(next: Search, now: int, steps: seq<Step>, w: Id)
    requires Forward(next) && Legal(next, Start(now), steps) && Enabled(next, Dispatcher.Run(next, Start(now), steps), Advance(w))
    ensures
      var s := Dispatcher.Run(next, Start(now), steps);
      var p, after := s.workers[w], Apply(next, s, Advance(w));
      && p.id in after.store.schedules && p.id !in after.store.locks && w !in after.workers
      && (if p.webhook then after.store.schedules[p.id] == p.copy.(nextRunAt := None)
          else
            && next(p.copy.timing, s.now).Some?
            && after.store.schedules[p.id] == p.copy.(nextRunAt := Some(next(p.copy.timing, s.now).value))
            && next(p.copy.timing, s.now).value > s.now >= p.due)
      && forall other :: other != p.id ==> SameSchedule(s.store, after.store, other)
  {
    RunKeepsTimed(next, Start(now), steps);
    var s := Dispatcher.Run(next, Start(now), steps);
    assert HeldCopy(s.workers[w]);
  }

  /** The schedule and its lock are the same in both stores. */
  predicate SameSchedule(a: Store, b: Store, id: Id) {
    && (id in a.schedules <==> id in b.schedules) && (id in a.schedules ==> a.schedules[id] == b.schedules[id])
    && (id in a.locks <==> id in b.locks) && (id in a.locks ==> a.locks[id] == b.locks[id])
  }

  // ---------- due again ----------

  predicate Writes(step: Step, id: Id) {
    match step
    case Create(x, _) => x == id
    case Update(x, _) => x == id
    case Delete(x) => x == id
    case _ => false
  }

  /** Nobody claims, writes or releases the schedule. */
  ghost predicate LeavesAlone(s: System, step: Step, id: Id) {
    && !Writes(step, id)
    && (step.ClaimDue? ==> step.id != id)
    && ((step.Advance? || step.Release?) && step.worker in s.workers ==> s.workers[step.worker].id != id)
  }

  ghost predicate Quiet(next: Search, s: System, steps: seq<Step>, id: Id)
    requires Legal(next, s, steps)
    decreases |steps|
  {
    steps == [] || (LeavesAlone(s, steps[0], id) && Quiet(next, Apply(next, s, steps[0]), steps[1..], id))
  }

  lemma StepLeavesAlone(next: Search, s: System, step: Step, id: Id)
    requires Enabled(next, s, step) && LeavesAlone(s, step, id)
    ensures SameSchedule(s.store, Apply(next, s, step).store, id)
  {
  }

  lemma {:induction false} QuietKeeps(next: Search, s: System, steps: seq<Step>, id: Id)
    requires Legal(next, s, steps) && Quiet(next, s, steps, id)
    ensures SameSchedule(s.store, Dispatcher.Run(next, s, steps).store, id)
    decreases |steps|
  {
    if steps != [] {
      StepLeavesAlone(next, s, steps[0], id);
      QuietKeeps(next, Apply(next, s, steps[0]), steps[1..], id);
    }
  }

  /** A schedule that is left alone is due, in its own workspace, exactly if it is enabled and cron, from its stored
      time on, except for the five minutes that the lock of an unfinished dispatch lasts. */
  lemma DueExactly(next: Search, s: System, steps: seq<Step>, workspace: Id, id: Id)
    requires Legal(next, s, steps) && Quiet(next, s, steps, id) && Timed(s) && id in s.store.schedules
    ensures var later, c := Dispatcher.Run(next, s, steps), s.store.schedules[id];
      Due(later.store, workspace, later.now, id) <==>
        && workspace == c.workspace && c.enabled && c.cron && c.nextRunAt.value <= later.now
        && (id in s.store.locks ==> later.now > s.store.locks[id].lockedAt + 300_000)
  {
    QuietKeeps(next, s, steps, id);
  }

  /** A claimed schedule is not due again while the worker has it, until more than five minutes have passed. */
  lemma ClaimExcludes(next: Search, s: System, w: Id, workspace: Id, id: Id, steps: seq<Step>)
    requires Timed(s) && Enabled(next, s, ClaimDue(w, workspace, id))
    requires var claimed := Apply(next, s, ClaimDue(w, workspace, id));
      Legal(next, claimed, steps) && Quiet(next, claimed, steps, id)
    ensures var claimed := Apply(next, s, ClaimDue(w, workspace, id));
      var later := Dispatcher.Run(next, claimed, steps);
      && claimed.workers[w].id == id && claimed.workers[w].copy == s.store.schedules[id]
      && s.store.schedules[id].nextRunAt == Some(claimed.workers[w].due)
      && (Due(later.store, workspace, later.now, id) <==> later.now > s.now + 300_000)
  {
    var claimed := Apply(next, s, ClaimDue(w, workspace, id));
    QuietKeeps(next, claimed, steps, id);
    TimeGoesOn(next, claimed, steps);
  }

  lemma {:induction false} TimeGoesOn(next: Search, s: System, steps: seq<Step>)
    requires Legal(next, s, steps)
    ensures s.now <= Dispatcher.Run(next, s, steps).now
    decreases |steps|
  {
    if steps != [] {
      TimeGoesOn(next, Apply(next, s, steps[0]), steps[1..]);
    }
  }

  /** A failed dispatch gives its schedule back, due as before. */
  lemma ReleaseGivesBack(next: Search, s: System, w: Id, workspace: Id)
    requires Timed(s) && Enabled(next, s, Release(w)) && s.workers[w].id in s.store.schedules
    ensures var id, after := s.workers[w].id, Apply(next, s, Release(w));
      var c := s.store.schedules[id];
      && w !in after.workers && id in after.store.schedules && after.store.schedules[id] == c
      && (Due(after.store, workspace, after.now, id) <==>
            workspace == c.workspace && c.enabled && c.cron && c.nextRunAt.value <= s.now)
  {
  }

  // ---------- the time that a write stores ----------

  /** A schedule can be created exactly with the time that the search answers now, or none if it does not recur. */
  lemma CreateTimeExactly(next: Search, s: System, id: Id, c: Schedule)
    requires id !in s.store.schedules
    ensures Enabled(next, s, Create(id, c)) <==>
      c.nextRunAt == (if Recurring(c) then next(c.timing, s.now) else None) && (Recurring(c) ==> next(c.timing, s.now).Some?)
  {
  }

  /** An update keeps the stored time exactly if the schedule recurred with that timing before; otherwise it stores
      what the search answers now, or none if the schedule does not recur. */
  lemma UpdateTimeExactly(next: Search, s: System, id: Id, c: Schedule)
    requires Timed(s) && id in s.store.schedules
    ensures var current := s.store.schedules[id];
      Enabled(next, s, Update(id, c)) <==>
        if !Recurring(c) then c.nextRunAt == None
        else if Recurring(current) && current.timing == c.timing then c.nextRunAt == current.nextRunAt
        else c.nextRunAt == next(c.timing, s.now) && c.nextRunAt.Some?
  {
  }

  // ---------- what the other steps write ----------

  /** A created or updated schedule is stored as given and free; the others stay. */
  lemma WriteStores(next: Search, s: System, step: Step)
    requires Enabled(next, s, step) && (step.Create? || step.Update?)
    ensures var after := Apply(next, s, step);
      && step.id in after.store.schedules && after.store.schedules[step.id] == step.schedule && step.id !in after.store.locks
      && after == s.(store := s.store.(schedules := after.store.schedules, locks := after.store.locks))
      && forall other :: other != step.id ==> SameSchedule(s.store, after.store, other)
  {
  }

  /** A deleted schedule is gone with its lock; the others stay. */
  lemma DeleteRemoves(next: Search, s: System, id: Id)
    requires Enabled(next, s, Delete(id))
    ensures var after := Apply(next, s, Delete(id));
      && id !in after.store.schedules && id !in after.store.locks
      && after == s.(store := s.store.(schedules := after.store.schedules, locks := after.store.locks))
      && forall other :: other != id ==> SameSchedule(s.store, after.store, other)
  {
  }

  /** What may happen at any time: an idle worker may be called for any enabled webhook schedule, one at work may
      crash or, if it dispatches, give up; a stored schedule may be deleted; and a client or an agent may send. */
  lemma StepsPossible(next: Search, s: System, w: Id, id: Id, c: Commit)
    ensures Enabled(next, s, OpenWebhook(w, id)) <==>
      w !in s.workers && id in s.store.schedules && s.store.schedules[id].enabled && !s.store.schedules[id].cron
    ensures Enabled(next, s, Crash(w)) <==> w in s.workers
    ensures Enabled(next, s, Release(w)) <==> w in s.workers && !s.workers[w].webhook
    ensures Enabled(next, s, Delete(id)) <==> id in s.store.schedules
    ensures FreshCommit(s, c) ==> (Enabled(next, s, Send(c)) <==> !c.key.DueKey? && !c.key.WebhookKey?)
  {
  }

  /** Sending under a new key stores the message, its run and its job; under a known one it changes nothing. */
  lemma SendCommits(next: Search, s: System, c: Commit)
    requires Enabled(next, s, Send(c))
    ensures var before, after := s.store, Apply(next, s, Send(c)).store;
      && (c.key in before.idempotency ==> after == before)
      && (c.key !in before.idempotency ==>
            && after.idempotency == before.idempotency[c.key := Response(c.messageId, c.runId)]
            && after.messages == before.messages[c.messageId := c.message]
            && after.runs == before.runs[c.runId := c.run] && after.jobs == before.jobs[c.jobId := c.job]
            && after.schedules == before.schedules && after.locks == before.locks)
  {
  }

  /** Forgotten messages are gone, and nothing else. */
  lemma ForgottenAreGone(next: Search, s: System, ids: set<Id>)
    ensures Apply(next, s, ForgetMessages(ids)) == s.(store := s.store.(messages := map m | m in s.store.messages && m !in ids :: s.store.messages[m]))
  {
  }

  /** A crash loses what the worker held and nothing else: the lock it may have taken stays until it is stale. */
  lemma CrashForgets(next: Search, s: System, w: Id)
    requires Enabled(next, s, Crash(w))
    ensures var after := Apply(next, s, Crash(w));
      && after == s.(workers := after.workers) && w !in after.workers
      && forall other :: other != w ==>
           (other in after.workers <==> other in s.workers) && (other in s.workers ==> after.workers[other] == s.workers[other])
  {
  }

  /** Runs and jobs change only as they are rewritten, one at a time. */
  lemma TouchRewrites(next: Search, s: System, step: Step)
    requires Enabled(next, s, step) && (step.TouchRun? || step.TouchJob?)
    ensures var after := Apply(next, s, step);
      && (step.TouchRun? ==> after == s.(store := s.store.(runs := s.store.runs[step.id := step.run])))
      && (step.TouchJob? ==> after == s.(store := s.store.(jobs := s.store.jobs[step.id := step.job])))
  {
  }

  // ---------- recurring for good ----------

  predicate SameExceptTime(a: Schedule, b: Schedule) {
    a.(nextRunAt := None) == b.(nextRunAt := None)
  }

  /** The schedule is stored, and whoever holds a copy of it holds it as it is, but for the next time. */
  ghost predicate Consistent(s: System, id: Id, c: Schedule) {
    && id in s.store.schedules && SameExceptTime(s.store.schedules[id], c)
    && forall w :: w in s.workers && s.workers[w].id == id ==> SameExceptTime(s.workers[w].copy, c)
  }

  lemma StepKeepsConsistent(next: Search, s: System, step: Step, id: Id, c: Schedule)
    requires Consistent(s, id, c) && Enabled(next, s, step) && !Writes(step, id)
    ensures Consistent(Apply(next, s, step), id, c)
  {
  }

  /** As long as nobody updates or deletes a recurring schedule it stays, with the same timing, and keeps a next
      time, however often it is dispatched. */
  lemma {:induction false} KeepsRecurring(next: Search, s: System, steps: seq<Step>, id: Id, c: Schedule)
    requires Forward(next) && Orderly(s) && Legal(next, s, steps)
    requires Consistent(s, id, c) && Recurring(c) && forall i :: 0 <= i < |steps| ==> !Writes(steps[i], id)
    ensures var schedules := Dispatcher.Run(next, s, steps).store.schedules;
      id in schedules && SameExceptTime(schedules[id], c) && schedules[id].nextRunAt.Some?
    decreases |steps|
  {
    if steps != [] {
      StepKeepsTimed(next, s, steps[0]);
      StepKeepsConsistent(next, s, steps[0], id, c);
      KeepsRecurring(next, Apply(next, s, steps[0]), steps[1..], id, c);
    }
  }

  // ---------- one dispatch ----------

  function Round(w: Id, workspace: Id, id: Id, c: Commit): seq<Step> {
    [ClaimDue(w, workspace, id), Trigger(w, c), Advance(w)]
  }

  lemma Unfold(next: Search, s: System, steps: seq<Step>)
    requires steps != [] && Enabled(next, s, steps[0])
    ensures Legal(next, s, steps) == Legal(next, Apply(next, s, steps[0]), steps[1..])
    ensures Legal(next, s, steps) ==> Dispatcher.Run(next, s, steps) == Dispatcher.Run(next, Apply(next, s, steps[0]), steps[1..])
  {
  }

  lemma ThreeSteps(next: Search, s: System, steps: seq<Step>)
    requires |steps| == 3 && Enabled(next, s, steps[0])
    requires Enabled(next, Apply(next, s, steps[0]), steps[1])
    requires Enabled(next, Apply(next, Apply(next, s, steps[0]), steps[1]), steps[2])
    ensures Legal(next, s, steps)
    ensures Dispatcher.Run(next, s, steps) == Apply(next, Apply(next, Apply(next, s, steps[0]), steps[1]), steps[2])
  {
    var s1 := Apply(next, s, steps[0]);
    var s2 := Apply(next, s1, steps[1]);
    Unfold(next, s2, steps[2..]);
    Unfold(next, s1, steps[1..]);
    Unfold(next, s, steps);
  }

  /** What a dispatch leaves: the due time committed, the next time stored, the schedule and the worker free. */
  ghost predicate Served(next: Search, s: System, after: System, id: Id)
    requires id in s.store.schedules && s.store.schedules[id].nextRunAt.Some?
  {
    var c := s.store.schedules[id];
    && DueKey(id, c.nextRunAt.value) in after.store.idempotency
    && after.store.schedules == s.store.schedules[id := c.(nextRunAt := next(c.timing, s.now))]
    && after.store.locks == s.store.locks - {id}
    && after.workers == s.workers && after.now == s.now
    && (forall k :: k in s.store.idempotency ==> k in after.store.idempotency)
  }

  /** A worker has claimed the schedule and committed its due time, and nothing else has happened. */
  ghost predicate Dispatched(s: System, after: System, w: Id, id: Id)
    requires id in s.store.schedules && s.store.schedules[id].nextRunAt.Some?
  {
    var due := s.store.schedules[id].nextRunAt.value;
    && DueKey(id, due) in after.store.idempotency
    && (forall k :: k in s.store.idempotency ==> k in after.store.idempotency)
    && after.store.schedules == s.store.schedules && after.now == s.now
    && id in after.store.locks && after.store.locks == s.store.locks[id := after.store.locks[id]]
    && after.workers == s.workers[w := Phase(id, s.store.schedules[id], due, false, true)]
  }

  lemma AdvanceServes(next: Search, s: System, middle: System, w: Id, id: Id)
    requires w !in s.workers && id in s.store.schedules && s.store.schedules[id].nextRunAt.Some?
    requires Recurring(s.store.schedules[id]) && next(s.store.schedules[id].timing, s.now).Some?
    requires Dispatched(s, middle, w, id)
    ensures Enabled(next, middle, Advance(w)) && Served(next, s, Apply(next, middle, Advance(w)), id)
  {
    assert Apply(next, middle, Advance(w)).workers == s.workers;
    assert Apply(next, middle, Advance(w)).store.locks == s.store.locks - {id};
  }

  /** A worker has claimed the schedule, and nothing else has happened. */
  ghost predicate Taken(s: System, after: System, w: Id, id: Id)
    requires id in s.store.schedules && s.store.schedules[id].nextRunAt.Some?
  {
    && after == s.(store := s.store.(locks := after.store.locks), workers := after.workers)
    && id in after.store.locks && after.store.locks == s.store.locks[id := after.store.locks[id]]
    && after.workers == s.workers[w := Phase(id, s.store.schedules[id], s.store.schedules[id].nextRunAt.value, false, false)]
  }

  lemma ClaimTakes(next: Search, s: System, w: Id, workspace: Id, id: Id)
    requires w !in s.workers && MayClaimSchedule(s.store, workspace, s.now, id)
    ensures Enabled(next, s, ClaimDue(w, workspace, id)) && Taken(s, Apply(next, s, ClaimDue(w, workspace, id)), w, id)
  {
  }

  lemma TriggerDispatches(next: Search, s: System, claimed: System, w: Id, id: Id, c: Commit)
    requires id in s.store.schedules && s.store.schedules[id].nextRunAt.Some? && Taken(s, claimed, w, id)
    requires FreshCommit(s, c) && c.key == DueKey(id, s.store.schedules[id].nextRunAt.value)
    ensures Enabled(next, claimed, Trigger(w, c)) && Dispatched(s, Apply(next, claimed, Trigger(w, c)), w, id)
  {
    Committed(claimed.store, c);
  }

  lemma RoundServes(next: Search, s: System, w: Id, workspace: Id, id: Id, c: Commit)
    requires w !in s.workers && MayClaimSchedule(s.store, workspace, s.now, id) && Recurring(s.store.schedules[id])
    requires FreshCommit(s, c) && c.key == DueKey(id, s.store.schedules[id].nextRunAt.value)
    requires next(s.store.schedules[id].timing, s.now).Some?
    ensures Legal(next, s, Round(w, workspace, id, c))
    ensures Served(next, s, Dispatcher.Run(next, s, Round(w, workspace, id, c)), id)
  {
    ClaimTakes(next, s, w, workspace, id);
    var claimed := Apply(next, s, ClaimDue(w, workspace, id));
    TriggerDispatches(next, s, claimed, w, id, c);
    AdvanceServes(next, s, Apply(next, claimed, Trigger(w, c)), w, id);
    ThreeSteps(next, s, Round(w, workspace, id, c));
  }

  lemma Committed(s: Store, c: Commit)
    ensures var after := AfterCommit(s, c);
      && after.schedules == s.schedules && after.locks == s.locks && c.key in after.idempotency
      && forall k :: k in s.idempotency ==> k in after.idempotency
  {
  }

  // ---------- ids for a commit ----------

  function Above(ledger: seq<Commit>): (n: nat)
    ensures forall i :: 0 <= i < |ledger| ==>
      ledger[i].messageId.number < n && ledger[i].runId.number < n && ledger[i].jobId.number < n
  {
    if ledger == [] then 0
    else
      var c := ledger[|ledger| - 1];
      Above(ledger[..|ledger| - 1]) + c.messageId.number + c.runId.number + c.jobId.number + 1
  }

  lemma FreshDue(s: System, workspace: Id, id: Id, due: int) returns (c: Commit)
    ensures FreshCommit(s, c) && c.key == DueKey(id, due)
  {
    var x := Id(Above(s.ledger));
    var about := Aggregate(workspace, Label(0), x);
    c := Commit(DueKey(id, due), x, Message(DueKey(id, due), Label(0)), x, Repository.Run(x, Label(0)), x,
      Job(workspace, Label(0), x, Queued, 0, s.now, None, None, None, s.now),
      [NewEvent(about, MessageCreated, None), NewEvent(about, RunCreated, Some(Entity(x, Label(0))))]);
  }

  // ---------- every due schedule ----------

  ghost function DueSet(s: System, workspace: Id): set<Id> {
    set id | id in s.store.schedules && Due(s.store, workspace, s.now, id)
  }

  lemma {:induction false} DueLongest(s: System, workspace: Id, rest: set<Id>) returns (id: Id)
    requires rest != {} && rest <= DueSet(s, workspace)
    ensures id in rest
    ensures forall other :: other in rest ==> s.store.schedules[id].nextRunAt.value <= s.store.schedules[other].nextRunAt.value
  {
    id :| id in rest;
    if rest != {id} {
      var least := DueLongest(s, workspace, rest - {id});
      if s.store.schedules[least].nextRunAt.value < s.store.schedules[id].nextRunAt.value {
        id := least;
      }
    }
  }

  /** If anything is due, something may be claimed: whatever has been due longest. */
  lemma SomeClaimable(s: System, workspace: Id) returns (id: Id)
    requires exists other :: Due(s.store, workspace, s.now, other)
    ensures MayClaimSchedule(s.store, workspace, s.now, id)
  {
    var due := DueSet(s, workspace);
    assert forall other :: Due(s.store, workspace, s.now, other) ==> other in due;
    id := DueLongest(s, workspace, due);
  }

  /** The search finds something for every recurring schedule stored. */
  ghost predicate Findable(next: Search, schedules: map<Id, Schedule>) {
    forall id, now :: id in schedules && Recurring(schedules[id]) ==> next(schedules[id].timing, now).Some?
  }

  /** Everything due is committed at its due time and has the time that the search answers; nothing else changed. */
  ghost predicate AllServed(next: Search, s: System, after: System, workspace: Id) {
    && after.workers == s.workers && after.now == s.now
    && after.store.schedules.Keys == s.store.schedules.Keys
    && (forall k :: k in s.store.idempotency ==> k in after.store.idempotency)
    && forall id :: id in s.store.schedules ==> ServedIfDue(next, s, after, workspace, id)
  }

  ghost predicate ServedIfDue(next: Search, s: System, after: System, workspace: Id, id: Id)
    requires id in s.store.schedules && id in after.store.schedules
  {
    var c := s.store.schedules[id];
    if Due(s.store, workspace, s.now, id) then
      && DueKey(id, c.nextRunAt.value) in after.store.idempotency
      && after.store.schedules[id] == c.(nextRunAt := next(c.timing, s.now))
    else after.store.schedules[id] == c
  }

  lemma {:induction false} Joined(next: Search, s: System, a: seq<Step>, b: seq<Step>)
    requires Legal(next, s, a) && Legal(next, Dispatcher.Run(next, s, a), b)
    ensures Legal(next, s, a + b) && Dispatcher.Run(next, s, a + b) == Dispatcher.Run(next, Dispatcher.Run(next, s, a), b)
    decreases |a|
  {
    if a == [] {
      assert a + b == b;
    } else {
      Joined(next, Apply(next, s, a[0]), a[1..], b);
      assert (a + b)[1..] == a[1..] + b;
      Unfold(next, s, a + b);
    }
  }

  lemma {:induction false} RunKeepsOrderly(next: Search, s: System, steps: seq<Step>)
    requires Orderly(s) && Legal(next, s, steps)
    ensures Orderly(Dispatcher.Run(next, s, steps))
    decreases |steps|
  {
    if steps != [] {
      StepKeepsTimed(next, s, steps[0]);
      RunKeepsOrderly(next, Apply(next, s, steps[0]), steps[1..]);
    }
  }

  lemma ServedIsNotDue(next: Search, s: System, after: System, workspace: Id, id: Id)
    requires Forward(next) && Orderly(s) && Findable(next, s.store.schedules)
    requires Due(s.store, workspace, s.now, id) && Served(next, s, after, id)
    ensures DueSet(after, workspace) == DueSet(s, workspace) - {id}
    ensures Findable(next, after.store.schedules)
  {
    assert next(s.store.schedules[id].timing, s.now).Some?;
    forall x
      ensures Due(after.store, workspace, after.now, x) <==> Due(s.store, workspace, s.now, x) && x != id
    {
    }
  }

  predicate DispatchOf(step: Step, w: Id) {
    (step.ClaimDue? || step.Trigger? || step.Advance?) && step.worker == w
  }

  lemma DispatchOne(next: Search, s: System, w: Id, workspace: Id) returns (id: Id, steps: seq<Step>)
    requires Forward(next) && Orderly(s) && w !in s.workers && Findable(next, s.store.schedules)
    requires exists other :: Due(s.store, workspace, s.now, other)
    ensures Legal(next, s, steps) && forall i :: 0 <= i < |steps| ==> DispatchOf(steps[i], w)
    ensures Due(s.store, workspace, s.now, id) && Served(next, s, Dispatcher.Run(next, s, steps), id)
    ensures Orderly(Dispatcher.Run(next, s, steps))
  {
    id := SomeClaimable(s, workspace);
    var c := FreshDue(s, workspace, id, s.store.schedules[id].nextRunAt.value);
    steps := Round(w, workspace, id, c);
    RoundServes(next, s, w, workspace, id, c);
    RunKeepsOrderly(next, s, steps);
  }

  lemma NothingDue(s: System, workspace: Id)
    ensures DueSet(s, workspace) != {} <==> exists other :: Due(s.store, workspace, s.now, other)
  {
    if exists other :: Due(s.store, workspace, s.now, other) {
      var other :| Due(s.store, workspace, s.now, other);
      assert other in DueSet(s, workspace);
    }
    if DueSet(s, workspace) != {} {
      var other :| other in DueSet(s, workspace);
      assert Due(s.store, workspace, s.now, other);
    }
  }

  /** Dispatching until nothing is due serves everything that was. */
  lemma {:induction false} DispatchAll(next: Search, s: System, w: Id, workspace: Id) returns (steps: seq<Step>)
    requires Forward(next) && Orderly(s) && w !in s.workers && Findable(next, s.store.schedules)
    ensures Legal(next, s, steps) && AllServed(next, s, Dispatcher.Run(next, s, steps), workspace)
    ensures forall i :: 0 <= i < |steps| ==> DispatchOf(steps[i], w)
    decreases |DueSet(s, workspace)|
  {
    steps := [];
    NothingDue(s, workspace);
    if DueSet(s, workspace) != {} {
      var id, round := DispatchOne(next, s, w, workspace);
      var after := Dispatcher.Run(next, s, round);
      ServedIsNotDue(next, s, after, workspace, id);
      Fewer(s, after, workspace, id);
      var more := DispatchAll(next, after, w, workspace);
      Joined(next, s, round, more);
      steps := round + more;
      ServedThenAll(next, s, after, Dispatcher.Run(next, after, more), workspace, id);
    }
  }

  lemma Fewer(s: System, after: System, workspace: Id, id: Id)
    requires Due(s.store, workspace, s.now, id) && DueSet(after, workspace) == DueSet(s, workspace) - {id}
    ensures |DueSet(after, workspace)| < |DueSet(s, workspace)|
  {
    assert id in DueSet(s, workspace);
  }

  lemma ServedThenAll(next: Search, s: System, middle: System, after: System, workspace: Id, id: Id)
    requires Due(s.store, workspace, s.now, id) && Served(next, s, middle, id)
    requires DueSet(middle, workspace) == DueSet(s, workspace) - {id} && AllServed(next, middle, after, workspace)
    ensures AllServed(next, s, after, workspace)
  {
    forall x | x in s.store.schedules
      ensures ServedIfDue(next, s, after, workspace, x)
    {
      assert ServedIfDue(next, middle, after, workspace, x);
      assert Due(s.store, workspace, s.now, x) <==> x in DueSet(s, workspace);
      assert Due(middle.store, workspace, middle.now, x) <==> x in DueSet(middle, workspace);
    }
  }

  /** From every reachable state, once its time has come and any lock has gone stale, one idle worker gets an
      enabled cron schedule dispatched: its stored time is committed and the next one is stored, later than
      the time it then is. So it is enabled, cron and timed again, and its occurrences keep coming. */
  lemma OccurrencesKeepComing(next: Search, now: int, steps: seq<Step>, id: Id, w: Id) returns (wait: nat, more: seq<Step>)
    requires Forward(next) && Legal(next, Start(now), steps)
    requires var s := Dispatcher.Run(next, Start(now), steps);
      && id in s.store.schedules && s.store.schedules[id].enabled && s.store.schedules[id].cron
      && w !in s.workers && Findable(next, s.store.schedules)
    ensures forall i :: 0 <= i < |more| ==> DispatchOf(more[i], w)
    ensures var s := Dispatcher.Run(next, Start(now), steps);
      && s.store.schedules[id].nextRunAt.Some?
      && Legal(next, s, [Tick(wait)] + more)
      && Occurred(next, s, Dispatcher.Run(next, s, [Tick(wait)] + more), id)
  {
    var s := Dispatcher.Run(next, Start(now), steps);
    RunKeepsTimed(next, Start(now), steps);
    var c := s.store.schedules[id];
    wait := Max(0, c.nextRunAt.value - s.now) + LOCK_MS + 1;
    var later := Apply(next, s, Tick(wait));
    StepKeepsTimed(next, s, Tick(wait));
    assert Due(later.store, c.workspace, later.now, id);
    more := DispatchAll(next, later, w, c.workspace);
    var all := [Tick(wait)] + more;
    assert all[1..] == more;
    Unfold(next, s, all);
    assert ServedIfDue(next, later, Dispatcher.Run(next, later, more), c.workspace, id);
    assert next(c.timing, later.now).Some?;
  }

  /** The stored time of the schedule has been committed and the next one is stored, and lies ahead. */
  ghost predicate Occurred(next: Search, s: System, after: System, id: Id)
    requires id in s.store.schedules && s.store.schedules[id].nextRunAt.Some?
  {
    var c := s.store.schedules[id];
    && DueKey(id, c.nextRunAt.value) in after.store.idempotency
    && id in after.store.schedules && next(c.timing, after.now).Some? && next(c.timing, after.now).value > after.now
    && after.store.schedules[id] == c.(nextRunAt := Some(next(c.timing, after.now).value))
  }

  // ---------- when the search fails ----------

  /** What happens while one dispatcher runs alone: it claims in its workspace, commits, and advances or gives up,
      while time passes, clients send and runs and jobs go on. */
  predicate OfPoll(step: Step, w: Id, workspace: Id) {
    || step.Tick? || step.Send? || step.TouchRun? || step.TouchJob? || step.ForgetMessages? || step.Emit?
    || (DispatchOf(step, w) && (step.ClaimDue? ==> step.workspace == workspace))
    || step == Release(w)
  }

  /** Every other schedule of the workspace that has a time has a later one. */
  ghost predicate FirstOfAll(schedules: map<Id, Schedule>, workspace: Id, id: Id, time: int) {
    forall x :: x in schedules && x != id && schedules[x].workspace == workspace && schedules[x].nextRunAt.Some? ==>
      time < schedules[x].nextRunAt.value
  }

  /** The schedule is due before every other one of its workspace that has a time, is free unless the worker has it, and its search
      never finds anything. */
  ghost predicate Blocking(next: Search, s: System, w: Id, workspace: Id, id: Id) {
    && id in s.store.schedules
    && var c := s.store.schedules[id];
    && c.workspace == workspace && Recurring(c) && c.nextRunAt.Some? && c.nextRunAt.value <= s.now
    && (forall now :: next(c.timing, now).None?)
    && FirstOfAll(s.store.schedules, workspace, id, c.nextRunAt.value)
    && (forall v :: v in s.workers ==> v == w && s.workers[v] == Phase(id, c, c.nextRunAt.value, false, s.workers[v].committed))
    && (w !in s.workers ==> id !in s.store.locks)
  }

  lemma CommitStaysBlocked(next: Search, s: System, step: Step, w: Id, workspace: Id, id: Id)
    requires Blocking(next, s, w, workspace, id) && OfPoll(step, w, workspace) && Enabled(next, s, step) && IsCommit(step)
    ensures Blocking(next, Apply(next, s, step), w, workspace, id)
    ensures Apply(next, s, step).store.schedules == s.store.schedules
    ensures forall k :: k in Apply(next, s, step).store.idempotency && k.DueKey? ==> k in s.store.idempotency || k.schedule == id
  {
    Committed(s.store, step.commit);
  }

  lemma PollStaysBlocked(next: Search, s: System, step: Step, w: Id, workspace: Id, id: Id)
    requires Blocking(next, s, w, workspace, id) && OfPoll(step, w, workspace) && Enabled(next, s, step)
    ensures Blocking(next, Apply(next, s, step), w, workspace, id)
    ensures Apply(next, s, step).store.schedules == s.store.schedules
    ensures forall k :: k in Apply(next, s, step).store.idempotency && k.DueKey? ==> k in s.store.idempotency || k.schedule == id
  {
    assert next(s.store.schedules[id].timing, s.now).None?;
    if IsCommit(step) {
      CommitStaysBlocked(next, s, step, w, workspace, id);
    } else if step.ClaimDue? {
      assert Due(s.store, workspace, s.now, id);
    }
  }

  /** If the search for the earliest due schedule never finds anything, a dispatcher that runs alone serves no other
      schedule, for ever: it claims that one again each time, and its write fails each time. */
  lemma {:induction false} FailingSearchBlocks(next: Search, s: System, steps: seq<Step>, w: Id, workspace: Id, id: Id)
    requires Blocking(next, s, w, workspace, id) && Legal(next, s, steps)
    requires forall i :: 0 <= i < |steps| ==> OfPoll(steps[i], w, workspace)
    ensures var later := Dispatcher.Run(next, s, steps);
      && later.store.schedules == s.store.schedules
      && forall k :: k in later.store.idempotency && k.DueKey? ==> k in s.store.idempotency || k.schedule == id
    decreases |steps|
  {
    if steps != [] {
      PollStaysBlocked(next, s, steps[0], w, workspace, id);
      FailingSearchBlocks(next, Apply(next, s, steps[0]), steps[1..], w, workspace, id);
    }
  }
}
