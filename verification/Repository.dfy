/**
 The store (services/api/src/database/memory-repository.ts). Every operation is one atomic step, as
 the Postgres repository makes it; `commitMessageRun` is read as that single transaction.

 The class updates its maps in place, as the source does. Each method is specified by a function on
 the `Store` value it holds, and the protocols in JobQueue and Dispatcher are proved about those
 functions. Where several entries tie for "oldest" any of them may be taken: the two
 implementations of the repository break ties differently.
 */
module Repository {
  import opened Wrappers
  import opened EventLog

  const LOCK_MS := 5 * 60_000

  datatype Status = Queued | Running | Completed | Failed

  datatype Job = Job(
    workspace: Id, kind: Label, runId: Id, status: Status, attempts: nat,
    availableAt: int, lockedAt: Option<int>, lockedBy: Option<Id>, error: Option<Label>, createdAt: int)

  /** The operation ids under which messages are committed: `schedule:<id>:<due>`, `webhook:<id>:<nonce>`,
      `agent-help:<message>`, and the ids that clients choose. */
  datatype Key =
    | DueKey(schedule: Id, due: int)
    | WebhookKey(schedule: Id, nonce: Id)
    | HelpKey(message: Id)
    | ClientKey(operation: Id)

  datatype Message = Message(operation: Key, content: Label)

  datatype Run = Run(triggerMessage: Id, status: Label)

  datatype Response = Response(messageId: Id, runId: Id)

  /** `timing` stands for the cron expression and time zone; webhook schedules have `cron` false. */
  datatype Schedule = Schedule(workspace: Id, cron: bool, timing: Label, enabled: bool, nextRunAt: Option<int>)

  datatype Lock = Lock(lockedAt: int, lockedBy: Id)

  datatype Store = Store(
    events: seq<Event>, jobs: map<Id, Job>, idempotency: map<Key, Response>,
    messages: map<Id, Message>, runs: map<Id, Run>,
    schedules: map<Id, Schedule>, locks: map<Id, Lock>)

  const EMPTY := Store([], map[], map[], map[], map[], map[], map[])

  // ---------- jobs ----------

  predicate Claimable(j: Job, workspace: Id, kinds: set<Label>, now: int) {
    && j.workspace == workspace
    && j.kind in kinds
    && (|| (j.status == Queued && j.availableAt <= now)
        || (j.status == Running && j.lockedAt.Some? && j.lockedAt.value < now - LOCK_MS))
  }

  /** The job a claim may take: claimable, and none that is claimable was created before it. */
  predicate MayClaim(jobs: map<Id, Job>, workspace: Id, kinds: set<Label>, now: int, id: Id) {
    && id in jobs
    && Claimable(jobs[id], workspace, kinds, now)
    && forall other :: other in jobs && Claimable(jobs[other], workspace, kinds, now) ==> jobs[id].createdAt <= jobs[other].createdAt
  }

  function Claimed(j: Job, worker: Id, now: int): Job {
    j.(status := Running, attempts := j.attempts + 1, lockedAt := Some(now), lockedBy := Some(worker))
  }

  function Settled(j: Job): Job { j.(status := Completed) }

  function Retried(j: Job, error: Label, retryAt: Option<int>): Job {
    j.(status := if retryAt.Some? then Queued else Failed,
       availableAt := if retryAt.Some? then retryAt.value else j.availableAt,
       lockedAt := None, lockedBy := None, error := Some(error))
  }

  // ---------- schedules ----------

  predicate Due(s: Store, workspace: Id, now: int, id: Id) {
    && id in s.schedules
    && var c := s.schedules[id];
    && c.workspace == workspace && c.enabled && c.nextRunAt.Some? && c.nextRunAt.value <= now
    && (id !in s.locks || s.locks[id].lockedAt < now - LOCK_MS)
  }

  predicate MayClaimSchedule(s: Store, workspace: Id, now: int, id: Id) {
    && Due(s, workspace, now, id)
    && forall other :: other in s.schedules && Due(s, workspace, now, other) ==>
         s.schedules[id].nextRunAt.value <= s.schedules[other].nextRunAt.value
  }

  /** A paused schedule is never due, whatever time it has stored. */
  lemma PausedNeverDue(s: Store, workspace: Id, now: int, id: Id)
    requires id in s.schedules && !s.schedules[id].enabled
    ensures !Due(s, workspace, now, id)
  {
  }

  function AfterPut(s: Store, id: Id, value: Schedule): Store {
    s.(schedules := s.schedules[id := value], locks := s.locks - {id})
  }

  function AfterDelete(s: Store, id: Id): Store {
    s.(schedules := s.schedules - {id}, locks := s.locks - {id})
  }

  // ---------- commit ----------

  datatype Commit = Commit(
    key: Key, messageId: Id, message: Message, runId: Id, run: Run, jobId: Id, job: Job, events: seq<NewEvent>)

  function AfterCommit(s: Store, input: Commit): Store {
    if input.key in s.idempotency then s
    else s.(
      messages := s.messages[input.messageId := input.message],
      runs := s.runs[input.runId := input.run],
      jobs := s.jobs[input.jobId := input.job],
      events := AppendAll(s.events, input.events),
      idempotency := s.idempotency[input.key := Response(input.messageId, input.runId)])
  }

  lemma AppendNext(events: seq<Event>, list: seq<NewEvent>, i: nat)
    requires i < |list|
    ensures AppendAll(events, list[i..]) == AppendAll(events + [Stored(events, |events|, list[i])], list[i + 1..])
  {
    assert list[i..][0] == list[i] && list[i..][1..] == list[i + 1..];
  }

  class MemoryRepository {
    var events: seq<Event>
    var cursor: nat
    var jobs: map<Id, Job>
    var idempotency: map<Key, Response>
    var messages: map<Id, Message>
    var runs: map<Id, Run>
    var schedules: map<Id, Schedule>
    var scheduleLocks: map<Id, Lock>

    ghost function Value(): Store
      reads this
    {
      Store(events, jobs, idempotency, messages, runs, schedules, scheduleLocks)
    }

    /** The counter is the last cursor handed out, and the log is numbered. */
    ghost predicate Valid()
      reads this
    {
      cursor == |events| && WellNumbered(events)
    }

    constructor ()
      ensures Valid() && Value() == EMPTY
    {
      events, cursor, jobs, idempotency, messages, runs, schedules, scheduleLocks :=
        [], 0, map[], map[], map[], map[], map[], map[];
    }

    method AppendEvent(event: NewEvent) returns (stored: Event)
      requires Valid()
      modifies this`events, this`cursor
      ensures Valid() && stored == Stored(old(events), |old(events)|, event)
      ensures events == old(events) + [stored]
      ensures stored.cursor == |events| && stored.sequence == CountOf(old(events), event.aggregate) + 1
      ensures stored.aggregate == event.aggregate && stored.kind == event.kind && stored.payload == event.payload
    {
      LastSequenceIsCount(events, event.aggregate);
      AppendKeepsNumbering(events, event);
      var sequence := LastSequence(events, event.aggregate);
      cursor := cursor + 1;
      stored := Event(event.aggregate, event.kind, event.payload, cursor, sequence + 1);
      events := events + [stored];
    }

    method ListEvents(workspace: Id, after: int, limit: nat) returns (page: seq<Event>)
      requires Valid()
      ensures page == EventLog.ListEvents(events, workspace, after, limit)
      ensures |page| <= limit && Ascending(page)
      ensures forall e :: e in page ==> Asked(e, workspace, after) && e in events
      ensures |page| < limit ==> forall e :: e in events && Asked(e, workspace, after) ==> e in page
      ensures forall e, f :: e in page && f in events && Asked(f, workspace, after) && f.cursor < e.cursor ==> f in page
    {
      page := EventLog.ListEvents(events, workspace, after, limit);
      NumberedAscends(events);
      PageIsFirst(events, workspace, after, limit);
    }

    method AppendEvents(list: seq<NewEvent>) returns (added: seq<Event>)
      requires Valid()
      modifies this`events, this`cursor
      ensures Valid() && events == AppendAll(old(events), list)
      ensures events == old(events) + added && |added| == |list|
    {
      added := [];
      assert list[0..] == list && old(events) + [] == old(events);
      for i := 0 to |list|
        invariant Valid() && |added| == i && events == old(events) + added
        invariant AppendAll(events, list[i..]) == AppendAll(old(events), list)
      {
        AppendNext(events, list, i);
        var stored := AppendEvent(list[i]);
        added := added + [stored];
      }
    }

    /** `commitMessageRun`: a repeated key answers with the first response and changes nothing. */
    method CommitMessageRun(input: Commit) returns (response: Response, created: bool, added: seq<Event>)
      requires Valid()
      modifies this
      ensures Valid() && Value() == AfterCommit(old(Value()), input)
      ensures created <==> input.key !in old(idempotency)
      ensures input.key in idempotency && response == idempotency[input.key]
      ensures events == old(events) + added && |added| == if created then |input.events| else 0
      ensures created ==>
        && response == Response(input.messageId, input.runId)
        && messages == old(messages)[input.messageId := input.message] && runs == old(runs)[input.runId := input.run]
        && jobs == old(jobs)[input.jobId := input.job] && schedules == old(schedules) && scheduleLocks == old(scheduleLocks)
      ensures !created ==> Value() == old(Value())
    {
      added := [];
      if input.key in idempotency {
        return idempotency[input.key], false, [];
      }
      messages := messages[input.messageId := input.message];
      runs := runs[input.runId := input.run];
      jobs := jobs[input.jobId := input.job];
      added := AppendEvents(input.events);
      response := Response(input.messageId, input.runId);
      idempotency := idempotency[input.key := response];
      created := true;
    }

    /** `claim`: takes the oldest claimable job, or reports that there is none. */
    method Claim(workspace: Id, worker: Id, kinds: set<Label>, now: int) returns (id: Option<Id>)
      modifies this`jobs
      ensures id.None? ==> jobs == old(jobs) && forall j :: j in jobs ==> !Claimable(jobs[j], workspace, kinds, now)
      ensures id.Some? ==> MayClaim(old(jobs), workspace, kinds, now, id.value)
      ensures id.Some? ==> forall other :: other in old(jobs) && Claimable(old(jobs)[other], workspace, kinds, now) ==>
        old(jobs)[id.value].createdAt <= old(jobs)[other].createdAt
      ensures id.Some? ==> jobs == old(jobs)[id.value := Claimed(old(jobs)[id.value], worker, now)]
    {
      var candidates := set j | j in jobs && Claimable(jobs[j], workspace, kinds, now);
      if candidates == {} {
        assert forall j :: j in jobs && Claimable(jobs[j], workspace, kinds, now) ==> j in candidates;
        return None;
      }
      var oldest := Oldest(candidates, map j | j in jobs :: jobs[j].createdAt);
      assert forall other :: other in jobs && Claimable(jobs[other], workspace, kinds, now) ==> other in candidates;
      jobs := jobs[oldest := Claimed(jobs[oldest], worker, now)];
      id := Some(oldest);
    }

    method CompleteJob(id: Id)
      modifies this`jobs
      ensures jobs == if id in old(jobs) then old(jobs)[id := Settled(old(jobs)[id])] else old(jobs)
    {
      if id in jobs {
        jobs := jobs[id := Settled(jobs[id])];
      }
    }

    method FailJob(id: Id, error: Label, retryAt: Option<int>)
      modifies this`jobs
      ensures jobs == if id in old(jobs) then old(jobs)[id := Retried(old(jobs)[id], error, retryAt)] else old(jobs)
    {
      if id in jobs {
        jobs := jobs[id := Retried(jobs[id], error, retryAt)];
      }
    }

    /** `claimDueSchedule`: locks the schedule that is due longest and hands out a copy of it. */
    method ClaimDueSchedule(workspace: Id, worker: Id, now: int) returns (r: Option<(Id, Schedule)>)
      modifies this`scheduleLocks
      ensures r.None? ==> scheduleLocks == old(scheduleLocks) && forall id :: !Due(old(Value()), workspace, now, id)
      ensures r.Some? ==> MayClaimSchedule(old(Value()), workspace, now, r.value.0) && r.value.1 == schedules[r.value.0]
      ensures r.Some? ==> scheduleLocks == old(scheduleLocks)[r.value.0 := Lock(now, worker)]
    {
      ghost var s := Value();
      var candidates := set id | id in schedules && IsDue(id, workspace, now);
      if candidates == {} {
        assert forall id :: Due(s, workspace, now, id) ==> id in candidates;
        return None;
      }
      var due := map id | id in schedules && schedules[id].nextRunAt.Some? :: schedules[id].nextRunAt.value;
      var oldest := Oldest(candidates, due);
      assert forall other :: other in s.schedules && Due(s, workspace, now, other) ==> other in candidates;
      scheduleLocks := scheduleLocks[oldest := Lock(now, worker)];
      r := Some((oldest, schedules[oldest]));
    }

    predicate IsDue(id: Id, workspace: Id, now: int)
      reads this
      requires id in schedules
      ensures IsDue(id, workspace, now) <==> Due(Value(), workspace, now, id)
    {
      var c := schedules[id];
      && c.workspace == workspace && c.enabled && c.nextRunAt.Some? && c.nextRunAt.value <= now
      && (id !in scheduleLocks || scheduleLocks[id].lockedAt < now - LOCK_MS)
    }

    method ReleaseScheduleClaim(id: Id)
      modifies this`scheduleLocks
      ensures scheduleLocks == old(scheduleLocks) - {id}
    {
      scheduleLocks := scheduleLocks - {id};
    }

    /** `put`: an id that belongs to another workspace is refused. */
    method PutSchedule(id: Id, value: Schedule) returns (stored: bool)
      modifies this`schedules, this`scheduleLocks
      ensures stored <==> id in old(schedules) ==> old(schedules)[id].workspace == value.workspace
      ensures Value() == if stored then AfterPut(old(Value()), id, value) else old(Value())
      ensures stored ==> schedules == old(schedules)[id := value] && scheduleLocks == old(scheduleLocks) - {id}
    {
      if id in schedules && schedules[id].workspace != value.workspace {
        return false;
      }
      stored := true;
      schedules := schedules[id := value];
      scheduleLocks := scheduleLocks - {id};
    }

    method DeleteSchedule(id: Id) returns (deleted: bool)
      modifies this`schedules, this`scheduleLocks
      ensures deleted <==> id in old(schedules)
      ensures Value() == AfterDelete(old(Value()), id)
      ensures schedules == old(schedules) - {id} && scheduleLocks == old(scheduleLocks) - {id}
    {
      deleted := id in schedules;
      schedules := schedules - {id};
      scheduleLocks := scheduleLocks - {id};
    }
  }

  /** The first entry of the candidates when sorted by rank. */
  method Oldest(candidates: set<Id>, rank: map<Id, int>) returns (least: Id)
    requires candidates != {} && candidates <= rank.Keys
    ensures least in candidates && forall other :: other in candidates ==> rank[least] <= rank[other]
  {
    var rest := candidates;
    least :| least in rest;
    rest := rest - {least};
    while rest != {}
      invariant rest <= candidates && least in candidates
      invariant forall other :: other in candidates && other !in rest ==> rank[least] <= rank[other]
      decreases rest
    {
      var next :| next in rest;
      if rank[next] < rank[least] {
        least := next;
      }
      rest := rest - {next};
    }
  }
}
