/**
 What reaches the client of the live event stream (services/api/src/app.ts, the `/v1/events` handler), beyond
 storing and publishing in cursor order: the exact result of one replay whatever became visible when, a backlog
 that does not fit, and a client that connects again and again.
 */
module Delivery {
  import opened Wrappers
  import opened EventLog
  import opened EventStream

  // ---------- what every run keeps ----------

  /** Until it is live a connection has written nothing and keeps what was published since it subscribed;
      whatever was published is stored. */
  ghost predicate Connected(s: State, workspace: Id, after: int) {
    && s.seen <= |s.published|
    && (forall e :: e in s.published ==> e in s.log && e.aggregate.workspace == workspace)
    && match s.phase
       case Opened => s.client == Client(after, []) && s.pending == []
       case Live => true
       case _ => Waiting(s, after)
  }

  lemma StepConnected(s: State, step: Step, workspace: Id, after: int)
    requires Connected(s, workspace, after) && Enabled(s, step)
    ensures Connected(Apply(s, step, workspace, after), workspace, after)
  {
  }

  lemma {:induction false} RunConnected(s: State, steps: seq<Step>, workspace: Id, after: int)
    requires Connected(s, workspace, after) && Legal(s, steps, workspace, after)
    ensures Connected(Run(s, steps, workspace, after), workspace, after)
    decreases |steps|
  {
    if steps != [] {
      StepConnected(s, steps[0], workspace, after);
      RunConnected(Apply(s, steps[0], workspace, after), steps[1..], workspace, after);
    }
  }

  lemma {:induction false} RunGrows(s: State, steps: seq<Step>, workspace: Id, after: int)
    requires Legal(s, steps, workspace, after)
    ensures s.log <= Run(s, steps, workspace, after).log && s.published <= Run(s, steps, workspace, after).published
    decreases |steps|
  {
    if steps != [] {
      RunGrows(Apply(s, steps[0], workspace, after), steps[1..], workspace, after);
    }
  }

  // ---------- exactly what one replay delivers ----------

  lemma {:induction false} SendAllSnoc(c: Client, events: seq<Event>, e: Event)
    ensures SendAll(c, events + [e]) == Send(SendAll(c, events), e)
    decreases |events|
  {
    if events == [] {
      assert [] + [e] == [e] && [e][1..] == [];
    } else {
      SendAllSnoc(Send(c, events[0]), events[1..], e);
      assert (events + [e])[1..] == events[1..] + [e];
    }
  }

  /** What was published from the `k`-th publication on. */
  function From(published: seq<Event>, k: nat): seq<Event> {
    if k <= |published| then published[k..] else []
  }

  /** A connection that replays, or has replayed, exactly these rows. */
  ghost predicate Delivering(s: State, rows: seq<Event>, after: int) {
    && s.seen <= |s.published|
    && match s.phase
       case Queried(r) => r == rows && Waiting(s, after)
       case Live => s.client == SendAll(SendAll(Client(after, []), rows), From(s.published, s.seen))
       case _ => false
  }

  lemma StepDelivers(s: State, step: Step, rows: seq<Event>, workspace: Id, after: int)
    requires Delivering(s, rows, after) && Enabled(s, step)
    ensures Delivering(Apply(s, step, workspace, after), rows, after) && Apply(s, step, workspace, after).seen == s.seen
  {
    var s' := Apply(s, step, workspace, after);
    if step.Publish? && s'.published == s.published + [step.event] {
      assert From(s'.published, s.seen) == From(s.published, s.seen) + [step.event];
      SendAllSnoc(SendAll(Client(after, []), rows), From(s.published, s.seen), step.event);
    }
  }

  lemma {:induction false} RunDelivers(s: State, steps: seq<Step>, rows: seq<Event>, workspace: Id, after: int)
    requires Delivering(s, rows, after) && Legal(s, steps, workspace, after)
    ensures Delivering(Run(s, steps, workspace, after), rows, after) && Run(s, steps, workspace, after).seen == s.seen
    decreases |steps|
  {
    if steps != [] {
      StepDelivers(s, steps[0], rows, workspace, after);
      RunDelivers(Apply(s, steps[0], workspace, after), steps[1..], rows, workspace, after);
    }
  }

  /** From the query on, in every interleaving and any order of publication: a live client is what sending the
      rows and then everything published since the subscription makes of it. */
  lemma LiveClientIs(s: State, steps: seq<Step>, workspace: Id, after: int)
    requires s.phase.Queried? && Waiting(s, after) && Legal(s, steps, workspace, after)
    ensures var t := Run(s, steps, workspace, after);
      t.phase == Live ==>
        t.client == SendAll(SendAll(Client(after, []), s.phase.rows), From(t.published, s.seen))
  {
    RunDelivers(s, steps, s.phase.rows, workspace, after);
  }

  /** Ascending rows past the cursor, then events in cursor order: those are added that lie past the last row. */
  lemma SentThenFlushed(rows: seq<Event>, since: seq<Event>, after: int)
    requires Ascending(rows) && Ascending(since) && forall e :: e in rows ==> e.cursor > after
    ensures SendAll(SendAll(Client(after, []), rows), since).written == rows + Past(since, Mark(rows, after))
  {
    if rows != [] {
      assert rows[0] in rows;
    }
    SendNew(Client(after, []), rows);
    SendAscending(SendAll(Client(after, []), rows), since);
  }

  lemma {:induction false} PastExactly(events: seq<Event>, mark: int, e: Event)
    ensures e in Past(events, mark) <==> e in events && e.cursor > mark
  {
    if events != [] {
      PastExactly(events[1..], mark, e);
    }
  }

  /** With publication in cursor order since the subscription, a live client has exactly the rows and what was
      published past the last of them. It lacks nothing of what was published exactly if whatever of it
      lies at or before the last row is a row. */
  lemma LiveClientHasExactly(s: State, steps: seq<Step>, t: State, workspace: Id, after: int)
    requires s.phase.Queried? && Waiting(s, after) && Legal(s, steps, workspace, after)
    requires t == Run(s, steps, workspace, after) && t.phase == Live
    requires Ascending(s.phase.rows) && Ascending(From(t.published, s.seen))
    requires forall e :: e in s.phase.rows ==> e.cursor > after
    ensures var rows, since := s.phase.rows, From(t.published, s.seen);
      && t.client.written == rows + Past(since, Mark(rows, after))
      && ((forall e :: e in since && e.cursor > after ==> e in t.client.written) <==>
          (forall e :: e in since && after < e.cursor <= Mark(rows, after) ==> e in rows))
  {
    var rows, since := s.phase.rows, From(t.published, s.seen);
    LiveClientIs(s, steps, workspace, after);
    SentThenFlushed(rows, since, after);
    MarkIsLast(rows, after);
    forall e | e in since && e.cursor > after
      ensures e in t.client.written <==> (e.cursor <= Mark(rows, after) ==> e in rows)
    {
      PastExactly(since, Mark(rows, after), e);
    }
  }

  lemma MarkIsLast(rows: seq<Event>, after: int)
    requires Ascending(rows) && forall e :: e in rows ==> e.cursor > after
    ensures Mark(rows, after) >= after && forall e :: e in rows ==> e.cursor <= Mark(rows, after)
  {
    if rows != [] {
      assert rows[|rows| - 1] in rows;
    }
  }

  // ---------- exactly when nothing is lost ----------

  ghost predicate DistinctCursors(log: seq<Event>) {
    forall i, j :: 0 <= i < j < |log| ==> log[i].cursor != log[j].cursor
  }

  lemma {:induction false} Inserted(e: Event, sorted: seq<Event>, x: Event)
    ensures x in InsertByCursor(e, sorted) <==> x == e || x in sorted
  {
    if sorted != [] && e.cursor > sorted[0].cursor {
      Inserted(e, sorted[1..], x);
    }
  }

  lemma {:induction false} InsertAscends(e: Event, sorted: seq<Event>)
    requires Ascending(sorted) && forall x :: x in sorted ==> x.cursor != e.cursor
    ensures Ascending(InsertByCursor(e, sorted))
  {
    if sorted != [] && e.cursor > sorted[0].cursor {
      InsertAscends(e, sorted[1..]);
      var rest := InsertByCursor(e, sorted[1..]);
      forall i | 0 <= i < |rest|
        ensures sorted[0].cursor < rest[i].cursor
      {
        Inserted(e, sorted[1..], rest[i]);
      }
    } else if sorted != [] {
      assert sorted[0] in sorted;
    }
  }

  lemma {:induction false} SortedMember(events: seq<Event>, x: Event)
    ensures x in ByCursor(events) <==> x in events
  {
    if events != [] {
      SortedMember(events[1..], x);
      Inserted(events[0], ByCursor(events[1..]), x);
    }
  }

  lemma {:induction false} SortAscends(events: seq<Event>)
    requires DistinctCursors(events)
    ensures Ascending(ByCursor(events))
  {
    if events != [] {
      SortAscends(events[1..]);
      forall x | x in ByCursor(events[1..])
        ensures x.cursor != events[0].cursor
      {
        SortedMember(events[1..], x);
        var i :| 0 <= i < |events[1..]| && events[1..][i] == x;
        assert events[i + 1] == x;
      }
      InsertAscends(events[0], ByCursor(events[1..]));
    }
  }

  lemma {:induction false} LaterDistinct(log: seq<Event>, workspace: Id, after: int)
    requires DistinctCursors(log)
    ensures DistinctCursors(Later(log, workspace, after))
  {
    if log != [] {
      LaterDistinct(log[1..], workspace, after);
      var rest := Later(log[1..], workspace, after);
      forall k | 0 <= k < |rest|
        ensures rest[k].cursor != log[0].cursor
      {
        LaterMember(log[1..], workspace, after, rest[k]);
        var i :| 0 <= i < |log[1..]| && log[1..][i] == rest[k];
        assert log[i + 1] == rest[k];
      }
    }
  }

  /** Cursors being distinct, the rows ascend past the requested cursor; and if they fit the limit they are
      everything there was to read. */
  lemma RowsAscend(log: seq<Event>, workspace: Id, after: int)
    requires DistinctCursors(log)
    ensures Ascending(Rows(log, workspace, after))
    ensures forall e :: e in Rows(log, workspace, after) ==> e in Later(log, workspace, after) && e.cursor > after
    ensures |Later(log, workspace, after)| <= REPLAY_LIMIT ==>
      forall e :: e in Later(log, workspace, after) ==> e in Rows(log, workspace, after)
  {
    var later := Later(log, workspace, after);
    LaterDistinct(log, workspace, after);
    SortAscends(later);
    SortLength(later);
    forall e
      ensures e in ByCursor(later) <==> e in later
      ensures e in later ==> e.cursor > after
    {
      SortedMember(later, e);
      LaterMember(log, workspace, after, e);
    }
  }

  lemma {:induction false} SortLength(events: seq<Event>)
    ensures |ByCursor(events)| == |events|
  {
    if events != [] {
      SortLength(events[1..]);
      InsertLength(events[0], ByCursor(events[1..]));
    }
  }

  lemma {:induction false} InsertLength(e: Event, sorted: seq<Event>)
    ensures |InsertByCursor(e, sorted)| == |sorted| + 1
  {
    if sorted != [] && e.cursor > sorted[0].cursor {
      InsertLength(e, sorted[1..]);
    }
  }

  /** No event of the workspace at or before the mark was stored after the query. */
  ghost predicate NoneLate(atQuery: seq<Event>, log: seq<Event>, workspace: Id, after: int, mark: int) {
    forall e :: e in log && e.aggregate.workspace == workspace && after < e.cursor <= mark ==> e in atQuery
  }

  /**
   Exactly when nothing is lost: in a run with distinct cursors, at most the limit stored as the query runs,
   publication in cursor order since the subscription, and everything stored published by now, a live
   client has every stored event past its cursor exactly if no event with a cursor at or before the last
   row became visible after the query.
   */
  lemma NothingLostExactly(before: seq<Step>, s: State, more: seq<Step>, t: State, workspace: Id, after: int)
    requires Legal(Start(after), before, workspace, after) && s == Run(Start(after), before, workspace, after)
    requires s.phase == Subscribed && Legal(Apply(s, Query, workspace, after), more, workspace, after)
    requires t == Run(Apply(s, Query, workspace, after), more, workspace, after) && t.phase == Live
    requires DistinctCursors(t.log) && |Later(s.log, workspace, after)| <= REPLAY_LIMIT
    requires Ascending(From(t.published, s.seen))
    requires forall e :: e in Later(t.log, workspace, after) ==> e in t.published
    ensures (forall e :: e in Later(t.log, workspace, after) ==> e in t.client.written) <==>
            NoneLate(s.log, t.log, workspace, after, Mark(Rows(s.log, workspace, after), after))
  {
    var q := Apply(s, Query, workspace, after);
    var rows, since := Rows(s.log, workspace, after), From(t.published, s.seen);
    RunConnected(Start(after), before, workspace, after);
    RunGrows(q, more, workspace, after);
    RowsAscend(s.log, workspace, after);
    LiveClientHasExactly(q, more, t, workspace, after);
    forall e | e in Later(t.log, workspace, after)
      ensures e in t.client.written <==> (e.cursor <= Mark(rows, after) ==> e in s.log)
    {
      LaterMember(t.log, workspace, after, e);
      WrittenExactly(s, t, rows, workspace, after, e);
    }
    AllOrNoneLate(s.log, t.log, t.client.written, workspace, after, Mark(rows, after));
  }

  lemma AllOrNoneLate(atQuery: seq<Event>, log: seq<Event>, written: seq<Event>, workspace: Id, after: int, mark: int)
    requires forall e :: e in Later(log, workspace, after) ==> (e in written <==> (e.cursor <= mark ==> e in atQuery))
    ensures (forall e :: e in Later(log, workspace, after) ==> e in written) <==> NoneLate(atQuery, log, workspace, after, mark)
  {
    forall e
      ensures e in Later(log, workspace, after) <==> e in log && e.aggregate.workspace == workspace && e.cursor > after
    {
      LaterMember(log, workspace, after, e);
    }
  }

  /** Which stored event the client has. */
  lemma WrittenExactly(s: State, t: State, rows: seq<Event>, workspace: Id, after: int, e: Event)
    requires Connected(s, workspace, after) && s.published <= t.published
    requires rows == Rows(s.log, workspace, after) && DistinctCursors(s.log) && |Later(s.log, workspace, after)| <= REPLAY_LIMIT
    requires t.client.written == rows + Past(From(t.published, s.seen), Mark(rows, after))
    requires e in t.published && e.aggregate.workspace == workspace && e.cursor > after
    ensures e in t.client.written <==> (e.cursor <= Mark(rows, after) ==> e in s.log)
  {
    var since := From(t.published, s.seen);
    RowsAscend(s.log, workspace, after);
    MarkIsLast(rows, after);
    LaterMember(s.log, workspace, after, e);
    PastExactly(since, Mark(rows, after), e);
    var i :| 0 <= i < |t.published| && t.published[i] == e;
    if i < s.seen {
      assert s.published[i] == e;
    } else {
      assert since[i - s.seen] == e;
    }
  }

  // ---------- a run that loses one ----------

  function LateCommit(low: Event, high: Event): seq<Step> {
    [Subscribe, Append(high), Query, Append(low), Publish(low), Publish(high), ResumeReplay]
  }

  /** Such a run: of two events the smaller cursor becomes visible only after the query saw the greater. Both are
      stored, and published in cursor order; the client gets only one of them. */
  lemma LateCommitIsDropped(low: Event, high: Event, workspace: Id)
    requires 0 < low.cursor < high.cursor && low.aggregate.workspace == high.aggregate.workspace == workspace
    ensures Legal(Start(0), LateCommit(low, high), workspace, 0)
    ensures var s := Run(Start(0), LateCommit(low, high), workspace, 0);
      && s.phase == Live && s.log == [high, low] && s.published == [low, high] && s.client.written == [high]
  {
    LateChain(0, low, high, workspace);
    assert LateCommit(low, high)[0..] == LateCommit(low, high);
  }

  /** The states of that run. */
  function LateState(i: nat, low: Event, high: Event): State {
    State(if i < 2 then [] else if i < 4 then [high] else [high, low],
          if i < 5 then [] else if i == 5 then [low] else [low, high],
          if i == 0 then Opened else if i < 3 then Subscribed else if i < 7 then Queried([high]) else Live,
          if i < 7 then Client(0, []) else Client(high.cursor, [high]),
          if i < 5 then [] else if i == 5 then [low] else [low, high],
          0)
  }

  lemma LateStep(i: nat, low: Event, high: Event, workspace: Id)
    requires 0 < low.cursor < high.cursor && low.aggregate.workspace == high.aggregate.workspace == workspace && i < 7
    ensures Leads(LateState(i, low, high), LateCommit(low, high)[i], LateState(i + 1, low, high), workspace)
  {
    if i == 2 {
      LateQuery(low, high, workspace);
    } else if i == 6 {
      LateResume(low, high, workspace);
    }
  }

  lemma LateQuery(low: Event, high: Event, workspace: Id)
    requires 0 < high.cursor && high.aggregate.workspace == workspace
    ensures Leads(LateState(2, low, high), Query, LateState(3, low, high), workspace)
  {
    OneRow(high);
  }

  lemma LateResume(low: Event, high: Event, workspace: Id)
    requires 0 < low.cursor < high.cursor
    ensures Leads(LateState(6, low, high), ResumeReplay, LateState(7, low, high), workspace)
  {
    LateFlush(high, low);
  }

  lemma {:induction false} LateChain(i: nat, low: Event, high: Event, workspace: Id)
    requires 0 < low.cursor < high.cursor && low.aggregate.workspace == high.aggregate.workspace == workspace && i <= 7
    ensures Legal(LateState(i, low, high), LateCommit(low, high)[i..], workspace, 0)
    ensures Run(LateState(i, low, high), LateCommit(low, high)[i..], workspace, 0) == LateState(7, low, high)
    decreases 7 - i
  {
    if i < 7 {
      LateStep(i, low, high, workspace);
      LateChain(i + 1, low, high, workspace);
      Ahead(LateState(i, low, high), LateCommit(low, high), i, LateState(i + 1, low, high), workspace);
    }
  }

  predicate Leads(s: State, step: Step, next: State, workspace: Id) {
    Enabled(s, step) && Apply(s, step, workspace, 0) == next
  }

  lemma LateFlush(high: Event, low: Event)
    requires 0 < low.cursor < high.cursor
    ensures SendAll(SendAll(Client(0, []), [high]), [low, high]) == Client(high.cursor, [high])
  {
    var c := Client(high.cursor, [high]);
    assert [low, high][1..] == [high] && [high][1..] == [];
    assert SendAll(Client(0, []), [high]) == SendAll(c, []) == c;
    assert SendAll(c, [low, high]) == SendAll(c, [high]) == SendAll(c, []) == c;
  }

  lemma OneRow(e: Event)
    requires e.cursor > 0
    ensures Rows([e], e.aggregate.workspace, 0) == [e]
  {
    assert [e][1..] == [];
    assert Later([e], e.aggregate.workspace, 0) == [e];
    SortedAlready([e]);
  }

  lemma Ahead(s: State, steps: seq<Step>, i: nat, next: State, workspace: Id)
    requires i < |steps| && Enabled(s, steps[i]) && Apply(s, steps[i], workspace, 0) == next
    requires Legal(next, steps[i + 1..], workspace, 0)
    ensures Legal(s, steps[i..], workspace, 0)
    ensures Run(s, steps[i..], workspace, 0) == Run(next, steps[i + 1..], workspace, 0)
  {
    assert steps[i..][0] == steps[i] && steps[i..][1..] == steps[i + 1..];
  }

  // ---------- a run whose backlog does not fit ----------

  function Numbered(n: nat, workspace: Id): Event {
    Event(Aggregate(workspace, Label(0), Id(0)), Other, None, n, n)
  }

  function First(n: nat, workspace: Id): (log: seq<Event>)
    ensures |log| == n
  {
    if n == 0 then [] else First(n - 1, workspace) + [Numbered(n, workspace)]
  }

  /** Events `k + 1` to `n` are stored and published in turn; then the client subscribes. */
  function Fill(k: nat, n: nat, workspace: Id): seq<Step>
    requires k <= n
    decreases n - k
  {
    if k == n then [Subscribe]
    else [Append(Numbered(k + 1, workspace)), Publish(Numbered(k + 1, workspace))] + Fill(k + 1, n, workspace)
  }

  function Filled(k: nat, workspace: Id): State {
    State(First(k, workspace), First(k, workspace), Opened, Client(0, []), [], 0)
  }

  lemma {:induction false} FirstIs(n: nat, workspace: Id)
    ensures forall i :: 0 <= i < n ==> First(n, workspace)[i] == Numbered(i + 1, workspace)
  {
    if n > 0 {
      FirstIs(n - 1, workspace);
    }
  }

  lemma {:induction false} FirstOwn(n: nat, workspace: Id)
    ensures Own(First(n, workspace), workspace) == First(n, workspace)
  {
    if n > 0 {
      FirstOwn(n - 1, workspace);
      OwnGrows(First(n - 1, workspace), Numbered(n, workspace), workspace);
    }
  }

  lemma FilledInOrder(k: nat, workspace: Id)
    ensures InCursorOrder(Filled(k, workspace), workspace)
  {
    FirstIs(k, workspace);
    FirstOwn(k, workspace);
  }

  lemma StoredNext(k: nat, workspace: Id)
    ensures var s := Apply(Filled(k, workspace), Append(Numbered(k + 1, workspace)), workspace, 0);
      && InCursorOrder(s, workspace)
      && Enabled(s, Publish(Numbered(k + 1, workspace)))
      && Apply(s, Publish(Numbered(k + 1, workspace)), workspace, 0) == Filled(k + 1, workspace)
  {
    FirstIs(k + 1, workspace);
    FirstOwn(k + 1, workspace);
  }

  lemma {:induction false} FillRun(k: nat, n: nat, workspace: Id)
    requires k <= n
    ensures Legal(Filled(k, workspace), Fill(k, n, workspace), workspace, 0)
    ensures Orderly(Filled(k, workspace), Fill(k, n, workspace), workspace, 0)
    ensures Run(Filled(k, workspace), Fill(k, n, workspace), workspace, 0) ==
            Filled(n, workspace).(phase := Subscribed, seen := n)
    decreases n - k
  {
    FilledInOrder(k, workspace);
    if k < n {
      FillRun(k + 1, n, workspace);
      StoredNext(k, workspace);
      TwoSteps(Filled(k, workspace), Append(Numbered(k + 1, workspace)), Publish(Numbered(k + 1, workspace)),
               Fill(k + 1, n, workspace), workspace);
    } else {
      OneStep(Filled(k, workspace), Subscribe, [], workspace);
      assert [Subscribe] + [] == [Subscribe];
    }
  }

  lemma OneStep(s: State, step: Step, rest: seq<Step>, workspace: Id)
    requires Enabled(s, step) && InCursorOrder(s, workspace)
    requires Legal(Apply(s, step, workspace, 0), rest, workspace, 0)
    requires rest == [] || Orderly(Apply(s, step, workspace, 0), rest, workspace, 0)
    requires InCursorOrder(Apply(s, step, workspace, 0), workspace)
    ensures Legal(s, [step] + rest, workspace, 0) && Orderly(s, [step] + rest, workspace, 0)
    ensures Run(s, [step] + rest, workspace, 0) == Run(Apply(s, step, workspace, 0), rest, workspace, 0)
  {
    assert ([step] + rest)[1..] == rest;
  }

  lemma TwoSteps(s: State, a: Step, b: Step, rest: seq<Step>, workspace: Id)
    requires Enabled(s, a) && Enabled(Apply(s, a, workspace, 0), b)
    requires InCursorOrder(s, workspace) && InCursorOrder(Apply(s, a, workspace, 0), workspace)
    requires
      var t := Apply(Apply(s, a, workspace, 0), b, workspace, 0);
      InCursorOrder(t, workspace) && Legal(t, rest, workspace, 0) && Orderly(t, rest, workspace, 0)
    ensures Legal(s, [a, b] + rest, workspace, 0) && Orderly(s, [a, b] + rest, workspace, 0)
    ensures Run(s, [a, b] + rest, workspace, 0) == Run(Apply(Apply(s, a, workspace, 0), b, workspace, 0), rest, workspace, 0)
  {
    OneStep(Apply(s, a, workspace, 0), b, rest, workspace);
    OneStep(s, a, [b] + rest, workspace);
    assert [a, b] + rest == [a] + ([b] + rest);
  }

  /** An orderly run from the start can end in a subscription whose backlog has any number of events, also more
      than the limit: the cut-off replay is reached. */
  lemma BacklogOfAnySize(n: nat, workspace: Id)
    ensures Legal(Start(0), Fill(0, n, workspace), workspace, 0) && Orderly(Start(0), Fill(0, n, workspace), workspace, 0)
    ensures var s := Run(Start(0), Fill(0, n, workspace), workspace, 0);
      s.phase == Subscribed && Waiting(s, 0) && |Backlog(s, 0)| == n
  {
    FillRun(0, n, workspace);
    FirstIs(n, workspace);
    PastKeepsAll(First(n, workspace), 0);
    assert First(n, workspace)[..n] == First(n, workspace) && First(n, workspace)[n..] == [];
  }

  // ---------- a client that connects again and again ----------

  /** The client drops its connection, live or not, and opens another from its last cursor. */
  function Reconnect(t: State): State {
    t.(phase := Opened, client := Client(t.client.cursor, []), pending := [], seen := 0)
  }

  /** One list of steps for each connection in turn; storing and publishing go on between and during them. */
  ghost predicate Sessions(s: State, connections: seq<seq<Step>>, workspace: Id)
    decreases |connections|
  {
    connections != [] ==>
      var after := s.client.cursor;
      && Legal(s, connections[0], workspace, after)
      && Orderly(s, connections[0], workspace, after)
      && SmallBacklog(s, connections[0], workspace, after)
      && Sessions(Reconnect(Run(s, connections[0], workspace, after)), connections[1..], workspace)
  }

  /** The state that the last connection ends in. */
  ghost function Final(s: State, connections: seq<seq<Step>>, workspace: Id): State
    requires Sessions(s, connections, workspace)
    decreases |connections|
  {
    if connections == [] then s
    else
      var t := Run(s, connections[0], workspace, s.client.cursor);
      if |connections| == 1 then t else Final(Reconnect(t), connections[1..], workspace)
  }

  /** What the client received over all connections, one after the other. */
  ghost function Received(s: State, connections: seq<seq<Step>>, workspace: Id): seq<Event>
    requires Sessions(s, connections, workspace)
    decreases |connections|
  {
    if connections == [] then []
    else
      var t := Run(s, connections[0], workspace, s.client.cursor);
      t.client.written + Received(Reconnect(t), connections[1..], workspace)
  }

  ghost predicate Fresh(s: State, workspace: Id) {
    && s.phase == Opened && s.pending == [] && s.client.written == [] && s.client.cursor >= 0
    && InCursorOrder(s, workspace)
  }

  /** What one connection adds: a first part of what was there to read, all of it once everything is published. */
  lemma OneConnection(s: State, steps: seq<Step>, workspace: Id)
    requires Fresh(s, workspace)
    requires var after := s.client.cursor;
      Legal(s, steps, workspace, after) && Orderly(s, steps, workspace, after) && SmallBacklog(s, steps, workspace, after)
    ensures var t := Run(s, steps, workspace, s.client.cursor);
      && t.client.written <= Later(t.log, workspace, s.client.cursor)
      && t.client.cursor == Mark(t.client.written, s.client.cursor)
      && (t.phase == Live && t.published == Own(t.log, workspace) ==> t.client.written == Later(t.log, workspace, s.client.cursor))
      && Ascending(t.log) && InCursorOrder(t, workspace)
  {
    var after := s.client.cursor;
    var t := Run(s, steps, workspace, after);
    LaterAscends(s.log, workspace, -1);
    RunKeepsGapless(s, steps, workspace, after);
    EndsOrderly(s, steps, workspace, after);
    if t.phase == Live {
      var own := Own(t.log, workspace);
      var m: nat :| |t.published| <= m && CaughtUp(t.client, own, m, after);
      LaterIsPast(t.log, workspace, -1, after);
      PastIsPrefix(own, m, after);
      assert own[..|own|] == own;
    }
  }

  lemma {:induction false} EndsOrderly(s: State, steps: seq<Step>, workspace: Id, after: int)
    requires Legal(s, steps, workspace, after) && Orderly(s, steps, workspace, after)
    ensures InCursorOrder(Run(s, steps, workspace, after), workspace)
    decreases |steps|
  {
    if steps != [] {
      EndsOrderly(Apply(s, steps[0], workspace, after), steps[1..], workspace, after);
    }
  }

  lemma {:induction false} ReconnectingGapless(s: State, connections: seq<seq<Step>>, workspace: Id)
    requires Fresh(s, workspace) && Sessions(s, connections, workspace)
    ensures var t, after := Final(s, connections, workspace), s.client.cursor;
      && s.log <= t.log && Ascending(t.log)
      && Received(s, connections, workspace) <= Later(t.log, workspace, after)
      && (connections != [] && t.phase == Live && t.published == Own(t.log, workspace) ==>
            Received(s, connections, workspace) == Later(t.log, workspace, after))
    decreases |connections|
  {
    if connections != [] {
      var after := s.client.cursor;
      var t := Run(s, connections[0], workspace, after);
      OneConnection(s, connections[0], workspace);
      RunGrows(s, connections[0], workspace, after);
      if |connections| == 1 {
        assert Received(Reconnect(t), connections[1..], workspace) == [];
      } else {
        ReconnectingGapless(Reconnect(t), connections[1..], workspace);
        var last := Final(Reconnect(t), connections[1..], workspace).log;
        PrefixOfLater(t.log, last, workspace, after);
        PartContinues(last, workspace, after, t.client.written, Received(Reconnect(t), connections[1..], workspace));
      }
    }
  }

  lemma PrefixOfLater(first: seq<Event>, last: seq<Event>, workspace: Id, after: int)
    requires first <= last
    ensures Later(first, workspace, after) <= Later(last, workspace, after)
  {
    assert last == first + last[|first|..];
    LaterConcat(first, last[|first|..], workspace, after);
  }

  /** Over any number of connections, each opened from the last cursor and each with a backlog within the limit,
      the client receives one list without a gap or a repetition, in cursor order; and it has all that is
      stored once it is live and everything is published. */
  lemma ConnectionsAreGapless(connections: seq<seq<Step>>, workspace: Id, after: int)
    requires after >= 0 && Sessions(Start(after), connections, workspace)
    ensures var t, received := Final(Start(after), connections, workspace), Received(Start(after), connections, workspace);
      && received <= Later(t.log, workspace, after) && Ascending(received)
      && (connections != [] && t.phase == Live && t.published == Own(t.log, workspace) ==> received == Later(t.log, workspace, after))
  {
    var t := Final(Start(after), connections, workspace);
    ReconnectingGapless(Start(after), connections, workspace);
    LaterAscends(t.log, workspace, after);
  }
}
