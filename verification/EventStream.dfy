/**
 The live event stream of the API (services/api/src/app.ts, the `/v1/events` handler;
 services/api/src/events.ts): subscribe, query the log, replay, flush what arrived meanwhile, go live.

 The machine below interleaves one client's connection with any number of writers that append to the
 log and publish to the hub. The query is a step of its own: anything may happen between subscribing
 and querying, and between querying and resuming with the rows.
 */
module EventStream {
  import opened Wrappers
  import opened EventLog

  const REPLAY_LIMIT: nat := 5000

  /** What the connection has written, and the highest cursor among it. */
  datatype Client = Client(cursor: int, written: seq<Event>)

  function Send(c: Client, e: Event): Client {
    if e.cursor <= c.cursor then c else Client(e.cursor, c.written + [e])
  }

  function SendAll(c: Client, events: seq<Event>): Client
    decreases |events|
  {
    if events == [] then c else SendAll(Send(c, events[0]), events[1..])
  }

  /** The handler's variables and callbacks. */
  class Handler {
    var cursor: int
    var pending: seq<Event>
    var replaying: bool
    var written: seq<Event>

    ghost function Value(): Client
      reads this
    {
      Client(cursor, written)
    }

    constructor (after: int)
      ensures Value() == Client(after, []) && pending == [] && replaying
    {
      cursor, pending, replaying, written := after, [], true, [];
    }

    method SendEvent(event: Event)
      modifies this`cursor, this`written
      ensures Value() == Send(old(Value()), event)
    {
      if event.cursor <= cursor {
        return;
      }
      cursor := event.cursor;
      written := written + [event];
    }

    /** The hub's listener. */
    method OnEvent(event: Event)
      modifies this
      ensures replaying == old(replaying)
      ensures if replaying then pending == old(pending) + [event] && Value() == old(Value())
              else pending == old(pending) && Value() == Send(old(Value()), event)
    {
      if replaying {
        pending := pending + [event];
      } else {
        SendEvent(event);
      }
    }

    method SendRows(rows: seq<Event>)
      modifies this`cursor, this`written
      ensures Value() == SendAll(old(Value()), rows)
    {
      ghost var target := SendAll(Value(), rows);
      assert rows[0..] == rows;
      for i := 0 to |rows|
        invariant SendAll(Value(), rows[i..]) == target
      {
        assert rows[i..][1..] == rows[i + 1..];
        SendEvent(rows[i]);
      }
    }

    /** What follows the query: replay the rows, then flush, with nothing in between. */
    method Resume(rows: seq<Event>)
      requires replaying
      modifies this
      ensures !replaying && pending == old(pending)
      ensures Value() == SendAll(SendAll(old(Value()), rows), pending)
    {
      SendRows(rows);
      replaying := false;
      SendRows(pending);
    }
  }

  // ---------- the machine ----------

  function InsertByCursor(e: Event, sorted: seq<Event>): seq<Event> {
    if sorted == [] then [e]
    else if e.cursor <= sorted[0].cursor then [e] + sorted
    else [sorted[0]] + InsertByCursor(e, sorted[1..])
  }

  function ByCursor(events: seq<Event>): seq<Event> {
    if events == [] then [] else InsertByCursor(events[0], ByCursor(events[1..]))
  }

  /** The replay query: the earliest stored events past the cursor, in cursor order, whatever order they were
      stored in. */
  function Rows(log: seq<Event>, workspace: Id, after: int): seq<Event> {
    var all := ByCursor(Later(log, workspace, after));
    all[..Min(REPLAY_LIMIT, |all|)]
  }

  lemma {:induction false} SortedAlready(events: seq<Event>)
    requires Ascending(events)
    ensures ByCursor(events) == events
  {
    if events != [] {
      SortedAlready(events[1..]);
      assert events == [events[0]] + events[1..];
    }
  }

  datatype Phase = Opened | Subscribed | Queried(rows: seq<Event>) | Live

  /** `published` lists the workspace's publications so far; `seen` is its length at subscription. */
  datatype State = State(
    log: seq<Event>, published: seq<Event>, phase: Phase, client: Client, pending: seq<Event>, seen: nat)

  datatype Step = Append(event: Event) | Publish(event: Event) | Subscribe | Query | ResumeReplay

  predicate Enabled(s: State, step: Step) {
    match step
    case Append(_) => true
    case Publish(e) => e in s.log
    case Subscribe => s.phase == Opened
    case Query => s.phase == Subscribed
    case ResumeReplay => s.phase.Queried?
  }

  function Apply(s: State, step: Step, workspace: Id, after: int): State
    requires Enabled(s, step)
  {
    match step
    case Append(e) => s.(log := s.log + [e])
    case Publish(e) =>
      if e.aggregate.workspace != workspace then s
      else
        var t := s.(published := s.published + [e]);
        if s.phase == Opened then t
        else if s.phase == Live then t.(client := Send(s.client, e))
        else t.(pending := s.pending + [e])
    case Subscribe => s.(phase := Subscribed, seen := |s.published|)
    case Query => s.(phase := Queried(Rows(s.log, workspace, after)))
    case ResumeReplay => s.(phase := Live, client := SendAll(SendAll(s.client, s.phase.rows), s.pending))
  }

  predicate Legal(s: State, steps: seq<Step>, workspace: Id, after: int)
    decreases |steps|
  {
    steps == [] || (Enabled(s, steps[0]) && Legal(Apply(s, steps[0], workspace, after), steps[1..], workspace, after))
  }

  function Run(s: State, steps: seq<Step>, workspace: Id, after: int): State
    requires Legal(s, steps, workspace, after)
    decreases |steps|
  {
    if steps == [] then s else Run(Apply(s, steps[0], workspace, after), steps[1..], workspace, after)
  }

  function Start(after: int): State { State([], [], Opened, Client(after, []), [], 0) }

  // ---------- with no assumption ----------

  /** What was written ascends, lies past the requested cursor, and ends at the client's cursor. */
  ghost predicate InOrder(c: Client, after: int) {
    && Ascending(c.written)
    && (forall i :: 0 <= i < |c.written| ==> after < c.written[i].cursor <= c.cursor)
    && after <= c.cursor
  }

  lemma {:induction false} SendAllInOrder(c: Client, events: seq<Event>, after: int)
    requires InOrder(c, after)
    ensures InOrder(SendAll(c, events), after)
    decreases |events|
  {
    if events != [] {
      SendAllInOrder(Send(c, events[0]), events[1..], after);
    }
  }

  lemma {:induction false} RunInOrder(s: State, steps: seq<Step>, workspace: Id, after: int)
    requires InOrder(s.client, after) && Legal(s, steps, workspace, after)
    ensures InOrder(Run(s, steps, workspace, after).client, after)
    decreases |steps|
  {
    if steps != [] {
      var s' := Apply(s, steps[0], workspace, after);
      if steps[0].ResumeReplay? {
        SendAllInOrder(s.client, s.phase.rows, after);
        SendAllInOrder(SendAll(s.client, s.phase.rows), s.pending, after);
      }
      RunInOrder(s', steps[1..], workspace, after);
    }
  }

  /** In every interleaving, published in any order and any number of times, the delivered cursors strictly
      increase and lie past the requested one. */
  lemma DeliveredCursorsIncrease(steps: seq<Step>, workspace: Id, after: int)
    requires Legal(Start(after), steps, workspace, after)
    ensures var written := Run(Start(after), steps, workspace, after).client.written;
      Ascending(written) && forall i :: 0 <= i < |written| ==> after < written[i].cursor
  {
    RunInOrder(Start(after), steps, workspace, after);
  }

  /** Events that ascend from past the client's cursor are all written. */
  lemma {:induction false} SendNew(c: Client, events: seq<Event>)
    requires Ascending(events) && (events != [] ==> events[0].cursor > c.cursor)
    ensures SendAll(c, events).written == c.written + events
    ensures SendAll(c, events).cursor == if events == [] then c.cursor else events[|events| - 1].cursor
    decreases |events|
  {
    if events != [] {
      SendNew(Send(c, events[0]), events[1..]);
      assert events == [events[0]] + events[1..];
    }
  }

  /** Sending an ascending list adds exactly what lies past the client's cursor. */
  lemma {:induction false} SendAscending(c: Client, events: seq<Event>)
    requires Ascending(events)
    ensures SendAll(c, events).written == c.written + Past(events, c.cursor)
    decreases |events|
  {
    if events != [] {
      if events[0].cursor > c.cursor {
        SendNew(c, events);
        PastKeepsAll(events, c.cursor);
      } else {
        SendAscending(c, events[1..]);
      }
    }
  }

  // ---------- when events are stored and published in cursor order ----------

  /** The workspace's own log. */
  function Own(log: seq<Event>, workspace: Id): seq<Event> { Later(log, workspace, -1) }

  ghost predicate PublishedInOrder(s: State, workspace: Id) {
    s.published <= Own(s.log, workspace)
  }

  /** Events became visible in cursor order, and were published in it, once each. */
  ghost predicate InCursorOrder(s: State, workspace: Id) {
    Ascending(s.log) && PublishedInOrder(s, workspace)
  }

  ghost predicate Orderly(s: State, steps: seq<Step>, workspace: Id, after: int)
    requires Legal(s, steps, workspace, after)
    decreases |steps|
  {
    && InCursorOrder(s, workspace)
    && (steps != [] ==> Orderly(Apply(s, steps[0], workspace, after), steps[1..], workspace, after))
  }

  lemma {:induction false} OwnGrows(log: seq<Event>, e: Event, workspace: Id)
    ensures Own(log + [e], workspace) == if e.aggregate.workspace == workspace then Own(log, workspace) + [e] else Own(log, workspace)
  {
    if log == [] {
      assert [e][1..] == [];
    } else {
      OwnGrows(log[1..], e, workspace);
      assert (log + [e])[1..] == log[1..] + [e];
    }
  }

  lemma {:induction false} PastGrows(events: seq<Event>, e: Event, mark: int)
    ensures Past(events + [e], mark) == if e.cursor > mark then Past(events, mark) + [e] else Past(events, mark)
  {
    if events == [] {
      assert [e][1..] == [];
    } else {
      PastGrows(events[1..], e, mark);
      assert (events + [e])[1..] == events[1..] + [e];
    }
  }

  lemma PastStep(own: seq<Event>, m: nat, mark: int)
    requires m < |own|
    ensures Past(own[..m + 1], mark) == if own[m].cursor > mark then Past(own[..m], mark) + [own[m]] else Past(own[..m], mark)
  {
    assert own[..m + 1] == own[..m] + [own[m]];
    PastGrows(own[..m], own[m], mark);
  }

  /** The client has exactly the first `m` events of the workspace, as far as it asked for them. */
  ghost predicate CaughtUp(c: Client, own: seq<Event>, m: nat, after: int) {
    && m <= |own|
    && c.written == Past(own[..m], after)
    && c.cursor == (if c.written == [] then after else c.written[|c.written| - 1].cursor)
    && (forall k :: 0 <= k < m ==> own[k].cursor <= c.cursor)
    && after <= c.cursor
  }

  lemma SendCatchesUp(c: Client, own: seq<Event>, m: nat, k: nat, after: int)
    requires Ascending(own) && CaughtUp(c, own, m, after) && k <= m && k < |own|
    ensures CaughtUp(Send(c, own[k]), own, Max(m, k + 1), after)
  {
    if k == m {
      PastStep(own, m, after);
      if own[m].cursor > after {
        PastBounded(own[..m], after, own[m].cursor);
      }
    }
  }

  lemma {:induction false} PastBounded(events: seq<Event>, mark: int, bound: int)
    requires forall i :: 0 <= i < |events| ==> events[i].cursor < bound
    ensures forall i :: 0 <= i < |Past(events, mark)| ==> Past(events, mark)[i].cursor < bound
  {
    if events != [] {
      PastBounded(events[1..], mark, bound);
    }
  }

  /** Sending a stretch that starts no later than where the client is extends it without a gap. */
  lemma {:induction false} SendStretch(c: Client, own: seq<Event>, m: nat, from: nat, to: nat, after: int)
    requires Ascending(own) && CaughtUp(c, own, m, after) && from <= m && from <= to <= |own|
    ensures CaughtUp(SendAll(c, own[from..to]), own, Max(m, to), after)
    decreases |own| - from
  {
    if from < to {
      SendCatchesUp(c, own, m, from, after);
      assert own[from..to][1..] == own[from + 1..to];
      SendStretch(Send(c, own[from]), own, Max(m, from + 1), from + 1, to, after);
    }
  }

  // ---------- the replay query ----------

  lemma {:induction false} PastIsPrefix(own: seq<Event>, m: nat, mark: int)
    requires m <= |own|
    ensures Past(own[..m], mark) <= Past(own, mark)
    decreases |own| - m
  {
    if m == |own| {
      assert own[..m] == own;
    } else {
      PastStep(own, m, mark);
      PastIsPrefix(own, m + 1, mark);
    }
  }

  /** Any number of rows, from a given point of the log on, is what the client would have at some later point. */
  lemma {:induction false} RowsReach(own: seq<Event>, j: nat, n: nat, mark: int) returns (m: nat)
    requires j <= |own| && |Past(own[..j], mark)| <= n <= |Past(own, mark)|
    ensures j <= m <= |own| && Past(own[..m], mark) == Past(own, mark)[..n]
    decreases |own| - j
  {
    PastIsPrefix(own, j, mark);
    if |Past(own[..j], mark)| == n {
      m := j;
    } else {
      assert own[..|own|] == own;
      PastStep(own, j, mark);
      m := RowsReach(own, j + 1, n, mark);
    }
  }

  /** The rows, in terms of the workspace's own log, when that is in cursor order. */
  lemma RowsOf(log: seq<Event>, workspace: Id, after: int)
    requires after >= 0 && Ascending(log)
    ensures var all := Past(Own(log, workspace), after);
      Rows(log, workspace, after) == all[..Min(REPLAY_LIMIT, |all|)]
  {
    LaterIsPast(log, workspace, -1, after);
    LaterAscends(log, workspace, after);
    SortedAlready(Later(log, workspace, after));
  }

  // ---------- the invariant ----------

  /** The events that were public when the client subscribed, as far as it asked for them. */
  function Backlog(s: State, after: int): seq<Event>
    requires s.seen <= |s.published|
  {
    Past(s.published[..s.seen], after)
  }

  ghost predicate Waiting(s: State, after: int) {
    s.client == Client(after, []) && s.seen <= |s.published| && s.pending == s.published[s.seen..]
  }

  ghost predicate Gapless(s: State, workspace: Id, after: int) {
    var own := Own(s.log, workspace);
    && Ascending(s.log)
    && Ascending(own)
    && s.published <= own
    && match s.phase
       case Opened => s.client == Client(after, []) && s.pending == []
       case Subscribed => Waiting(s, after)
       case Queried(rows) => Waiting(s, after) && exists m: nat :: s.seen <= m <= |own| && rows == Past(own[..m], after)
       case Live => exists m: nat :: |s.published| <= m && CaughtUp(s.client, own, m, after)
  }

  lemma AppendKeepsAscending(log: seq<Event>, e: Event, workspace: Id)
    requires Ascending(log + [e])
    ensures Ascending(Own(log + [e], workspace))
    ensures Own(log, workspace) <= Own(log + [e], workspace)
  {
    LaterAscends(log + [e], workspace, -1);
    OwnGrows(log, e, workspace);
  }

  lemma AppendStep(s: State, e: Event, workspace: Id, after: int)
    requires Gapless(s, workspace, after) && Ascending(s.log + [e])
    ensures Gapless(Apply(s, Append(e), workspace, after), workspace, after)
  {
    var own, own' := Own(s.log, workspace), Own(s.log + [e], workspace);
    AppendKeepsAscending(s.log, e, workspace);
    match s.phase
    case Queried(rows) =>
      var m: nat :| s.seen <= m <= |own| && rows == Past(own[..m], after);
      assert own'[..m] == own[..m];
    case Live =>
      var m: nat :| |s.published| <= m && CaughtUp(s.client, own, m, after);
      assert own'[..m] == own[..m];
      assert CaughtUp(s.client, own', m, after);
    case _ =>
  }

  lemma PublishStep(s: State, e: Event, workspace: Id, after: int)
    requires Gapless(s, workspace, after) && Enabled(s, Publish(e))
    requires InCursorOrder(Apply(s, Publish(e), workspace, after), workspace)
    ensures Gapless(Apply(s, Publish(e), workspace, after), workspace, after)
  {
    var s' := Apply(s, Publish(e), workspace, after);
    var own := Own(s.log, workspace);
    var n := |s.published|;
    if s'.published == s.published + [e] {
      assert own[n] == s'.published[n] == e;
      if s.phase == Live {
        var m: nat :| n <= m && CaughtUp(s.client, own, m, after);
        SendCatchesUp(s.client, own, m, n, after);
        assert CaughtUp(s'.client, own, Max(m, n + 1), after);
      } else if s.phase != Opened {
        assert s'.published[..s.seen] == s.published[..s.seen];
        assert s'.published[s.seen..] == s.published[s.seen..] + [e];
      }
    }
  }

  lemma QueryStep(s: State, workspace: Id, after: int)
    requires Gapless(s, workspace, after) && Enabled(s, Query) && after >= 0 && |Backlog(s, after)| <= REPLAY_LIMIT
    ensures Gapless(Apply(s, Query, workspace, after), workspace, after)
  {
    var own := Own(s.log, workspace);
    RowsOf(s.log, workspace, after);
    assert own[..s.seen] == s.published[..s.seen];
    PastIsPrefix(own, s.seen, after);
    var m := RowsReach(own, s.seen, Min(REPLAY_LIMIT, |Past(own, after)|), after);
  }

  lemma ResumeStep(s: State, workspace: Id, after: int)
    requires Gapless(s, workspace, after) && Enabled(s, ResumeReplay)
    ensures Gapless(Apply(s, ResumeReplay, workspace, after), workspace, after)
  {
    var own := Own(s.log, workspace);
    var rows := s.phase.rows;
    var m: nat :| s.seen <= m <= |own| && rows == Past(own[..m], after);
    ResumedCatchesUp(s, own, m, after);
  }

  lemma ResumedCatchesUp(s: State, own: seq<Event>, m: nat, after: int)
    requires Ascending(own) && s.published <= own && Waiting(s, after) && s.seen <= m <= |own|
    ensures CaughtUp(SendAll(SendAll(s.client, Past(own[..m], after)), s.pending), own, Max(m, |s.published|), after)
  {
    RowsCatchUp(own, m, after);
    assert s.pending == own[s.seen..|s.published|];
    SendStretch(SendAll(s.client, Past(own[..m], after)), own, m, s.seen, |s.published|, after);
  }

  lemma RowsCatchUp(own: seq<Event>, m: nat, after: int)
    requires Ascending(own) && m <= |own|
    ensures CaughtUp(SendAll(Client(after, []), Past(own[..m], after)), own, m, after)
  {
    SendPast(Client(after, []), own, 0, m, after);
    assert own[0..m] == own[..m];
  }

  /** Sending only the events past the mark is the same as sending them all. */
  lemma {:induction false} SendPast(c: Client, own: seq<Event>, from: nat, to: nat, after: int)
    requires Ascending(own) && CaughtUp(c, own, from, after) && from <= to <= |own|
    ensures CaughtUp(SendAll(c, Past(own[from..to], after)), own, to, after)
    decreases |own| - from
  {
    if from < to {
      assert own[from..to][1..] == own[from + 1..to];
      SendCatchesUp(c, own, from, from, after);
      SendPast(Send(c, own[from]), own, from + 1, to, after);
      if own[from].cursor > after {
        var rest := Past(own[from + 1..to], after);
        assert ([own[from]] + rest)[1..] == rest;
      }
    }
  }

  /** Every step keeps the stream free of gaps, if the backlog at the query fits the replay limit. */
  lemma StepKeepsGapless(s: State, step: Step, workspace: Id, after: int)
    requires Gapless(s, workspace, after) && Enabled(s, step) && after >= 0
    requires InCursorOrder(Apply(s, step, workspace, after), workspace)
    requires step.Query? ==> |Backlog(s, after)| <= REPLAY_LIMIT
    ensures Gapless(Apply(s, step, workspace, after), workspace, after)
  {
    match step
    case Append(e) => AppendStep(s, e, workspace, after);
    case Publish(e) => PublishStep(s, e, workspace, after);
    case Subscribe => assert s.published[..|s.published|] == s.published;
    case Query => QueryStep(s, workspace, after);
    case ResumeReplay => ResumeStep(s, workspace, after);
  }

  /** As the query runs, no more than the replay limit of requested events had been public at subscription. */
  ghost predicate SmallBacklog(s: State, steps: seq<Step>, workspace: Id, after: int)
    requires Legal(s, steps, workspace, after)
    decreases |steps|
  {
    steps != [] ==>
      && (steps[0].Query? ==> s.seen <= |s.published| && |Backlog(s, after)| <= REPLAY_LIMIT)
      && SmallBacklog(Apply(s, steps[0], workspace, after), steps[1..], workspace, after)
  }

  /** As the query runs, no more than the replay limit of requested events is stored. */
  ghost predicate FewStored(s: State, steps: seq<Step>, workspace: Id, after: int)
    requires Legal(s, steps, workspace, after)
    decreases |steps|
  {
    steps != [] ==>
      && (steps[0].Query? ==> |Later(s.log, workspace, after)| <= REPLAY_LIMIT)
      && FewStored(Apply(s, steps[0], workspace, after), steps[1..], workspace, after)
  }

  lemma {:induction false} RunKeepsGapless(s: State, steps: seq<Step>, workspace: Id, after: int)
    requires Gapless(s, workspace, after) && Legal(s, steps, workspace, after) && after >= 0
    requires Orderly(s, steps, workspace, after) && SmallBacklog(s, steps, workspace, after)
    ensures Gapless(Run(s, steps, workspace, after), workspace, after)
    decreases |steps|
  {
    if steps != [] {
      StepKeepsGapless(s, steps[0], workspace, after);
      RunKeepsGapless(Apply(s, steps[0], workspace, after), steps[1..], workspace, after);
    }
  }

  /** If events are published in cursor order and the backlog fits the limit, a live client has received,
      once each and in cursor order, at least every published event past its cursor, and nothing beyond
      the log; once everything stored is published, exactly the stored events past its cursor. */
  lemma LiveClientMissesNothing(steps: seq<Step>, workspace: Id, after: int)
    requires Legal(Start(after), steps, workspace, after) && after >= 0
    requires Orderly(Start(after), steps, workspace, after) && SmallBacklog(Start(after), steps, workspace, after)
    ensures var s := Run(Start(after), steps, workspace, after);
      s.phase == Live ==>
        && Past(s.published, after) <= s.client.written <= Later(s.log, workspace, after)
        && (s.published == Own(s.log, workspace) ==> s.client.written == Later(s.log, workspace, after))
  {
    RunKeepsGapless(Start(after), steps, workspace, after);
    var s := Run(Start(after), steps, workspace, after);
    var own := Own(s.log, workspace);
    if s.phase == Live {
      var m: nat :| |s.published| <= m && CaughtUp(s.client, own, m, after);
      LaterIsPast(s.log, workspace, -1, after);
      PastIsPrefix(own, m, after);
      PastIsPrefix(own[..m], |s.published|, after);
      assert own[..m][..|s.published|] == s.published;
      assert own[..|own|] == own;
    }
  }

  /** At most the limit stored past the requested cursor as the query runs makes the backlog small. */
  lemma FewStoredIsEnough(s: State, workspace: Id, after: int)
    requires after >= 0 && Waiting(s, after) && PublishedInOrder(s, workspace)
    requires |Later(s.log, workspace, after)| <= REPLAY_LIMIT
    ensures |Backlog(s, after)| <= REPLAY_LIMIT
  {
    var own := Own(s.log, workspace);
    LaterIsPast(s.log, workspace, -1, after);
    PastIsPrefix(own, s.seen, after);
    assert own[..s.seen] == s.published[..s.seen];
  }

  lemma {:induction false} FewStoredIsSmall(s: State, steps: seq<Step>, workspace: Id, after: int)
    requires Gapless(s, workspace, after) && Legal(s, steps, workspace, after) && after >= 0
    requires Orderly(s, steps, workspace, after) && FewStored(s, steps, workspace, after)
    ensures SmallBacklog(s, steps, workspace, after)
    decreases |steps|
  {
    if steps != [] {
      if steps[0].Query? {
        FewStoredIsEnough(s, workspace, after);
      }
      StepKeepsGapless(s, steps[0], workspace, after);
      FewStoredIsSmall(Apply(s, steps[0], workspace, after), steps[1..], workspace, after);
    }
  }

  /** If events are stored and published in cursor order and at most the limit is stored past the cursor
      when the replay query runs, then in every interleaving a live client has every published later event
      once, in cursor order, and every stored one as soon as all are published. */
  lemma FewStoredMissesNothing(steps: seq<Step>, workspace: Id, after: int)
    requires Legal(Start(after), steps, workspace, after) && after >= 0
    requires Orderly(Start(after), steps, workspace, after) && FewStored(Start(after), steps, workspace, after)
    ensures var s := Run(Start(after), steps, workspace, after);
      s.phase == Live ==>
        && Past(s.published, after) <= s.client.written <= Later(s.log, workspace, after)
        && (s.published == Own(s.log, workspace) ==> s.client.written == Later(s.log, workspace, after))
  {
    FewStoredIsSmall(Start(after), steps, workspace, after);
    LiveClientMissesNothing(steps, workspace, after);
  }

  // ---------- and when the backlog does not fit ----------

  lemma {:induction false} PastConcat(a: seq<Event>, b: seq<Event>, mark: int)
    ensures Past(a + b, mark) == Past(a, mark) + Past(b, mark)
  {
    if a == [] {
      assert a + b == b;
    } else {
      var e, rest := a[0], a[1..];
      PastConcat(rest, b, mark);
      PastCons(e, rest, mark);
      PastCons(e, rest + b, mark);
      assert a == [e] + rest && a + b == [e] + (rest + b);
    }
  }

  lemma {:induction false} PastMembers(events: seq<Event>, mark: int)
    requires Ascending(events)
    ensures Ascending(Past(events, mark))
    ensures forall e :: e in Past(events, mark) ==> e in events && e.cursor > mark
  {
    if events != [] {
      PastMembers(events[1..], mark);
      var rest := Past(events[1..], mark);
      forall e | e in rest
        ensures events[0].cursor < e.cursor
      {
        var i :| 0 <= i < |events[1..]| && events[1..][i] == e;
        assert events[i + 1] == e;
      }
      assert forall i :: 0 <= i < |rest| ==> rest[i] in rest;
    }
  }

  /** What was published after the subscription. */
  function Since(s: State): seq<Event>
    requires s.seen <= |s.published|
  {
    s.published[s.seen..]
  }

  /** The first rows of the backlog, then what was published after the subscription. */
  function Cut(s: State, after: int): seq<Event>
    requires s.seen <= |s.published| && |Backlog(s, after)| > REPLAY_LIMIT
  {
    Backlog(s, after)[..REPLAY_LIMIT] + Since(s)
  }

  /** A connection whose replay is cut off at the limit. */
  ghost predicate Truncated(s: State, workspace: Id, after: int) {
    && InCursorOrder(s, workspace) && Ascending(Own(s.log, workspace))
    && s.seen <= |s.published| && |Backlog(s, after)| > REPLAY_LIMIT
    && match s.phase
       case Opened => false
       case Subscribed => Waiting(s, after)
       case Queried(rows) => Waiting(s, after) && rows == Backlog(s, after)[..REPLAY_LIMIT]
       case Live => s.client == Client(Cut(s, after)[|Cut(s, after)| - 1].cursor, Cut(s, after))
  }

  lemma BacklogBefore(s: State, after: int, e: Event, k: nat)
    requires Ascending(s.published) && s.seen <= |s.published| && k < |Since(s)| && e in Backlog(s, after)
    ensures after < e.cursor < Since(s)[k].cursor
  {
    var public := s.published[..s.seen];
    BacklogPublic(s, after, e);
    var i :| 0 <= i < s.seen && public[i] == e;
    assert s.published[i] == e;
  }

  lemma BacklogPublic(s: State, after: int, e: Event)
    requires Ascending(s.published) && s.seen <= |s.published| && e in Backlog(s, after)
    ensures e in s.published[..s.seen] && e.cursor > after
  {
    PastMembers(s.published[..s.seen], after);
  }

  /** The backlog and what was published since ascend together, past the requested cursor. */
  lemma BacklogThenSince(s: State, workspace: Id, after: int)
    requires InCursorOrder(s, workspace) && Ascending(Own(s.log, workspace)) && s.seen <= |s.published|
    requires Backlog(s, after) != []
    ensures Ascending(Backlog(s, after) + Since(s))
    ensures forall e :: e in Backlog(s, after) ==> e.cursor > after
    ensures Past(s.published, after) == Backlog(s, after) + Since(s)
  {
    SincePast(s, after);
    PastMembers(s.published[..s.seen], after);
    forall e, k | e in Backlog(s, after) && 0 <= k < |Since(s)|
      ensures e.cursor < Since(s)[k].cursor
    {
      BacklogBefore(s, after, e, k);
    }
    BothAscend(Backlog(s, after), Since(s));
  }

  lemma SincePast(s: State, after: int)
    requires Ascending(s.published) && s.seen <= |s.published| && Backlog(s, after) != []
    ensures Past(s.published, after) == Backlog(s, after) + Since(s)
  {
    forall k | 0 <= k < |Since(s)|
      ensures Since(s)[k].cursor > after
    {
      BacklogBefore(s, after, Backlog(s, after)[0], k);
    }
    assert s.published == s.published[..s.seen] + Since(s);
    PastConcat(s.published[..s.seen], Since(s), after);
    PastKeepsAll(Since(s), after);
  }

  lemma BothAscend(a: seq<Event>, b: seq<Event>)
    requires Ascending(a) && Ascending(b)
    requires forall e :: e in a ==> forall k :: 0 <= k < |b| ==> e.cursor < b[k].cursor
    ensures Ascending(a + b)
  {
    forall i, j | 0 <= i < j < |a + b|
      ensures (a + b)[i].cursor < (a + b)[j].cursor
    {
      if i < |a| <= j {
        assert a[i] in a;
      }
    }
  }

  lemma QueryCuts(s: State, workspace: Id, after: int)
    requires Truncated(s, workspace, after) && Enabled(s, Query) && after >= 0
    ensures Truncated(Apply(s, Query, workspace, after), workspace, after)
  {
    var own := Own(s.log, workspace);
    RowsOf(s.log, workspace, after);
    assert own[..s.seen] == s.published[..s.seen];
    PastIsPrefix(own, s.seen, after);
  }

  lemma ResumeCuts(s: State, workspace: Id, after: int)
    requires Truncated(s, workspace, after) && Enabled(s, ResumeReplay)
    ensures Truncated(Apply(s, ResumeReplay, workspace, after), workspace, after)
  {
    var rows, since := Backlog(s, after)[..REPLAY_LIMIT], Since(s);
    BacklogThenSince(s, workspace, after);
    CutAscends(s, workspace, after);
    assert rows[0] in Backlog(s, after);
    SendParts(Client(after, []), rows, since);
  }

  lemma SendParts(c: Client, rows: seq<Event>, since: seq<Event>)
    requires Ascending(rows + since) && rows != [] && rows[0].cursor > c.cursor && c.written == []
    ensures var all := rows + since;
      SendAll(SendAll(c, rows), since) == Client(all[|all| - 1].cursor, all)
  {
    PartsAscend(rows, since);
    SendNew(c, rows);
    SendNew(SendAll(c, rows), since);
  }

  lemma PartsAscend(a: seq<Event>, b: seq<Event>)
    requires Ascending(a + b) && a != []
    ensures Ascending(a) && Ascending(b) && (b != [] ==> b[0].cursor > a[|a| - 1].cursor)
  {
    assert forall i :: 0 <= i < |a| ==> a[i] == (a + b)[i];
    assert forall i :: 0 <= i < |b| ==> b[i] == (a + b)[|a| + i];
  }

  lemma PublishCuts(s: State, p: Event, workspace: Id, after: int)
    requires Truncated(s, workspace, after) && Enabled(s, Publish(p))
    requires InCursorOrder(Apply(s, Publish(p), workspace, after), workspace)
    ensures Truncated(Apply(s, Publish(p), workspace, after), workspace, after)
  {
    var s' := Apply(s, Publish(p), workspace, after);
    assert s'.published[..s.seen] == s.published[..s.seen];
    if s'.published == s.published + [p] {
      assert Since(s') == Since(s) + [p];
      if s.phase == Live {
        CutGrows(s, s', p, workspace, after);
      }
    }
  }

  lemma CutGrows(s: State, s': State, p: Event, workspace: Id, after: int)
    requires s.seen <= |s.published| && |Backlog(s, after)| > REPLAY_LIMIT
    requires s'.seen == s.seen && s'.published == s.published + [p]
    requires InCursorOrder(s', workspace) && Ascending(Own(s'.log, workspace))
    ensures |Backlog(s', after)| > REPLAY_LIMIT && Cut(s', after) == Cut(s, after) + [p]
    ensures Cut(s, after)[|Cut(s, after)| - 1].cursor < p.cursor
  {
    assert s'.published[..s.seen] == s.published[..s.seen];
    assert Since(s') == Since(s) + [p];
    CutAscends(s', workspace, after);
    assert Cut(s', after) == Cut(s, after) + [p];
    PartsAscend(Cut(s, after), [p]);
  }

  lemma CutAscends(s: State, workspace: Id, after: int)
    requires InCursorOrder(s, workspace) && Ascending(Own(s.log, workspace)) && s.seen <= |s.published|
    requires |Backlog(s, after)| > REPLAY_LIMIT
    ensures Ascending(Cut(s, after))
    ensures forall e :: e in Backlog(s, after)[REPLAY_LIMIT..] ==> e !in Cut(s, after)
  {
    BacklogThenSince(s, workspace, after);
    var backlog, since := Backlog(s, after), Since(s);
    var all := backlog + since;
    forall i, j | 0 <= i < j < |Cut(s, after)|
      ensures Cut(s, after)[i].cursor < Cut(s, after)[j].cursor
    {
      assert Place(i, backlog, since) < Place(j, backlog, since);
    }
    forall e | e in backlog[REPLAY_LIMIT..]
      ensures e !in Cut(s, after)
    {
      var j :| 0 <= j < |backlog[REPLAY_LIMIT..]| && backlog[REPLAY_LIMIT..][j] == e;
      var k := REPLAY_LIMIT + j;
      assert all[k] == e;
      forall i | 0 <= i < |Cut(s, after)|
        ensures Cut(s, after)[i] != e
      {
        assert Cut(s, after)[i] == all[Place(i, backlog, since)];
      }
    }
  }

  /** Where an element of the cut list stands in the whole one. */
  function Place(i: nat, backlog: seq<Event>, since: seq<Event>): (k: nat)
    requires |backlog| > REPLAY_LIMIT && i < REPLAY_LIMIT + |since|
    ensures k < |backlog + since|
    ensures (backlog + since)[k] == (backlog[..REPLAY_LIMIT] + since)[i]
  {
    if i < REPLAY_LIMIT then i else i - REPLAY_LIMIT + |backlog|
  }

  lemma CutStep(s: State, step: Step, workspace: Id, after: int)
    requires Truncated(s, workspace, after) && Enabled(s, step) && after >= 0
    requires InCursorOrder(Apply(s, step, workspace, after), workspace)
    ensures Truncated(Apply(s, step, workspace, after), workspace, after)
  {
    match step
    case Append(e) => AppendKeepsAscending(s.log, e, workspace);
    case Publish(p) => PublishCuts(s, p, workspace, after);
    case Query => QueryCuts(s, workspace, after);
    case ResumeReplay => ResumeCuts(s, workspace, after);
    case Subscribe =>
  }

  lemma {:induction false} CutRun(s: State, steps: seq<Step>, workspace: Id, after: int)
    requires Truncated(s, workspace, after) && Legal(s, steps, workspace, after) && after >= 0
    requires Orderly(s, steps, workspace, after)
    ensures var t := Run(s, steps, workspace, after);
      && Truncated(t, workspace, after)
      && t.seen == s.seen && Backlog(t, after) == Backlog(s, after)
    decreases |steps|
  {
    if steps != [] {
      var s' := Apply(s, steps[0], workspace, after);
      CutStep(s, steps[0], workspace, after);
      assert s'.published[..s.seen] == s.published[..s.seen];
      CutRun(s', steps[1..], workspace, after);
    }
  }

  /** If the backlog does not fit, a live client has, whatever happened, exactly the first rows of the backlog
      and everything published after the subscription; the rest of the backlog is never delivered, and
      once everything is published that rest is all the client lacks. */
  lemma TruncatedReplay(s: State, steps: seq<Step>, workspace: Id, after: int)
    requires after >= 0 && s.phase == Subscribed && Waiting(s, after) && |Backlog(s, after)| > REPLAY_LIMIT
    requires Legal(s, steps, workspace, after) && Orderly(s, steps, workspace, after)
    ensures var t := Run(s, steps, workspace, after);
      && s.seen <= |t.published|
      && (t.phase == Live ==> t.client.written == Backlog(s, after)[..REPLAY_LIMIT] + t.published[s.seen..])
      && (t.phase == Live ==> forall e :: e in Backlog(s, after)[REPLAY_LIMIT..] ==> e !in t.client.written)
      && (t.published == Own(t.log, workspace) ==>
            Later(t.log, workspace, after) == Backlog(s, after) + t.published[s.seen..])
  {
    var t := Run(s, steps, workspace, after);
    LaterAscends(s.log, workspace, -1);
    CutRun(s, steps, workspace, after);
    CutAscends(t, workspace, after);
    BacklogThenSince(t, workspace, after);
    LaterIsPast(t.log, workspace, -1, after);
  }

  /** With ordered storing and publication the replay is complete exactly when the backlog at subscription fits
      the limit: whatever happens from there on, a live client to whom everything was published has all
      stored events past its cursor if it did, and lacks one if it did not. */
  lemma ReplayCompleteExactly(s: State, steps: seq<Step>, workspace: Id, after: int)
    requires after >= 0 && s.phase == Subscribed && Waiting(s, after)
    requires Legal(s, steps, workspace, after) && Orderly(s, steps, workspace, after)
    ensures var t := Run(s, steps, workspace, after);
      t.phase == Live && t.published == Own(t.log, workspace) ==>
        (t.client.written == Later(t.log, workspace, after) <==> |Backlog(s, after)| <= REPLAY_LIMIT)
  {
    var t := Run(s, steps, workspace, after);
    LaterAscends(s.log, workspace, -1);
    if |Backlog(s, after)| <= REPLAY_LIMIT {
      BacklogStays(s, steps, workspace, after);
      RunKeepsGapless(s, steps, workspace, after);
      if t.phase == Live && t.published == Own(t.log, workspace) {
        var own := Own(t.log, workspace);
        var m: nat :| |t.published| <= m && CaughtUp(t.client, own, m, after);
        LaterIsPast(t.log, workspace, -1, after);
        assert own[..m] == own;
      }
    } else {
      TruncatedReplay(s, steps, workspace, after);
    }
  }

  /** The backlog is fixed at subscription. */
  lemma {:induction false} BacklogStays(s: State, steps: seq<Step>, workspace: Id, after: int)
    requires s.phase != Opened && s.seen <= |s.published| && |Backlog(s, after)| <= REPLAY_LIMIT
    requires Legal(s, steps, workspace, after)
    ensures SmallBacklog(s, steps, workspace, after)
    decreases |steps|
  {
    if steps != [] {
      var s' := Apply(s, steps[0], workspace, after);
      assert s'.published[..s.seen] == s.published[..s.seen];
      BacklogStays(s', steps[1..], workspace, after);
    }
  }
}
