/**
 The append-only event log (services/api/src/database/memory-repository.ts, `appendEvent` and
 `listEvents`): sequence numbers per aggregate, cursors over the whole log, and paging.
 */
module EventLog {
  import opened Wrappers

  datatype Aggregate = Aggregate(workspace: Id, kind: Label, id: Id)

  datatype Kind = AgentChanged | MessageCreated | TaskChanged | ApprovalChanged | RunCreated | Other

  /** A stored entity as the clients see it: an id and its contents. */
  datatype Entity = Entity(id: Id, data: Label)

  datatype NewEvent = NewEvent(aggregate: Aggregate, kind: Kind, payload: Option<Entity>)

  datatype Event = Event(aggregate: Aggregate, kind: Kind, payload: Option<Entity>, cursor: nat, sequence: nat)

  /** The sequence number of the aggregate's last event, or 0. */
  function LastSequence(events: seq<Event>, a: Aggregate): nat {
    if events == [] then 0
    else if events[|events| - 1].aggregate == a then events[|events| - 1].sequence
    else LastSequence(events[..|events| - 1], a)
  }

  function Stored(events: seq<Event>, cursor: nat, e: NewEvent): Event {
    Event(e.aggregate, e.kind, e.payload, cursor + 1, LastSequence(events, e.aggregate) + 1)
  }

  /** The log after appending a list of events, one `appendEvent` each. */
  function AppendAll(events: seq<Event>, added: seq<NewEvent>): (r: seq<Event>)
    ensures |r| == |events| + |added| && r[..|events|] == events
    decreases |added|
  {
    if added == [] then events
    else AppendAll(events + [Stored(events, |events|, added[0])], added[1..])
  }

  function CountOf(events: seq<Event>, a: Aggregate): nat {
    if events == [] then 0
    else CountOf(events[..|events| - 1], a) + if events[|events| - 1].aggregate == a then 1 else 0
  }

  /** Cursors run 1..n over the log; each event's sequence number is its rank within its aggregate. */
  ghost predicate WellNumbered(events: seq<Event>) {
    forall i :: 0 <= i < |events| ==>
      events[i].cursor == i + 1 && events[i].sequence == CountOf(events[..i], events[i].aggregate) + 1
  }

  lemma {:induction false} LastSequenceIsCount(events: seq<Event>, a: Aggregate)
    requires WellNumbered(events)
    ensures LastSequence(events, a) == CountOf(events, a)
  {
    if events != [] {
      var n := |events| - 1;
      var front := events[..n];
      forall i | 0 <= i < n
        ensures front[i].cursor == i + 1 && front[i].sequence == CountOf(front[..i], front[i].aggregate) + 1
      {
        assert front[..i] == events[..i];
      }
      LastSequenceIsCount(front, a);
    }
  }

  lemma AppendKeepsNumbering(events: seq<Event>, e: NewEvent)
    requires WellNumbered(events)
    ensures WellNumbered(events + [Stored(events, |events|, e)])
  {
    var after := events + [Stored(events, |events|, e)];
    LastSequenceIsCount(events, e.aggregate);
    forall i | 0 <= i < |after|
      ensures after[i].cursor == i + 1 && after[i].sequence == CountOf(after[..i], after[i].aggregate) + 1
    {
      assert after[..i] == events[..i];
      if i == |events| { assert after[..i] == events; }
    }
  }

  /** Every log that appending can build is well numbered. */
  lemma {:induction false} AppendAllKeepsNumbering(events: seq<Event>, added: seq<NewEvent>)
    requires WellNumbered(events)
    ensures WellNumbered(AppendAll(events, added))
    decreases |added|
  {
    if added != [] {
      AppendKeepsNumbering(events, added[0]);
      AppendAllKeepsNumbering(events + [Stored(events, |events|, added[0])], added[1..]);
    }
  }

  /** What was appended, and where it belongs, is kept as given. */
  lemma {:induction false} AppendAllKeepsContents(events: seq<Event>, added: seq<NewEvent>, i: nat)
    requires i < |added|
    ensures var e := AppendAll(events, added)[|events| + i];
      e.aggregate == added[i].aggregate && e.kind == added[i].kind && e.payload == added[i].payload
    decreases |added|
  {
    var next := events + [Stored(events, |events|, added[0])];
    assert AppendAll(next, added[1..])[..|next|] == next;
    if i > 0 {
      AppendAllKeepsContents(next, added[1..], i - 1);
    } else {
      assert AppendAll(events, added)[|events|] == AppendAll(next, added[1..])[..|next|][|events|];
    }
  }

  /** The events of one aggregate, in log order. */
  function OfAggregate(events: seq<Event>, a: Aggregate): seq<Event> {
    if events == [] then []
    else
      var front := OfAggregate(events[..|events| - 1], a);
      if events[|events| - 1].aggregate == a then front + [events[|events| - 1]] else front
  }

  /** An aggregate's sequence numbers are 1..n, without gaps, in cursor order. */
  lemma {:induction false} SequencesAreConsecutive(events: seq<Event>, a: Aggregate)
    requires WellNumbered(events)
    ensures |OfAggregate(events, a)| == CountOf(events, a)
    ensures forall k :: 0 <= k < |OfAggregate(events, a)| ==> OfAggregate(events, a)[k].sequence == k + 1
    ensures forall j, k :: 0 <= j < k < |OfAggregate(events, a)| ==>
      OfAggregate(events, a)[j].cursor < OfAggregate(events, a)[k].cursor
    ensures forall k :: 0 <= k < |OfAggregate(events, a)| ==> OfAggregate(events, a)[k].cursor <= |events|
  {
    if events != [] {
      var n := |events| - 1;
      var front := events[..n];
      forall i | 0 <= i < n
        ensures front[i].cursor == i + 1 && front[i].sequence == CountOf(front[..i], front[i].aggregate) + 1
      {
        assert front[..i] == events[..i];
      }
      SequencesAreConsecutive(front, a);
    }
  }

  // ---------- reading ----------

  /** The workspace's events past a cursor, in log order. */
  function Later(events: seq<Event>, workspace: Id, after: int): seq<Event> {
    if events == [] then []
    else
      (if events[0].aggregate.workspace == workspace && events[0].cursor > after then [events[0]] else [])
      + Later(events[1..], workspace, after)
  }

  /** Exactly the stored events of that workspace past that cursor are read. */
  lemma {:induction false} LaterMember(events: seq<Event>, workspace: Id, after: int, e: Event)
    ensures e in Later(events, workspace, after) <==> e in events && e.aggregate.workspace == workspace && e.cursor > after
  {
    if events != [] {
      LaterMember(events[1..], workspace, after, e);
    }
  }

  /** `listEvents`. */
  function ListEvents(events: seq<Event>, workspace: Id, after: int, limit: nat): seq<Event> {
    var all := Later(events, workspace, after);
    all[..Min(limit, |all|)]
  }

  ghost predicate Ascending(events: seq<Event>) {
    forall i, j :: 0 <= i < j < |events| ==> events[i].cursor < events[j].cursor
  }

  lemma {:induction false} LaterAscends(events: seq<Event>, workspace: Id, after: int)
    requires Ascending(events)
    ensures Ascending(Later(events, workspace, after))
  {
    if events != [] {
      LaterAscends(events[1..], workspace, after);
      forall e | e in Later(events[1..], workspace, after)
        ensures events[0].cursor < e.cursor
      {
        LaterMember(events[1..], workspace, after, e);
        var i :| 0 <= i < |events[1..]| && events[1..][i] == e;
        assert events[i + 1] == e;
      }
    }
  }

  predicate Asked(e: Event, workspace: Id, after: int) {
    e.aggregate.workspace == workspace && e.cursor > after
  }

  /** A page is the earliest events asked for, in cursor order, and all of them unless it is full. */
  lemma PageIsFirst(events: seq<Event>, workspace: Id, after: int, limit: nat)
    requires Ascending(events)
    ensures var page := ListEvents(events, workspace, after, limit);
      && |page| <= limit && Ascending(page)
      && (forall e :: e in page ==> e in events && Asked(e, workspace, after))
      && (|page| < limit ==> forall e :: e in events && Asked(e, workspace, after) ==> e in page)
      && (forall e, f :: e in page && f in events && Asked(f, workspace, after) && f.cursor < e.cursor ==> f in page)
  {
    var all, page := Later(events, workspace, after), ListEvents(events, workspace, after, limit);
    LaterAscends(events, workspace, after);
    forall e | e in page
      ensures e in events && Asked(e, workspace, after)
    {
      LaterMember(events, workspace, after, e);
    }
    forall f | f in events && Asked(f, workspace, after)
      ensures f in all
    {
      LaterMember(events, workspace, after, f);
    }
    forall e, f | e in page && f in all && f.cursor < e.cursor
      ensures f in page
    {
      var i :| 0 <= i < |page| && page[i] == e;
      var j :| 0 <= j < |all| && all[j] == f;
      assert all[i] == e && j < i;
      assert page[j] == f;
    }
  }

  function Past(events: seq<Event>, mark: int): seq<Event> {
    if events == [] then []
    else if events[0].cursor > mark then [events[0]] + Past(events[1..], mark)
    else Past(events[1..], mark)
  }

  lemma PastCons(e: Event, rest: seq<Event>, mark: int)
    ensures Past([e] + rest, mark) == (if e.cursor > mark then [e] else []) + Past(rest, mark)
  {
    assert ([e] + rest)[1..] == rest;
  }

  lemma LaterCons(events: seq<Event>, workspace: Id, after: int)
    requires events != []
    ensures Later(events, workspace, after) ==
            if events[0].aggregate.workspace == workspace && events[0].cursor > after
            then [events[0]] + Later(events[1..], workspace, after) else Later(events[1..], workspace, after)
  {
  }

  lemma {:induction false} LaterIsPast(events: seq<Event>, workspace: Id, after: int, mark: int)
    requires after <= mark
    ensures Later(events, workspace, mark) == Past(Later(events, workspace, after), mark)
  {
    if events != [] {
      var e, rest := events[0], Later(events[1..], workspace, after);
      LaterIsPast(events[1..], workspace, after, mark);
      PastCons(e, rest, mark);
      LaterCons(events, workspace, after);
      LaterCons(events, workspace, mark);
    }
  }

  lemma {:induction false} PastOfPrefix(events: seq<Event>, k: nat)
    requires Ascending(events) && 0 < k <= |events|
    ensures Past(events, events[k - 1].cursor) == events[k..]
  {
    var mark := events[k - 1].cursor;
    if k == 1 {
      PastKeepsAll(events[1..], mark);
    } else {
      PastOfPrefix(events[1..], k - 1);
    }
  }

  lemma {:induction false} PastKeepsAll(events: seq<Event>, mark: int)
    requires forall i :: 0 <= i < |events| ==> events[i].cursor > mark
    ensures Past(events, mark) == events
  {
    if events != [] {
      PastKeepsAll(events[1..], mark);
    }
  }

  /** Reading on from the `k`-th event's cursor gives exactly the events after the `k`-th. */
  lemma LaterResumes(events: seq<Event>, workspace: Id, after: int, k: nat)
    requires Ascending(events) && 0 < k <= |Later(events, workspace, after)|
    ensures Later(events, workspace, Later(events, workspace, after)[k - 1].cursor) == Later(events, workspace, after)[k..]
  {
    var all := Later(events, workspace, after);
    LaterMember(events, workspace, after, all[k - 1]);
    LaterAscends(events, workspace, after);
    LaterIsPast(events, workspace, after, all[k - 1].cursor);
    PastOfPrefix(all, k);
  }

  /** A reader that asks for page after page, each from the last cursor it saw, until a page is empty. */
  function ReadPages(events: seq<Event>, workspace: Id, after: int, limit: nat): seq<Event>
    requires limit > 0 && Ascending(events)
    decreases |Later(events, workspace, after)|
  {
    var page := ListEvents(events, workspace, after, limit);
    if page == [] then []
    else
      LaterResumes(events, workspace, after, |page|);
      page + ReadPages(events, workspace, page[|page| - 1].cursor, limit)
  }

  lemma FirstPage(events: seq<Event>, workspace: Id, after: int, limit: nat) returns (n: nat, mark: int)
    requires limit > 0 && Ascending(events) && Later(events, workspace, after) != []
    ensures var all := Later(events, workspace, after);
      && 0 < n <= |all| && mark == all[n - 1].cursor
      && ReadPages(events, workspace, after, limit) == all[..n] + ReadPages(events, workspace, mark, limit)
  {
    var all := Later(events, workspace, after);
    n := Min(limit, |all|);
    mark := all[n - 1].cursor;
    assert ListEvents(events, workspace, after, limit) == all[..n];
    assert all[..n][n - 1] == all[n - 1];
  }

  /** Pages of any positive size reassemble the workspace's whole log. */
  lemma {:induction false} PagesReassemble(events: seq<Event>, workspace: Id, after: int, limit: nat)
    requires limit > 0 && Ascending(events)
    ensures ReadPages(events, workspace, after, limit) == Later(events, workspace, after)
    decreases |Later(events, workspace, after)|
  {
    var all := Later(events, workspace, after);
    if all != [] {
      var n, mark := FirstPage(events, workspace, after, limit);
      LaterResumes(events, workspace, after, n);
      PagesReassemble(events, workspace, mark, limit);
      assert all[..n] + all[n..] == all;
    }
  }

  // ---------- reading while events are appended ----------

  /** The cursor to read on from. */
  function Mark(read: seq<Event>, after: int): int { if read == [] then after else read[|read| - 1].cursor }

  lemma LaterOfCons(e: Event, rest: seq<Event>, workspace: Id, after: int)
    ensures Later([e] + rest, workspace, after) == (if Asked(e, workspace, after) then [e] else []) + Later(rest, workspace, after)
  {
    assert ([e] + rest)[1..] == rest;
  }

  lemma {:induction false} LaterConcat(a: seq<Event>, b: seq<Event>, workspace: Id, after: int)
    ensures Later(a + b, workspace, after) == Later(a, workspace, after) + Later(b, workspace, after)
  {
    if a == [] {
      assert a + b == b;
    } else {
      var e, rest := a[0], a[1..];
      LaterConcat(rest, b, workspace, after);
      LaterOfCons(e, rest, workspace, after);
      LaterOfCons(e, rest + b, workspace, after);
      Grouped([e], rest, b);
      assert a == [e] + rest;
      Grouped(if Asked(e, workspace, after) then [e] else [], Later(rest, workspace, after), Later(b, workspace, after));
    }
  }

  /** What is read on from the last cursor of a first part continues that part. */
  lemma PartContinues(events: seq<Event>, workspace: Id, after: int, read: seq<Event>, more: seq<Event>)
    requires Ascending(events) && read <= Later(events, workspace, after)
    requires more <= Later(events, workspace, Mark(read, after))
    ensures read + more <= Later(events, workspace, after)
    ensures more == Later(events, workspace, Mark(read, after)) <==> read + more == Later(events, workspace, after)
  {
    var all := Later(events, workspace, after);
    if read != [] {
      assert read[|read| - 1] == all[|read| - 1];
      LaterResumes(events, workspace, after, |read|);
    } else {
      assert read + more == more;
    }
    assert all == read + all[|read|..];
  }

  /** Each log is the one before it with events added. */
  predicate Growing(logs: seq<seq<Event>>) {
    |logs| <= 1 || (logs[0] <= logs[1] && Growing(logs[1..]))
  }

  lemma {:induction false} FirstIsPrefix(logs: seq<seq<Event>>)
    requires logs != [] && Growing(logs)
    ensures logs[0] <= logs[|logs| - 1]
  {
    if |logs| > 1 {
      FirstIsPrefix(logs[1..]);
    }
  }

  /** A reader that asks for one page of each log in turn, from the last cursor it saw. */
  function ReadOn(logs: seq<seq<Event>>, workspace: Id, after: int, limit: nat): seq<Event> {
    if logs == [] then []
    else
      var page := ListEvents(logs[0], workspace, after, limit);
      page + ReadOn(logs[1..], workspace, Mark(page, after), limit)
  }

  lemma PageOfPrefix(first: seq<Event>, last: seq<Event>, workspace: Id, after: int, limit: nat)
    requires first <= last
    ensures ListEvents(first, workspace, after, limit) <= Later(last, workspace, after)
  {
    assert last == first + last[|first|..];
    LaterConcat(first, last[|first|..], workspace, after);
  }

  lemma {:induction false} ReadOnIsPrefix(logs: seq<seq<Event>>, workspace: Id, after: int, limit: nat)
    requires logs != [] && Growing(logs) && Ascending(logs[|logs| - 1])
    ensures ReadOn(logs, workspace, after, limit) <= Later(logs[|logs| - 1], workspace, after)
    decreases |logs|
  {
    var last := logs[|logs| - 1];
    var page := ListEvents(logs[0], workspace, after, limit);
    FirstIsPrefix(logs);
    PageOfPrefix(logs[0], last, workspace, after, limit);
    var rest := ReadOn(logs[1..], workspace, Mark(page, after), limit);
    if |logs| > 1 {
      assert logs[1..][|logs| - 2] == last;
      ReadOnIsPrefix(logs[1..], workspace, Mark(page, after), limit);
    } else {
      assert logs[1..] == [];
    }
    PartContinues(last, workspace, after, page, rest);
  }

  /** While events are appended in cursor order between the pages, what was read is always the first part of
      what is there to read, without a gap; and it is all of it exactly if the next page is empty. */
  lemma ReadingKeepsUp(logs: seq<seq<Event>>, workspace: Id, after: int, limit: nat)
    requires logs != [] && Growing(logs) && Ascending(logs[|logs| - 1]) && limit > 0
    ensures var last, read := logs[|logs| - 1], ReadOn(logs, workspace, after, limit);
      && read <= Later(last, workspace, after)
      && (ListEvents(last, workspace, Mark(read, after), limit) == [] <==> read == Later(last, workspace, after))
  {
    var last, read := logs[|logs| - 1], ReadOn(logs, workspace, after, limit);
    ReadOnIsPrefix(logs, workspace, after, limit);
    PartContinues(last, workspace, after, read, []);
    assert read + [] == read;
  }

  lemma NumberedAscends(events: seq<Event>)
    requires WellNumbered(events)
    ensures Ascending(events)
  {
  }
}
