/**
 The mobile client's state under the event log (apps/mobile/src/state/relay.ts, `applyEvent` and
 `upsert`).
 */
module MobileState {
  import opened Wrappers
  import opened EventLog

  datatype State = State(
    agents: seq<Entity>, messages: seq<Entity>, tasks: seq<Entity>, approvals: seq<Entity>, cursor: int)

  /** The position of the first item with the id, or -1 (`findIndex`). */
  function FindIndex(items: seq<Entity>, id: Id): (r: int)
    ensures -1 <= r < |items|
    ensures r >= 0 ==> items[r].id == id
    ensures forall i :: 0 <= i < (if r >= 0 then r else |items|) ==> items[i].id != id
  {
    if items == [] then -1
    else if items[0].id == id then 0
    else
      var r := FindIndex(items[1..], id);
      if r < 0 then -1 else r + 1
  }

  function Upsert(items: seq<Entity>, value: Entity): seq<Entity> {
    var index := FindIndex(items, value.id);
    if index == -1 then items + [value] else items[index := value]
  }

  ghost predicate UniqueIds(items: seq<Entity>) {
    forall i, j :: 0 <= i < j < |items| ==> items[i].id != items[j].id
  }

  /** Upserting keeps ids unique, stores the value, and leaves every other item in its place. */
  lemma UpsertStores(items: seq<Entity>, value: Entity)
    requires UniqueIds(items)
    ensures UniqueIds(Upsert(items, value))
    ensures forall e :: e in Upsert(items, value) <==> e == value || (e in items && e.id != value.id)
    ensures forall i :: 0 <= i < |items| && items[i].id != value.id ==>
      |Upsert(items, value)| >= |items| && Upsert(items, value)[i] == items[i]
  {
    var index := FindIndex(items, value.id);
    var r := Upsert(items, value);
    assert value == r[if index == -1 then |items| else index];
    forall e | e in items && e.id != value.id
      ensures e in r
    {
      var i :| 0 <= i < |items| && items[i] == e;
      assert r[i] == e;
    }
  }

  function ApplyEvent(s: State, e: Event): State {
    if e.cursor <= s.cursor then s
    else
      var next := s.(cursor := e.cursor);
      match (e.kind, e.payload)
      case (AgentChanged, Some(agent)) => next.(agents := Upsert(s.agents, agent))
      case (MessageCreated, Some(message)) => next.(messages := Upsert(s.messages, message))
      case (TaskChanged, Some(task)) => next.(tasks := Upsert(s.tasks, task))
      case (ApprovalChanged, Some(approval)) => next.(approvals := Upsert(s.approvals, approval))
      case _ => next
  }

  function Fold(s: State, events: seq<Event>): State {
    if events == [] then s
    else ApplyEvent(Fold(s, events[..|events| - 1]), events[|events| - 1])
  }

  lemma {:induction false} FoldCursor(s: State, log: seq<Event>)
    requires Ascending(log)
    ensures Fold(s, log).cursor >= s.cursor
    ensures forall i :: 0 <= i < |log| ==> log[i].cursor <= Fold(s, log).cursor
  {
    if log != [] {
      FoldCursor(s, log[..|log| - 1]);
    }
  }

  /** The client's collection for a kind of event, if it keeps one. */
  function Collection(s: State, kind: Kind): seq<Entity> {
    match kind
    case AgentChanged => s.agents
    case MessageCreated => s.messages
    case TaskChanged => s.tasks
    case ApprovalChanged => s.approvals
    case _ => []
  }

  predicate Kept(kind: Kind) {
    kind in {AgentChanged, MessageCreated, TaskChanged, ApprovalChanged}
  }

  /** The last entity with the id that an event of the kind carries. */
  function LastCarried(events: seq<Event>, kind: Kind, id: Id): Option<Entity> {
    if events == [] then None
    else
      var e := events[|events| - 1];
      if e.kind == kind && e.payload.Some? && e.payload.value.id == id then e.payload
      else LastCarried(events[..|events| - 1], kind, id)
  }

  lemma ApplyCollects(s: State, e: Event, kind: Kind)
    requires e.cursor > s.cursor && Kept(kind)
    ensures ApplyEvent(s, e).cursor == e.cursor
    ensures Collection(ApplyEvent(s, e), kind) ==
      if e.kind == kind && e.payload.Some? then Upsert(Collection(s, kind), e.payload.value) else Collection(s, kind)
  {
  }

  lemma {:induction false} FoldReaches(s: State, log: seq<Event>)
    requires Ascending(log) && forall i :: 0 <= i < |log| ==> s.cursor < log[i].cursor
    ensures Fold(s, log).cursor == if log == [] then s.cursor else log[|log| - 1].cursor
  {
    if log != [] {
      FoldReaches(s, log[..|log| - 1]);
      ApplyCollects(Fold(s, log[..|log| - 1]), log[|log| - 1], AgentChanged);
    }
  }

  /** Folding an ordered log of later events leaves in each collection exactly the last entity that an event of its
      kind carries for each id, and what was there under ids that none carries; ids stay unique. */
  lemma {:induction false} LastWriteWins(s: State, log: seq<Event>, kind: Kind, x: Entity)
    requires Ascending(log) && Kept(kind) && UniqueIds(Collection(s, kind))
    requires forall i :: 0 <= i < |log| ==> s.cursor < log[i].cursor
    ensures UniqueIds(Collection(Fold(s, log), kind))
    ensures x in Collection(Fold(s, log), kind) <==>
      LastCarried(log, kind, x.id) == Some(x) || (LastCarried(log, kind, x.id).None? && x in Collection(s, kind))
  {
    if log != [] {
      var front, e := log[..|log| - 1], log[|log| - 1];
      LastWriteWins(s, front, kind, x);
      FoldReaches(s, front);
      ApplyCollects(Fold(s, front), e, kind);
      if e.kind == kind && e.payload.Some? {
        UpsertStores(Collection(Fold(s, front), kind), e.payload.value);
      }
    }
  }

  lemma {:induction false} FoldConcat(s: State, a: seq<Event>, b: seq<Event>)
    ensures Fold(s, a + b) == Fold(Fold(s, a), b)
    decreases |b|
  {
    if b == [] {
      assert a + b == a;
    } else {
      assert (a + b)[..|a + b| - 1] == a + b[..|b| - 1];
      FoldConcat(s, a, b[..|b| - 1]);
    }
  }

  lemma {:induction false} FoldSkipsSeen(s: State, events: seq<Event>)
    requires forall i :: 0 <= i < |events| ==> events[i].cursor <= s.cursor
    ensures Fold(s, events) == s
  {
    if events != [] {
      FoldSkipsSeen(s, events[..|events| - 1]);
    }
  }

  /** A delivery of `log[from..to]`. */
  datatype Window = Window(from: nat, to: nat)

  /** How much of the log a list of windows has covered. */
  function Covered(windows: seq<Window>): nat {
    if windows == [] then 0
    else Max(Covered(windows[..|windows| - 1]), windows[|windows| - 1].to)
  }

  /** Each window lies in the log and starts no later than where the earlier ones ended: overlaps and
      repetitions are allowed, gaps are not. */
  ghost predicate Gapless(windows: seq<Window>, log: seq<Event>) {
    forall i :: 0 <= i < |windows| ==> windows[i].from <= windows[i].to <= |log| && windows[i].from <= Covered(windows[..i])
  }

  function Deliver(s: State, log: seq<Event>, windows: seq<Window>): State
    requires Gapless(windows, log)
  {
    if windows == [] then s
    else
      var n := |windows| - 1;
      assert Gapless(windows[..n], log) by {
        forall i | 0 <= i < n ensures windows[..n][..i] == windows[..i] {}
      }
      Fold(Deliver(s, log, windows[..n]), log[windows[n].from..windows[n].to])
  }

  lemma CutWindow(log: seq<Event>, from: nat, middle: nat, to: nat)
    requires from <= middle <= to <= |log|
    ensures log[from..to] == log[from..middle] + log[middle..to]
    ensures log[..to] == log[..middle] + log[middle..to]
  {
  }

  lemma FoldOverlap(s: State, log: seq<Event>, covered: nat, w: Window)
    requires Ascending(log) && w.from <= w.to <= |log| && w.from <= covered <= |log|
    ensures Fold(Fold(s, log[..covered]), log[w.from..w.to]) == Fold(s, log[..Max(covered, w.to)])
  {
    var middle := if w.to <= covered then w.to else covered;
    var reached := Fold(s, log[..covered]);
    FoldCursor(s, log[..covered]);
    var seen := log[w.from..middle];
    forall i | 0 <= i < |seen|
      ensures seen[i].cursor <= reached.cursor
    {
      assert seen[i] == log[..covered][w.from + i];
    }
    FoldSkipsSeen(reached, seen);
    CutWindow(log, w.from, middle, w.to);
    FoldConcat(reached, log[w.from..middle], log[middle..w.to]);
    if w.to > covered {
      FoldConcat(s, log[..covered], log[covered..w.to]);
    } else {
      assert log[middle..w.to] == [];
    }
  }

  /** Any overlapping re-delivery of an ordered log ends in the state that applying it once ends in. */
  lemma {:induction false} RedeliveryIsHarmless(s: State, log: seq<Event>, windows: seq<Window>)
    requires Ascending(log) && Gapless(windows, log)
    ensures Covered(windows) <= |log|
    ensures Deliver(s, log, windows) == Fold(s, log[..Covered(windows)])
    decreases |windows|
  {
    if windows != [] {
      var n := |windows| - 1;
      var front := windows[..n];
      assert forall i :: 0 <= i < n ==> front[..i] == windows[..i];
      RedeliveryIsHarmless(s, log, front);
      FoldOverlap(s, log, Covered(front), windows[n]);
    }
  }
}
