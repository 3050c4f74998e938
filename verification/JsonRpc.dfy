/**
 The table of unanswered requests of the line-based JSON-RPC client
 (services/codex-worker/src/jsonRpcClient.ts). Lines arrive already parsed; what the other side sends,
 when timers fire and when the process ends are arguments.
 */
module JsonRpc {
  import opened Wrappers

  datatype RpcId = Num(n: int) | Str(s: string)

  /** A parsed line: `answer` says that a result or an error is present, `failed` that the error is an object. */
  datatype Line =
    | Blank
    | BadJson
    | NotObject
    | Message(id: Option<RpcId>, answer: bool, failed: bool, named: bool)

  datatype Emitted = ProtocolError | ServerRequest(id: RpcId) | Notification | CloseEvent

  datatype Outcome = Answered | RpcError | TimedOut | WriteFailed | ProcessGone

  /**
   `pending` maps an id to the request it belongs to, `timers` are the running timeouts, `outcomes` are the
   settled promises, and `left` counts how often each request was taken out of the table.
   */
  datatype Client = Client(
    nextId: nat, pending: map<RpcId, nat>, timers: set<nat>, closed: bool,
    outcomes: map<nat, Outcome>, left: multiset<nat>, emitted: seq<Emitted>)

  function Initial(): Client { Client(1, map[], {}, false, map[], multiset{}, []) }

  /** A promise keeps the first outcome it gets. */
  function Settle(outcomes: map<nat, Outcome>, n: nat, o: Outcome): map<nat, Outcome> {
    if n in outcomes then outcomes else outcomes[n := o]
  }

  datatype Step = Request(writable: bool) | Receive(line: Line) | Timeout(n: nat) | Close

  predicate Enabled(s: Client, step: Step) { step.Timeout? ==> step.n in s.timers }

  function Take(s: Client, id: RpcId, o: Outcome): Client
    requires id in s.pending
  {
    var n := s.pending[id];
    s.(pending := s.pending - {id}, timers := s.timers - {n}, outcomes := Settle(s.outcomes, n, o),
       left := s.left + multiset{n})
  }

  function Received(s: Client, line: Line): Client {
    match line
    case Blank => s
    case BadJson => s.(emitted := s.emitted + [ProtocolError])
    case NotObject => s
    case Message(id, answer, failed, named) =>
      if id.Some? && answer then
        if id.value in s.pending then Take(s, id.value, if failed then RpcError else Answered) else s
      else if named && id.Some? then s.(emitted := s.emitted + [ServerRequest(id.value)])
      else if named then s.(emitted := s.emitted + [Notification])
      else s
  }

  function Abandon(outcomes: map<nat, Outcome>, gone: set<nat>): map<nat, Outcome> {
    map n | n in outcomes.Keys + gone :: if n in outcomes then outcomes[n] else ProcessGone
  }

  function Closing(s: Client): Client {
    var gone := s.pending.Values;
    s.(closed := true, pending := map[], timers := s.timers - gone, outcomes := Abandon(s.outcomes, gone),
       left := s.left + multiset(gone), emitted := s.emitted + [CloseEvent])
  }

  function Next(s: Client, step: Step): Client
    requires Enabled(s, step)
  {
    match step
    case Request(writable) =>
      if s.closed then s
      else
        var n := s.nextId;
        s.(nextId := n + 1, pending := s.pending[Num(n) := n], timers := s.timers + {n},
           outcomes := if writable then s.outcomes else Settle(s.outcomes, n, WriteFailed))
    case Receive(line) => Received(s, line)
    case Timeout(n) =>
      if Num(n) in s.pending && s.pending[Num(n)] == n then Take(s, Num(n), TimedOut)
      else s.(pending := s.pending - {Num(n)}, timers := s.timers - {n}, outcomes := Settle(s.outcomes, n, TimedOut))
    case Close => if s.closed then s else Closing(s)
  }

  predicate Runs(s: Client, steps: seq<Step>, r: Client)
    decreases |steps|
  {
    if steps == [] then s == r
    else Enabled(s, steps[0]) && Runs(Next(s, steps[0]), steps[1..], r)
  }

  predicate Issued(s: Client, n: nat) { 1 <= n < s.nextId }

  /** A request that was sent is in the table under its own number, or it left the table once and is settled. */
  ghost predicate Tracked(s: Client, n: nat) {
    && (Num(n) in s.pending <==> Issued(s, n) && s.left[n] == 0)
    && (n in s.timers <==> Num(n) in s.pending)
    && s.left[n] <= 1
    && (s.left[n] == 1 ==> Issued(s, n) && n in s.outcomes)
    && (n in s.outcomes ==> Issued(s, n))
  }

  ghost predicate Inv(s: Client) {
    && s.nextId >= 1
    && (forall id :: id in s.pending ==> id == Num(s.pending[id]))
    && (forall n: nat :: Tracked(s, n))
    && (s.closed ==> s.pending == map[])
  }

  lemma TakeKeepsInv(s: Client, id: RpcId, o: Outcome)
    requires Inv(s) && id in s.pending
    ensures Inv(Take(s, id, o))
  {
    forall n: nat
      ensures Tracked(Take(s, id, o), n)
    {
      assert Tracked(s, n);
    }
  }

  lemma CloseKeepsInv(s: Client)
    requires Inv(s)
    ensures Inv(Closing(s))
  {
    forall n: nat
      ensures Tracked(Closing(s), n)
    {
      assert Tracked(s, n);
      assert Num(n) in s.pending ==> s.pending[Num(n)] == n;
      assert n in s.pending.Values <==> Num(n) in s.pending;
    }
  }

  lemma StepKeepsInv(s: Client, step: Step)
    requires Inv(s) && Enabled(s, step)
    ensures Inv(Next(s, step))
  {
    match step
    case Request(_) =>
      forall n: nat
        ensures Tracked(Next(s, step), n)
      {
        assert Tracked(s, n);
      }
    case Receive(line) =>
      if line.Message? && line.id.Some? && line.answer && line.id.value in s.pending {
        TakeKeepsInv(s, line.id.value, if line.failed then RpcError else Answered);
      } else {
        forall n: nat
          ensures Tracked(Received(s, line), n)
        {
          assert Tracked(s, n);
        }
      }
    case Timeout(n) =>
      assert Tracked(s, n);
      TakeKeepsInv(s, Num(n), TimedOut);
    case Close =>
      CloseKeepsInv(s);
  }

  // ---------- what settles a request ----------

  /** A line that carries a result or an error under the request's number. */
  predicate IsAnswerTo(line: Line, n: nat) {
    line.Message? && line.id == Some(Num(n)) && line.answer
  }

  /** Why a step settles a request, if it does: its write fails, it is answered, it times out, or the process is gone
      while it waits. */
  function Cause(s: Client, step: Step, n: nat): Option<Outcome> {
    match step
    case Request(writable) => if !s.closed && n == s.nextId && !writable then Some(WriteFailed) else None
    case Receive(line) =>
      if IsAnswerTo(line, n) && Num(n) in s.pending then Some(if line.failed then RpcError else Answered) else None
    case Timeout(k) => if k == n then Some(TimedOut) else None
    case Close => if !s.closed && Num(n) in s.pending then Some(ProcessGone) else None
  }

  /** A step settles a request exactly if it is a cause for that, with the outcome of the cause, unless it was settled
      before. */
  lemma SettledExactly(s: Client, step: Step, n: nat)
    requires Inv(s) && Enabled(s, step)
    ensures
      var r, cause := Next(s, step), Cause(s, step, n);
      && (n in r.outcomes <==> n in s.outcomes || cause.Some?)
      && (n in s.outcomes ==> r.outcomes[n] == s.outcomes[n])
      && (n !in s.outcomes && cause.Some? ==> r.outcomes[n] == cause.value)
  {
    OwnNumbers(s, step, n);
    if step.Close? && Num(n) in s.pending { assert s.pending[Num(n)] in s.pending.Values; }
  }

  /** What the invariant says about the numbers that a step is about. */
  lemma OwnNumbers(s: Client, step: Step, n: nat)
    requires Inv(s) && Enabled(s, step)
    ensures Num(n) in s.pending ==> s.pending[Num(n)] == n
    ensures n in s.pending.Values ==> Num(n) in s.pending
    ensures step.Timeout? ==> Num(step.n) in s.pending && s.pending[Num(step.n)] == step.n
    ensures step.Receive? && step.line.Message? && step.line.id.Some? && step.line.id.value in s.pending ==>
      step.line.id.value == Num(s.pending[step.line.id.value])
    ensures n == s.nextId ==> Num(n) !in s.pending
  {
    assert Tracked(s, n);
    if step.Timeout? { assert Tracked(s, step.n); }
  }

  /** A request waits from when it is sent, even if its write fails, exactly until it is answered, times out or the
      process is gone; and its timer runs as long. */
  lemma WaitsExactly(s: Client, step: Step, n: nat)
    requires Inv(s) && Enabled(s, step)
    ensures
      Num(n) in Next(s, step).pending <==>
        || (step.Request? && !s.closed && n == s.nextId)
        || (Num(n) in s.pending && (Cause(s, step, n).None? || step.Request?))
    ensures n in Next(s, step).timers <==> Num(n) in Next(s, step).pending
  {
    OwnNumbers(s, step, n);
    StepKeepsInv(s, step);
    assert Tracked(Next(s, step), n);
  }

  /** A request may time out exactly while it waits. */
  lemma TimesOutWhileWaiting(s: Client, n: nat)
    requires Inv(s)
    ensures Enabled(s, Timeout(n)) <==> Num(n) in s.pending
  {
    assert Tracked(s, n);
  }

  /** What a step announces: a line that is no JSON, a request or a notification of the other side, or the end. */
  lemma AnnouncedExactly(s: Client, step: Step)
    requires Inv(s) && Enabled(s, step)
    ensures Next(s, step).emitted == s.emitted +
      match step
      case Receive(BadJson) => [ProtocolError]
      case Receive(Message(Some(id), false, _, true)) => [ServerRequest(id)]
      case Receive(Message(None, _, _, true)) => [Notification]
      case Close => if s.closed then [] else [CloseEvent]
      case _ => []
  {
    assert s.emitted + [] == s.emitted;
    if step.Timeout? { assert Tracked(s, step.n); }
  }

  // ---------- over runs ----------

  /** Nothing settled changes, nothing that left comes back, and a closed client stays closed and sends nothing. */
  ghost predicate Extends(s: Client, r: Client) {
    && s.nextId <= r.nextId
    && (forall n :: n in s.outcomes ==> n in r.outcomes && r.outcomes[n] == s.outcomes[n])
    && (forall n: nat :: Issued(s, n) && Num(n) in r.pending ==> Num(n) in s.pending)
    && (s.closed ==> r.closed && r.nextId == s.nextId)
  }

  lemma StepExtends(s: Client, step: Step)
    requires Inv(s) && Enabled(s, step)
    ensures Extends(s, Next(s, step))
  {
  }

  lemma {:induction false} RunExtends(s: Client, steps: seq<Step>, r: Client)
    requires Inv(s) && Runs(s, steps, r)
    ensures Inv(r) && Extends(s, r)
    decreases |steps|
  {
    if steps != [] {
      StepKeepsInv(s, steps[0]);
      StepExtends(s, steps[0]);
      RunExtends(Next(s, steps[0]), steps[1..], r);
    }
  }

  /**
   The id a request gets was never used, is not used again later, and until the request is sent no answer,
   timeout or closing concerns it.
   */
  lemma IdsAreNeverReused(before: seq<Step>, s: Client, writable: bool, after: seq<Step>, r: Client)
    requires Runs(Initial(), before, s) && !s.closed && Runs(Next(s, Request(writable)), after, r)
    ensures Num(s.nextId) !in s.pending && s.nextId !in s.outcomes && s.left[s.nextId] == 0
    ensures r.nextId > s.nextId
  {
    RunExtends(Initial(), before, s);
    assert Tracked(s, s.nextId);
    StepKeepsInv(s, Request(writable));
    RunExtends(Next(s, Request(writable)), after, r);
  }

  /** Each request leaves the table at most once, and is in it exactly until then. */
  lemma LeavesAtMostOnce(steps: seq<Step>, r: Client, n: nat)
    requires Runs(Initial(), steps, r) && Issued(r, n)
    ensures r.left[n] == if Num(n) in r.pending then 0 else 1
    ensures Num(n) !in r.pending ==> n in r.outcomes
    ensures n in r.timers <==> Num(n) in r.pending
  {
    RunExtends(Initial(), steps, r);
    assert Tracked(r, n);
  }

  /** Once closed, in every continuation: the table is empty, every request sent has its outcome, none is sent. */
  lemma ClosedForEver(before: seq<Step>, s: Client, after: seq<Step>, r: Client)
    requires Runs(Initial(), before, s) && s.closed && Runs(s, after, r)
    ensures r.closed && r.pending == map[] && r.timers == {} && r.nextId == s.nextId
    ensures forall n: nat :: Issued(r, n) ==> n in s.outcomes && n in r.outcomes && r.outcomes[n] == s.outcomes[n]
  {
    RunExtends(Initial(), before, s);
    RunExtends(s, after, r);
    forall n: nat
      ensures Issued(r, n) ==> n in s.outcomes && n in r.outcomes && r.outcomes[n] == s.outcomes[n]
      ensures n !in r.timers
    {
      assert Tracked(s, n) && Tracked(r, n);
    }
  }

  /** A request that left the table is never answered again: a duplicate, however late, changes nothing. */
  lemma DuplicatesAreIgnored(before: seq<Step>, s: Client, n: nat, after: seq<Step>, r: Client, failed: bool, named: bool)
    requires Runs(Initial(), before, s) && Issued(s, n) && Num(n) !in s.pending && Runs(s, after, r)
    ensures Received(r, Message(Some(Num(n)), true, failed, named)) == r
    ensures n in s.outcomes && n in r.outcomes && r.outcomes[n] == s.outcomes[n]
  {
    RunExtends(Initial(), before, s);
    RunExtends(s, after, r);
    assert Tracked(s, n);
  }

  /** An answer settles exactly the request it names; an id that is not a number in the table names none. */
  lemma AnswerSettlesItsRequest(steps: seq<Step>, s: Client, id: RpcId, failed: bool, named: bool)
    requires Runs(Initial(), steps, s)
    ensures
      var r := Received(s, Message(Some(id), true, failed, named));
      if id.Num? && id.n >= 1 && id in s.pending then
        && r.pending == s.pending - {id}
        && r.outcomes == (if id.n in s.outcomes then s.outcomes else s.outcomes[id.n := if failed then RpcError else Answered])
        && r.emitted == s.emitted && r.nextId == s.nextId && r.closed == s.closed
      else r == s
  {
    RunExtends(Initial(), steps, s);
    if id in s.pending {
      assert Tracked(s, s.pending[id]);
    }
  }

  lemma AbandonNone(outcomes: map<nat, Outcome>)
    ensures Abandon(outcomes, {}) == outcomes
  {
  }

  lemma AbandonOne(outcomes: map<nat, Outcome>, waiting: set<nat>, n: nat)
    requires n in waiting
    ensures Abandon(Settle(outcomes, n, ProcessGone), waiting - {n}) == Abandon(outcomes, waiting)
  {
  }

  lemma MinusOne<T>(all: set<T>, waiting: set<T>, x: T)
    requires x in waiting
    ensures (all - {x}) - (waiting - {x}) == all - waiting
  {
  }

  // ---------- the client ----------

  class JsonRpcLineClient {
    var nextId: nat
    var pending: map<RpcId, nat>
    var timers: set<nat>
    var closed: bool
    var outcomes: map<nat, Outcome>
    ghost var left: multiset<nat>
    var emitted: seq<Emitted>

    ghost function State(): Client
      reads this
    {
      Client(nextId, pending, timers, closed, outcomes, left, emitted)
    }

    constructor ()
      ensures State() == Initial()
    {
      nextId, pending, timers, closed, outcomes, left, emitted := 1, map[], {}, false, map[], multiset{}, [];
    }

    /** `request`: refused once closed; a write that fails rejects the promise but leaves the entry and its timer. */
    method Send(writable: bool) returns (id: Option<nat>)
      modifies this
      ensures State() == Next(old(State()), Request(writable))
      ensures id == if old(closed) then None else Some(old(nextId))
    {
      if closed {
        return None;
      }
      var n := nextId;
      nextId := nextId + 1;
      timers := timers + {n};
      pending := pending[Num(n) := n];
      if !writable {
        outcomes := Settle(outcomes, n, WriteFailed);
      }
      id := Some(n);
    }

    method HandleLine(line: Line)
      modifies this
      ensures State() == Next(old(State()), Receive(line))
    {
      match line
      case Blank =>
      case BadJson => emitted := emitted + [ProtocolError];
      case NotObject =>
      case Message(id, answer, failed, named) =>
        if id.Some? && answer {
          if id.value !in pending {
            return;
          }
          var n := pending[id.value];
          timers := timers - {n};
          pending := pending - {id.value};
          left := left + multiset{n};
          outcomes := Settle(outcomes, n, if failed then RpcError else Answered);
        } else if named && id.Some? {
          emitted := emitted + [ServerRequest(id.value)];
        } else if named {
          emitted := emitted + [Notification];
        }
    }

    /** A timer fires. */
    method Expire(n: nat)
      requires Inv(State()) && Enabled(State(), Timeout(n))
      modifies this
      ensures State() == Next(old(State()), Timeout(n))
    {
      assert Tracked(State(), n);
      timers := timers - {n};
      pending := pending - {Num(n)};
      left := left + multiset{n};
      outcomes := Settle(outcomes, n, TimedOut);
    }

    /** Every waiting request loses its timer and is rejected once, in whatever order. */
    method RejectAll()
      modifies this`timers, this`outcomes
      ensures timers == old(timers) - pending.Values
      ensures outcomes == Abandon(old(outcomes), pending.Values)
    {
      timers, outcomes := RejectEach(timers, outcomes, pending.Values);
    }

    static method RejectEach(before: set<nat>, settled: map<nat, Outcome>, requests: set<nat>)
      returns (timers: set<nat>, outcomes: map<nat, Outcome>)
      ensures timers == before - requests && outcomes == Abandon(settled, requests)
    {
      timers, outcomes := before, settled;
      var waiting := requests;
      while waiting != {}
        invariant timers - waiting == before - requests
        invariant Abandon(outcomes, waiting) == Abandon(settled, requests)
        decreases |waiting|
      {
        var n :| n in waiting;
        AbandonOne(outcomes, waiting, n);
        MinusOne(timers, waiting, n);
        timers := timers - {n};
        outcomes := Settle(outcomes, n, ProcessGone);
        waiting := waiting - {n};
      }
      AbandonNone(outcomes);
    }

    /** `close`. */
    method Shut()
      modifies this
      ensures State() == Next(old(State()), Close)
    {
      if !closed {
        closed := true;
        RejectAll();
        left := left + multiset(pending.Values);
        pending := map[];
        emitted := emitted + [CloseEvent];
      }
    }
  }
}
