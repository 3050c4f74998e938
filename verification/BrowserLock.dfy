/**
 The lock around browser and desktop actions (services/sandbox-manager/src/sandboxService.ts): each call
 takes the promise left by the call before it, leaves its own in its place, waits for the former and
 resolves the latter when its action has ended, whether it returned or threw.
 */
module BrowserLock {
  type Promise = nat

  datatype Phase = Waiting | Acting | Returned | Threw

  datatype Caller = Caller(previous: Promise, own: Promise, phase: Phase)

  /** `made` promises exist so far; `served` lists the callers in the order in which their actions began. */
  datatype Lock = Lock(queue: Promise, made: nat, resolved: set<Promise>, callers: seq<Caller>, served: seq<nat>)

  /** At first the queue holds a promise that is already resolved. */
  function Initial(): Lock { Lock(0, 1, {0}, [], []) }

  datatype Step = Call | Start(i: nat) | Finish(i: nat, threw: bool)

  predicate Enabled(s: Lock, step: Step) {
    match step
    case Call => true
    case Start(i) => i < |s.callers| && s.callers[i].phase == Waiting && s.callers[i].previous in s.resolved
    case Finish(i, _) => i < |s.callers| && s.callers[i].phase == Acting
  }

  function Next(s: Lock, step: Step): Lock
    requires Enabled(s, step)
  {
    match step
    case Call =>
      s.(queue := s.made, made := s.made + 1, callers := s.callers + [Caller(s.queue, s.made, Waiting)])
    case Start(i) =>
      s.(callers := s.callers[i := s.callers[i].(phase := Acting)], served := s.served + [i])
    case Finish(i, threw) =>
      s.(callers := s.callers[i := s.callers[i].(phase := if threw then Threw else Returned)],
         resolved := s.resolved + {s.callers[i].own})
  }

  predicate Runs(s: Lock, steps: seq<Step>, r: Lock)
    decreases |steps|
  {
    if steps == [] then s == r
    else Enabled(s, steps[0]) && Runs(Next(s, steps[0]), steps[1..], r)
  }

  predicate Ended(c: Caller) { c.phase == Returned || c.phase == Threw }

  function UpTo(n: nat): (r: seq<nat>)
    ensures |r| == n && forall i :: 0 <= i < n ==> r[i] == i
  {
    if n == 0 then [] else UpTo(n - 1) + [n - 1]
  }

  /** The first `done` calls have ended, the next may be acting, and all later ones wait for the one before them. */
  ghost predicate Ordered(s: Lock, done: nat) {
    && done <= |s.callers|
    && s.made == |s.callers| + 1 && s.queue == |s.callers|
    && (forall i :: 0 <= i < |s.callers| ==> s.callers[i].previous == i && s.callers[i].own == i + 1)
    && (forall i :: 0 <= i < |s.callers| ==> (i < done <==> Ended(s.callers[i])) && (i > done ==> s.callers[i].phase == Waiting))
    && (forall p :: p in s.resolved <==> 0 <= p <= done)
    && s.served == UpTo(done + (if done < |s.callers| && s.callers[done].phase == Acting then 1 else 0))
  }

  function Served(done: nat, step: Step): nat { if step.Finish? then done + 1 else done }

  lemma CallKeepsOrder(s: Lock, done: nat)
    requires Ordered(s, done)
    ensures Ordered(Next(s, Call), done)
  {
  }

  lemma StartKeepsOrder(s: Lock, i: nat, done: nat)
    requires Ordered(s, done) && Enabled(s, Start(i))
    ensures i == done && Ordered(Next(s, Start(i)), done)
  {
    assert i == done;
  }

  lemma FinishKeepsOrder(s: Lock, i: nat, threw: bool, done: nat)
    requires Ordered(s, done) && Enabled(s, Finish(i, threw))
    ensures i == done && Ordered(Next(s, Finish(i, threw)), done + 1)
  {
    assert i == done;
  }

  lemma StepKeepsOrder(s: Lock, step: Step, done: nat)
    requires Ordered(s, done) && Enabled(s, step)
    ensures Ordered(Next(s, step), Served(done, step))
  {
    match step
    case Call => CallKeepsOrder(s, done);
    case Start(i) => StartKeepsOrder(s, i, done);
    case Finish(i, threw) => FinishKeepsOrder(s, i, threw, done);
  }

  /** How many actions have begun or ended. */
  function Work(steps: seq<Step>): nat
  {
    if steps == [] then 0 else (if steps[0].Call? then 0 else 1) + Work(steps[1..])
  }

  /** How far the callers have come: two for each that has ended, one for one that is acting. */
  function Progress(s: Lock, done: nat): nat {
    2 * done + if done < |s.callers| && s.callers[done].phase == Acting then 1 else 0
  }

  lemma {:induction false} RunKeepsOrder(s: Lock, steps: seq<Step>, r: Lock, done: nat) returns (end: nat)
    requires Ordered(s, done) && Runs(s, steps, r)
    ensures Ordered(r, end) && Progress(r, end) == Progress(s, done) + Work(steps)
    decreases |steps|
  {
    end := done;
    if steps != [] {
      StepKeepsOrder(s, steps[0], done);
      StepWorks(s, steps[0], done);
      end := RunKeepsOrder(Next(s, steps[0]), steps[1..], r, Served(done, steps[0]));
    }
  }

  lemma StepWorks(s: Lock, step: Step, done: nat)
    requires Ordered(s, done) && Enabled(s, step)
    ensures Progress(Next(s, step), Served(done, step)) == Progress(s, done) + if step.Call? then 0 else 1
  {
    match step
    case Call =>
    case Start(i) => assert i == done;
    case Finish(i, _) => assert i == done;
  }

  // ---------- what the lock promises ----------

  /** In every run at most one action is under way, and actions began in the order of the calls. */
  lemma OneActionInOrder(steps: seq<Step>, r: Lock, i: nat, j: nat)
    requires Runs(Initial(), steps, r)
    ensures i < |r.callers| && j < |r.callers| && r.callers[i].phase == r.callers[j].phase == Acting ==> i == j
    ensures r.served == UpTo(|r.served|)
    ensures i < j < |r.callers| && r.callers[j].phase != Waiting ==> Ended(r.callers[i])
  {
    var done := RunKeepsOrder(Initial(), steps, r, 0);
  }

  /**
   The lock never gets stuck: while someone is unserved, an action can begin or is under way and can end. Caller `i`
   has ended exactly when `2 * (i + 1)` beginnings and ends have happened, however many calls came in
   between, so everyone is served if each action ends.
   */
  lemma EveryoneIsServed(steps: seq<Step>, r: Lock, i: nat)
    requires Runs(Initial(), steps, r) && i < |r.callers|
    ensures Ended(r.callers[i]) <==> Work(steps) >= 2 * (i + 1)
    ensures !Ended(r.callers[i]) ==>
      exists j: nat :: j <= i && (Enabled(r, Start(j)) || (Enabled(r, Finish(j, true)) && Enabled(r, Finish(j, false))))
  {
    var done := RunKeepsOrder(Initial(), steps, r, 0);
    if !Ended(r.callers[i]) {
      assert done <= i && (Enabled(r, Start(done)) || (Enabled(r, Finish(done, true)) && Enabled(r, Finish(done, false))));
    }
  }

  // ---------- the service's field ----------

  /** `browserActionQueue`, with the promises made so far and the calls that hold them. */
  class BrowserActions {
    var queue: Promise
    var made: nat
    var resolved: set<Promise>
    var callers: seq<Caller>
    ghost var served: seq<nat>

    ghost function State(): Lock
      reads this
    {
      Lock(queue, made, resolved, callers, served)
    }

    constructor ()
      ensures State() == Initial()
    {
      queue, made, resolved, callers, served := 0, 1, {0}, [], [];
    }

    /** A call up to its `await`: it takes the queue's promise and leaves its own. */
    method Enter() returns (i: nat)
      modifies this
      ensures Enabled(old(State()), Call) && State() == Next(old(State()), Call) && i == old(|callers|)
    {
      var previous := queue;
      var own := made;
      made := made + 1;
      queue := own;
      i := |callers|;
      callers := callers + [Caller(previous, own, Waiting)];
    }

    /** The `await` ends, once the promise waited for is resolved. */
    method Begin(i: nat) returns (began: bool)
      modifies this
      ensures began == Enabled(old(State()), Start(i))
      ensures State() == if began then Next(old(State()), Start(i)) else old(State())
    {
      began := i < |callers| && callers[i].phase == Waiting && callers[i].previous in resolved;
      if began {
        callers := callers[i := callers[i].(phase := Acting)];
        served := served + [i];
      }
    }

    /** The action returns or throws; either way the call resolves its own promise. */
    method End(i: nat, threw: bool)
      requires Enabled(State(), Finish(i, threw))
      modifies this
      ensures State() == Next(old(State()), Finish(i, threw))
      ensures callers[i].phase == (if threw then Threw else Returned) && resolved == old(resolved) + {callers[i].own}
    {
      callers := callers[i := callers[i].(phase := if threw then Threw else Returned)];
      resolved := resolved + {callers[i].own};
    }
  }
}
