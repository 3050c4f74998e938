/**
 Shared computers and who controls them (services/api/src/computers/computer-service.ts). The sandbox
 manager is not modelled: whatever it answers is an argument of the operation. Each operation runs alone;
 its clock readings are arguments too. A manager call that fails before anything is stored changes
 nothing and is not an operation here.
 */
module Computers {
  import opened Wrappers

  datatype Actor = User(id: Id) | Agent(id: Id) | System(id: Id)
  datatype Status = Creating | Running | Stopped | Broken
  datatype Mode = AgentMode | UserMode | WatchMode

  datatype Session = Session(
    id: Id, agentId: Option<Id>, taskId: Option<Id>, status: Status, browser: bool, network: bool,
    mode: Mode, holder: Option<Id>, lease: Option<int>, createdAt: int)

  /** What the manager says about one sandbox. */
  datatype Sandbox = Sandbox(status: Status, browser: bool)
  /** The manager's answer to a request to create or start a sandbox. */
  datatype Started = Started(id: Id, sandbox: Sandbox)

  type Store = map<Id, Session>

  datatype Error =
    | NoSuchRecord | AgentMismatch | NetworkForbidden | SandboxFailed | IdentityMismatch
    | UserOnly | NotRunning | UserControls | TakeoverRequired | BrowserUnavailable | InvalidAddress

  /** An operation's new store, its answer, and the computer on which the manager was told to act. */
  datatype Effect = Effect(store: Store, answer: Result<Session, Error>, acted: Option<Id>)

  function Fails(m: Store, e: Error): Effect { Effect(m, Err(e), None) }

  // ---------- one record ----------

  function NormalizeShared(s: Session): Session {
    if !s.browser || s.agentId.None? then s
    else if s.mode == UserMode then s.(agentId := None, taskId := None)
    else s.(agentId := None, taskId := None, mode := WatchMode, holder := None, lease := None)
  }

  function WithSandbox(s: Session, sandbox: Sandbox): Session {
    s.(status := sandbox.status, browser := sandbox.browser)
  }

  function Released(s: Session): Session {
    s.(mode := if s.agentId.Some? then AgentMode else WatchMode, holder := s.agentId, lease := None)
  }

  function NormalizeLease(s: Session, now: int): Session {
    if s.mode != UserMode || s.lease.None? || s.lease.value > now then s else Released(s)
  }

  function Refreshed(s: Session, reply: Option<Sandbox>, now: int): Session {
    var normalized := NormalizeShared(s);
    NormalizeLease(if reply.Some? then WithSandbox(normalized, reply.value) else normalized.(status := Stopped), now)
  }

  // ---------- the operations ----------

  function ListOf(m: Store, listed: map<Id, Sandbox>, now: int): Store {
    map id | id in m :: Refreshed(m[id], if id in listed then Some(listed[id]) else None, now)
  }

  predicate Shared(s: Session) { s.agentId.None? && s.browser }

  /** The search in the listing, newest first, found a shared computer, or there is none. */
  predicate FoundIn(m: Store, found: Option<Id>) {
    match found
    case Some(id) => id in m && Shared(m[id]) && forall other :: other in m && Shared(m[other]) ==> m[other].createdAt <= m[id].createdAt
    case None => forall id :: id in m ==> !Shared(m[id])
  }

  datatype Input = Input(agentId: Option<Id>, taskId: Option<Id>, browser: bool, network: bool)

  /** What a creation meets: the known agents and tasks, the manager's answers, the search result, a new id. */
  datatype Plan = Plan(known: set<Id>, listed: map<Id, Sandbox>, found: Option<Id>, newId: Id, started: Option<Started>)

  function Initial(input: Input, id: Id, now: int): Session {
    var agentId := if input.browser then None else input.agentId;
    Session(id, agentId, input.taskId, Creating, input.browser, input.network,
            if agentId.Some? then AgentMode else WatchMode, agentId, None, now)
  }

  function WakeOf(m: Store, s: Session, started: Option<Started>): Effect {
    if s.status == Running then Effect(m, Ok(s), None)
    else if started.None? then Fails(m, SandboxFailed)
    else
      var awakened := WithSandbox(s, started.value.sandbox);
      Effect(m[s.id := awakened], Ok(awakened), None)
  }

  predicate Known(ids: set<Id>, id: Option<Id>) { id.Some? ==> id.value in ids }

  function CreateOf(m: Store, input: Input, actor: Actor, p: Plan, now: int): Effect
    requires input.browser ==> FoundIn(ListOf(m, p.listed, now), p.found)
  {
    if (actor.Agent? && actor.id !in p.known) || !Known(p.known, input.agentId) || !Known(p.known, input.taskId) then
      Fails(m, NoSuchRecord)
    else if actor.Agent? && input.agentId != Some(actor.id) then Fails(m, AgentMismatch)
    else if actor.Agent? && input.network then Fails(m, NetworkForbidden)
    else
      var m1 := if input.browser then ListOf(m, p.listed, now) else m;
      if input.browser && p.found.Some? then
        var existing := m1[p.found.value];
        if existing.status == Stopped then WakeOf(m1, existing, p.started) else Effect(m1, Ok(existing), None)
      else if p.started.None? then Fails(m1, SandboxFailed)
      else if p.started.value.id != p.newId then Fails(m1, IdentityMismatch)
      else
        var session := WithSandbox(Initial(input, p.newId, now), p.started.value.sandbox);
        Effect(m1[p.newId := session], Ok(session), None)
  }

  function TakeoverOf(m: Store, id: Id, seconds: int, actor: Actor, reply: Option<Sandbox>, now: int): Effect {
    if !actor.User? then Fails(m, UserOnly)
    else if id !in m then Fails(m, NoSuchRecord)
    else
      var current := Refreshed(m[id], reply, now);
      if current.status != Running then Fails(m[id := current], NotRunning)
      else
        var session := current.(mode := UserMode, holder := Some(actor.id), lease := Some(now + 1000 * seconds));
        Effect(m[id := session], Ok(session), None)
  }

  function ReturnOf(m: Store, id: Id, actor: Actor, reply: Option<Sandbox>, now: int): Effect {
    if !actor.User? then Fails(m, UserOnly)
    else if id !in m then Fails(m, NoSuchRecord)
    else
      var session := Released(Refreshed(m[id], reply, now));
      Effect(m[id := session], Ok(session), None)
  }

  function ExecOf(m: Store, id: Id, actor: Actor, known: set<Id>, reply: Option<Sandbox>, now: int, later: int): Effect {
    if actor.Agent? && actor.id !in known then Fails(m, NoSuchRecord)
    else if id !in m then Fails(m, NoSuchRecord)
    else
      var s := Refreshed(m[id], reply, now);
      var m1 := m[id := s];
      if s.status != Running then Fails(m1, NotRunning)
      else if actor.Agent? && s.agentId.Some? && s.agentId.value != actor.id then Fails(m1, AgentMismatch)
      else if actor.Agent? && s.mode == UserMode then Fails(m1, UserControls)
      else if !actor.Agent? && (s.mode != UserMode || s.holder != Some(actor.id) || s.lease.None? || s.lease.value <= later) then
        Fails(m1, TakeoverRequired)
      else Effect(m1, Ok(s), Some(id))
  }

  /** The computer that a navigation or desktop action is for, before it is woken; a listing for a new shared
      computer comes later than the first. */
  function ResolveOf(m: Store, id: Option<Id>, actor: Actor, owner: Id, first: Plan, second: Plan, now: int, later: int): Effect
    requires FoundIn(ListOf(m, first.listed, now), first.found)
    requires FoundIn(ListOf(ListOf(m, first.listed, now), second.listed, later), second.found)
  {
    var m1 := ListOf(m, first.listed, now);
    if id.Some? && id.value in m1 then Effect(m1, Ok(m1[id.value]), None)
    else if id.None? && first.found.Some? then Effect(m1, Ok(m1[first.found.value]), None)
    else if actor.Agent? then CreateOf(m1, Input(None, None, true, true), System(owner), second, later)
    else Fails(m1, NoSuchRecord)
  }

  /** Waking the computer that was found, when it is stopped and the actor may wake it. */
  function Woken(e: Effect, actor: Actor, wake: Option<Started>): Effect {
    if e.answer.Err? then e
    else
      var s := e.answer.value;
      var mayWake := !actor.Agent? || s.agentId.None? || s.agentId.value == actor.id;
      if s.status == Stopped && mayWake then WakeOf(e.store, s, wake) else e
  }

  function ActOn(w: Effect, actor: Actor): Effect {
    if w.answer.Err? then w
    else
      var s := w.answer.value;
      if !s.browser || s.status != Running then Fails(w.store, BrowserUnavailable)
      else if actor.Agent? && s.agentId.Some? && s.agentId.value != actor.id then Fails(w.store, AgentMismatch)
      else if actor.Agent? && s.mode == UserMode then Fails(w.store, UserControls)
      else Effect(w.store, Ok(s), Some(s.id))
  }

  /** What is done to the browser: a navigation, to an http or https address or another, or a desktop action. */
  datatype Action = Navigate(web: bool) | Interact

  function UseOf(m: Store, id: Option<Id>, action: Action, actor: Actor, owner: Id, first: Plan, second: Plan, wake: Option<Started>, now: int, later: int): Effect
    requires FoundIn(ListOf(m, first.listed, now), first.found)
    requires FoundIn(ListOf(ListOf(m, first.listed, now), second.listed, later), second.found)
  {
    if actor.Agent? && actor.id !in first.known then Fails(m, NoSuchRecord)
    else if action == Navigate(false) then Fails(m, InvalidAddress)
    else ActOn(Woken(ResolveOf(m, id, actor, owner, first, second, now, later), actor, wake), actor)
  }

  function RemoveOf(m: Store, id: Id, actor: Actor, known: set<Id>, reply: Option<Sandbox>, now: int, removed: bool): Effect {
    if actor.Agent? && actor.id !in known then Fails(m, NoSuchRecord)
    else if id !in m then Fails(m, NoSuchRecord)
    else
      var s := Refreshed(m[id], reply, now);
      if actor.Agent? && s.agentId != Some(actor.id) then Fails(m[id := s], AgentMismatch)
      else if !removed then Fails(m[id := s], SandboxFailed)
      else Effect(m - {id}, Ok(s), None)
  }

  // ---------- runs ----------

  datatype Op =
    | List(listed: map<Id, Sandbox>, now: int)
    | Get(id: Id, reply: Option<Sandbox>, now: int)
    | Create(input: Input, actor: Actor, plan: Plan, now: int)
    | Takeover(id: Id, seconds: int, actor: Actor, reply: Option<Sandbox>, now: int)
    | Return(id: Id, actor: Actor, reply: Option<Sandbox>, now: int)
    | Exec(id: Id, actor: Actor, known: set<Id>, reply: Option<Sandbox>, now: int, later: int)
    | Use(wanted: Option<Id>, action: Action, actor: Actor, plan: Plan, second: Plan, wake: Option<Started>, now: int, later: int)
    | Remove(id: Id, actor: Actor, known: set<Id>, reply: Option<Sandbox>, now: int, removed: bool)

  /** Users are the workspace owner; leases last from 30 seconds to an hour; new ids are new. */
  predicate Feasible(m: Store, op: Op, owner: Id) {
    match op
    case List(_, _) => true
    case Get(_, _, _) => true
    case Create(input, actor, p, now) =>
      && OwnerOnly(actor, owner)
      && p.newId !in m
      && (input.browser ==> FoundIn(ListOf(m, p.listed, now), p.found))
    case Takeover(_, seconds, actor, _, _) => OwnerOnly(actor, owner) && 30 <= seconds <= 3600
    case Return(_, actor, _, _) => OwnerOnly(actor, owner)
    case Exec(_, actor, _, _, now, later) => OwnerOnly(actor, owner) && now <= later
    case Use(_, _, actor, first, second, _, now, later) =>
      && OwnerOnly(actor, owner) && now <= later
      && second.newId !in m
      && FoundIn(ListOf(m, first.listed, now), first.found)
      && FoundIn(ListOf(ListOf(m, first.listed, now), second.listed, later), second.found)
    case Remove(_, actor, _, _, _, _) => OwnerOnly(actor, owner)
  }

  predicate OwnerOnly(actor: Actor, owner: Id) { actor.User? ==> actor.id == owner }

  function GetOf(m: Store, id: Id, reply: Option<Sandbox>, now: int): Effect {
    if id !in m then Fails(m, NoSuchRecord)
    else Effect(m[id := Refreshed(m[id], reply, now)], Ok(Refreshed(m[id], reply, now)), None)
  }

  /** The answer of a listing is the whole table; every other operation answers for one record. */
  datatype Outcome = Outcome(store: Store, answer: Option<Result<Session, Error>>, acted: Option<Id>)

  function Done(e: Effect): Outcome { Outcome(e.store, Some(e.answer), e.acted) }

  predicate Granted(o: Outcome) { o.answer.Some? && o.answer.value.Ok? }

  function StepOf(m: Store, op: Op, owner: Id): Outcome
    requires Feasible(m, op, owner)
  {
    match op
    case List(listed, now) => Outcome(ListOf(m, listed, now), None, None)
    case Get(id, reply, now) => Done(GetOf(m, id, reply, now))
    case Create(input, actor, p, now) => Done(CreateOf(m, input, actor, p, now))
    case Takeover(id, seconds, actor, reply, now) => Done(TakeoverOf(m, id, seconds, actor, reply, now))
    case Return(id, actor, reply, now) => Done(ReturnOf(m, id, actor, reply, now))
    case Exec(id, actor, known, reply, now, later) => Done(ExecOf(m, id, actor, known, reply, now, later))
    case Use(wanted, action, actor, first, second, wake, now, later) => Done(UseOf(m, wanted, action, actor, owner, first, second, wake, now, later))
    case Remove(id, actor, known, reply, now, removed) => Done(RemoveOf(m, id, actor, known, reply, now, removed))
  }

  /** The operations happen one after the other, leading from `m` to `r`. */
  predicate Runs(m: Store, ops: seq<Op>, owner: Id, r: Store)
    decreases |ops|
  {
    if ops == [] then m == r
    else Feasible(m, ops[0], owner) && Runs(StepOf(m, ops[0], owner).store, ops[1..], owner, r)
  }

  // ---------- mode, lease, holder and assignment agree ----------

  predicate Agrees(s: Session, owner: Id) {
    && (s.mode == UserMode <==> s.lease.Some?)
    && (s.mode == UserMode ==> s.holder == Some(owner))
    && (s.mode != UserMode ==> s.holder == s.agentId && (s.mode == AgentMode <==> s.agentId.Some?))
  }

  ghost predicate AllAgree(m: Store, owner: Id) {
    forall id :: id in m ==> m[id].id == id && Agrees(m[id], owner)
  }

  lemma RefreshAgrees(s: Session, reply: Option<Sandbox>, now: int, owner: Id)
    requires Agrees(s, owner)
    ensures Agrees(Refreshed(s, reply, now), owner) && Refreshed(s, reply, now).id == s.id
  {
  }

  lemma ListAgrees(m: Store, listed: map<Id, Sandbox>, now: int, owner: Id)
    requires AllAgree(m, owner)
    ensures AllAgree(ListOf(m, listed, now), owner)
  {
    forall id | id in m
      ensures m[id].id == id && Agrees(ListOf(m, listed, now)[id], owner) && ListOf(m, listed, now)[id].id == id
    {
      RefreshAgrees(m[id], if id in listed then Some(listed[id]) else None, now, owner);
    }
  }

  ghost predicate EffectAgrees(e: Effect, owner: Id) {
    && AllAgree(e.store, owner)
    && e.acted.None?
    && (e.answer.Ok? ==> e.answer.value.id in e.store && e.store[e.answer.value.id] == e.answer.value)
  }

  lemma WakeAgrees(m: Store, s: Session, started: Option<Started>, owner: Id)
    requires AllAgree(m, owner) && s.id in m && m[s.id] == s
    ensures EffectAgrees(WakeOf(m, s, started), owner)
  {
  }

  lemma CreateAgrees(m: Store, input: Input, actor: Actor, p: Plan, now: int, owner: Id)
    requires AllAgree(m, owner) && p.newId !in m
    requires input.browser ==> FoundIn(ListOf(m, p.listed, now), p.found)
    ensures EffectAgrees(CreateOf(m, input, actor, p, now), owner)
  {
    var m1 := if input.browser then ListOf(m, p.listed, now) else m;
    if input.browser {
      ListAgrees(m, p.listed, now, owner);
      if p.found.Some? {
        WakeAgrees(m1, m1[p.found.value], p.started, owner);
      }
    }
    assert Agrees(Initial(input, p.newId, now), owner);
  }

  lemma ResolveAgrees(m: Store, id: Option<Id>, actor: Actor, owner: Id, first: Plan, second: Plan, now: int, later: int)
    requires AllAgree(m, owner) && second.newId !in m
    requires FoundIn(ListOf(m, first.listed, now), first.found)
    requires FoundIn(ListOf(ListOf(m, first.listed, now), second.listed, later), second.found)
    ensures EffectAgrees(ResolveOf(m, id, actor, owner, first, second, now, later), owner)
  {
    ListAgrees(m, first.listed, now, owner);
    CreateAgrees(ListOf(m, first.listed, now), Input(None, None, true, true), System(owner), second, later, owner);
  }

  lemma WokenAgrees(e: Effect, actor: Actor, wake: Option<Started>, owner: Id)
    requires EffectAgrees(e, owner)
    ensures EffectAgrees(Woken(e, actor, wake), owner)
  {
    if e.answer.Ok? {
      WakeAgrees(e.store, e.answer.value, wake, owner);
    }
  }

  lemma UseAgrees(m: Store, id: Option<Id>, action: Action, actor: Actor, owner: Id, first: Plan, second: Plan, wake: Option<Started>, now: int, later: int)
    requires AllAgree(m, owner) && second.newId !in m
    requires FoundIn(ListOf(m, first.listed, now), first.found)
    requires FoundIn(ListOf(ListOf(m, first.listed, now), second.listed, later), second.found)
    ensures AllAgree(UseOf(m, id, action, actor, owner, first, second, wake, now, later).store, owner)
  {
    ResolveAgrees(m, id, actor, owner, first, second, now, later);
    WokenAgrees(ResolveOf(m, id, actor, owner, first, second, now, later), actor, wake, owner);
  }

  lemma RewriteAgrees(m: Store, id: Id, s: Session, owner: Id)
    requires AllAgree(m, owner) && s.id == id && Agrees(s, owner)
    ensures AllAgree(m[id := s], owner) && AllAgree(m - {id}, owner)
  {
  }

  lemma RecordAgrees(m: Store, op: Op, owner: Id)
    requires AllAgree(m, owner) && Feasible(m, op, owner)
    requires op.Get? || op.Takeover? || op.Return? || op.Exec? || op.Remove?
    ensures AllAgree(StepOf(m, op, owner).store, owner)
  {
    if op.id in m {
      var s := Refreshed(m[op.id], op.reply, op.now);
      RefreshAgrees(m[op.id], op.reply, op.now, owner);
      RewriteAgrees(m, op.id, s, owner);
      if op.Return? {
        RewriteAgrees(m, op.id, Released(s), owner);
      }
      if op.Takeover? && op.actor.User? {
        RewriteAgrees(m, op.id, s.(mode := UserMode, holder := Some(op.actor.id), lease := Some(op.now + 1000 * op.seconds)), owner);
      }
    }
  }

  lemma StepAgrees(m: Store, op: Op, owner: Id)
    requires AllAgree(m, owner) && Feasible(m, op, owner)
    ensures AllAgree(StepOf(m, op, owner).store, owner)
  {
    match op
    case List(listed, now) => ListAgrees(m, listed, now, owner);
    case Create(input, actor, p, now) => CreateAgrees(m, input, actor, p, now, owner);
    case Use(wanted, action, actor, first, second, wake, now, later) => UseAgrees(m, wanted, action, actor, owner, first, second, wake, now, later);
    case _ => RecordAgrees(m, op, owner);
  }

  /** In every run: user mode exactly with a lease, held by the owner; otherwise the assigned agent decides. */
  lemma {:induction false} ModesAlwaysAgree(m: Store, ops: seq<Op>, owner: Id, r: Store)
    requires AllAgree(m, owner) && Runs(m, ops, owner, r)
    ensures AllAgree(r, owner)
    decreases |ops|
  {
    if ops != [] {
      StepAgrees(m, ops[0], owner);
      ModesAlwaysAgree(StepOf(m, ops[0], owner).store, ops[1..], owner, r);
    }
  }

  // ---------- control while a lease runs ----------

  /** The computer is gone, or the owner controls it until at least `until`. */
  predicate Held(m: Store, id: Id, until: int) {
    id in m ==> m[id].mode == UserMode && m[id].lease.Some? && m[id].lease.value >= until
  }

  function NewIds(op: Op): set<Id> {
    match op
    case Create(_, _, plan, _) => {plan.newId}
    case Use(_, _, _, _, second, _, _, _) => {second.newId}
    case _ => {}
  }

  /** The operation comes before `until`, does not give control of `id` back or shorten it, and does not reuse the id. */
  predicate Leaves(op: Op, id: Id, until: int) {
    && op.now < until && (op.Use? ==> op.later < until)
    && id !in NewIds(op)
    && !(op.Return? && op.id == id && op.actor.User?)
    && (op.Takeover? && op.id == id ==> op.now + 1000 * op.seconds >= until)
  }

  predicate ByAgent(op: Op) { (op.Exec? || op.Use?) && op.actor.Agent? }

  lemma RefreshHolds(s: Session, reply: Option<Sandbox>, now: int, until: int)
    requires s.mode == UserMode && s.lease.Some? && s.lease.value >= until > now
    ensures Refreshed(s, reply, now).mode == UserMode && Refreshed(s, reply, now).lease == s.lease
  {
  }

  lemma ListHolds(m: Store, listed: map<Id, Sandbox>, now: int, id: Id, until: int)
    requires Held(m, id, until) && now < until
    ensures Held(ListOf(m, listed, now), id, until)
  {
    if id in m {
      RefreshHolds(m[id], if id in listed then Some(listed[id]) else None, now, until);
    }
  }

  lemma CreateHolds(m: Store, input: Input, actor: Actor, p: Plan, now: int, owner: Id, id: Id, until: int)
    requires AllAgree(m, owner) && Held(m, id, until) && now < until && p.newId != id && p.newId !in m
    requires input.browser ==> FoundIn(ListOf(m, p.listed, now), p.found)
    ensures Held(CreateOf(m, input, actor, p, now).store, id, until)
    ensures CreateOf(m, input, actor, p, now).acted.None?
  {
    if input.browser {
      ListHolds(m, p.listed, now, id, until);
      ListAgrees(m, p.listed, now, owner);
    }
  }

  lemma WokenHolds(e: Effect, actor: Actor, wake: Option<Started>, owner: Id, id: Id, until: int)
    requires EffectAgrees(e, owner) && Held(e.store, id, until)
    ensures Held(Woken(e, actor, wake).store, id, until)
  {
  }

  lemma ActRefused(w: Effect, actor: Actor, owner: Id, id: Id, until: int)
    requires EffectAgrees(w, owner) && Held(w.store, id, until)
    ensures ActOn(w, actor).store == w.store
    ensures actor.Agent? ==> ActOn(w, actor).acted != Some(id)
  {
  }

  lemma ResolveHolds(m: Store, wanted: Option<Id>, actor: Actor, owner: Id, first: Plan, second: Plan, now: int, later: int, id: Id, until: int)
    requires AllAgree(m, owner) && Held(m, id, until) && now < until && later < until && second.newId != id && second.newId !in m
    requires FoundIn(ListOf(m, first.listed, now), first.found)
    requires FoundIn(ListOf(ListOf(m, first.listed, now), second.listed, later), second.found)
    ensures Held(ResolveOf(m, wanted, actor, owner, first, second, now, later).store, id, until)
  {
    var m1 := ListOf(m, first.listed, now);
    ListHolds(m, first.listed, now, id, until);
    ListAgrees(m, first.listed, now, owner);
    CreateHolds(m1, Input(None, None, true, true), System(owner), second, later, owner, id, until);
  }

  lemma FoundHolds(e: Effect, actor: Actor, wake: Option<Started>, owner: Id, id: Id, until: int)
    requires EffectAgrees(e, owner) && Held(e.store, id, until)
    ensures Held(ActOn(Woken(e, actor, wake), actor).store, id, until)
    ensures actor.Agent? ==> ActOn(Woken(e, actor, wake), actor).acted != Some(id)
  {
    WokenHolds(e, actor, wake, owner, id, until);
    WokenAgrees(e, actor, wake, owner);
    ActRefused(Woken(e, actor, wake), actor, owner, id, until);
  }

  lemma UseHolds(m: Store, wanted: Option<Id>, action: Action, actor: Actor, owner: Id, first: Plan, second: Plan,
                 wake: Option<Started>, now: int, later: int, id: Id, until: int)
    requires AllAgree(m, owner) && Held(m, id, until) && now < until && later < until && second.newId != id && second.newId !in m
    requires FoundIn(ListOf(m, first.listed, now), first.found)
    requires FoundIn(ListOf(ListOf(m, first.listed, now), second.listed, later), second.found)
    ensures Held(UseOf(m, wanted, action, actor, owner, first, second, wake, now, later).store, id, until)
    ensures actor.Agent? ==> UseOf(m, wanted, action, actor, owner, first, second, wake, now, later).acted != Some(id)
  {
    ResolveHolds(m, wanted, actor, owner, first, second, now, later, id, until);
    ResolveAgrees(m, wanted, actor, owner, first, second, now, later);
    FoundHolds(ResolveOf(m, wanted, actor, owner, first, second, now, later), actor, wake, owner, id, until);
  }

  lemma RecordHolds(m: Store, op: Op, owner: Id, id: Id, until: int)
    requires op.Get? || op.Takeover? || op.Return? || op.Remove?
    requires Feasible(m, op, owner) && Held(m, id, until) && Leaves(op, id, until)
    ensures Held(StepOf(m, op, owner).store, id, until)
  {
    if id in m {
      RefreshHolds(m[id], op.reply, op.now, until);
    }
  }

  lemma ExecHolds(m: Store, op: Op, owner: Id, id: Id, until: int)
    requires op.Exec? && Feasible(m, op, owner) && Held(m, id, until) && Leaves(op, id, until)
    ensures Held(StepOf(m, op, owner).store, id, until)
    ensures op.actor.Agent? ==> StepOf(m, op, owner).acted != Some(id)
  {
    if id in m {
      RefreshHolds(m[id], op.reply, op.now, until);
    }
  }

  lemma StepHolds(m: Store, op: Op, owner: Id, id: Id, until: int)
    requires AllAgree(m, owner) && Feasible(m, op, owner) && Held(m, id, until) && Leaves(op, id, until)
    ensures Held(StepOf(m, op, owner).store, id, until)
    ensures ByAgent(op) ==> StepOf(m, op, owner).acted != Some(id)
  {
    match op
    case List(listed, now) => ListHolds(m, listed, now, id, until);
    case Create(input, actor, p, now) => CreateHolds(m, input, actor, p, now, owner, id, until);
    case Use(wanted, action, actor, first, second, wake, now, later) =>
      UseHolds(m, wanted, action, actor, owner, first, second, wake, now, later, id, until);
    case Exec(_, _, _, _, _, _) => ExecHolds(m, op, owner, id, until);
    case _ => RecordHolds(m, op, owner, id, until);
  }

  /** Somewhere in the run an agent's command, navigation or desktop action on `id` reaches the manager. */
  predicate AgentActs(m: Store, ops: seq<Op>, owner: Id, r: Store, id: Id)
    requires Runs(m, ops, owner, r)
    decreases |ops|
  {
    ops != [] && (
      (ByAgent(ops[0]) && StepOf(m, ops[0], owner).acted == Some(id))
      || AgentActs(StepOf(m, ops[0], owner).store, ops[1..], owner, r, id))
  }

  lemma {:induction false} HeldKeepsAgentsOut(m: Store, ops: seq<Op>, owner: Id, r: Store, id: Id, until: int)
    requires AllAgree(m, owner) && Held(m, id, until) && Runs(m, ops, owner, r)
    requires forall i :: 0 <= i < |ops| ==> Leaves(ops[i], id, until)
    ensures !AgentActs(m, ops, owner, r, id) && Held(r, id, until)
    decreases |ops|
  {
    if ops != [] {
      StepAgrees(m, ops[0], owner);
      StepHolds(m, ops[0], owner, id, until);
      HeldKeepsAgentsOut(StepOf(m, ops[0], owner).store, ops[1..], owner, r, id, until);
    }
  }

  /**
   After a takeover, in every run until the owner gives control back or the lease ends, nothing an agent
   asks for reaches the manager; not even after the computer was removed.
   */
  lemma TakeoverKeepsAgentsOut(m: Store, op: Op, ops: seq<Op>, owner: Id, r: Store)
    requires AllAgree(m, owner) && op.Takeover? && Feasible(m, op, owner) && Granted(StepOf(m, op, owner))
    requires Runs(StepOf(m, op, owner).store, ops, owner, r)
    requires forall i :: 0 <= i < |ops| ==> Leaves(ops[i], op.id, op.now + 1000 * op.seconds)
    ensures !AgentActs(StepOf(m, op, owner).store, ops, owner, r, op.id)
  {
    StepAgrees(m, op, owner);
    HeldKeepsAgentsOut(StepOf(m, op, owner).store, ops, owner, r, op.id, op.now + 1000 * op.seconds);
  }

  /** Exactly when a command reaches the manager, in terms of the record as it was stored. */
  lemma CommandActsExactly(m: Store, op: Op, owner: Id)
    requires AllAgree(m, owner) && op.Exec? && Feasible(m, op, owner)
    ensures
      var s := if op.id in m then Some(m[op.id]) else None;
      StepOf(m, op, owner).acted == Some(op.id) <==>
        && s.Some? && op.reply.Some? && op.reply.value.status == Running
        && if op.actor.Agent? then
             && op.actor.id in op.known
             && (s.value.browser || s.value.agentId.None? || s.value.agentId.value == op.actor.id)
             && (s.value.mode == UserMode ==> s.value.lease.value <= op.now)
           else
             s.value.mode == UserMode && op.actor.id == owner && s.value.lease.value > op.later
  {
  }

  /** A takeover gives commands to the owner for the length of the lease; a return gives them to the agent. */
  lemma ControlChangesHands(m: Store, op: Op, use: Op, owner: Id)
    requires AllAgree(m, owner) && Feasible(m, op, owner) && (op.Takeover? || op.Return?) && Granted(StepOf(m, op, owner))
    requires use.Exec? && use.id == op.id && use.reply.Some? && use.reply.value.status == Running
    requires OwnerOnly(use.actor, owner) && op.now <= use.now <= use.later
    ensures
      var r := StepOf(m, op, owner).store;
      var s := r[op.id];
      var acts := StepOf(r, use, owner).acted == Some(op.id);
      var allowed := use.actor.id in use.known && (s.browser || s.agentId.None? || s.agentId.value == use.actor.id);
      if op.Return? then acts <==> use.actor.Agent? && allowed
      else if use.actor.Agent? then acts <==> allowed && op.now + 1000 * op.seconds <= use.now
      else acts <==> use.actor.id == owner && use.later < op.now + 1000 * op.seconds
  {
    StepAgrees(m, op, owner);
    CommandActsExactly(StepOf(m, op, owner).store, use, owner);
  }

  /** What a navigation or desktop action that reaches the manager is for: a running browser, and for an agent
      one that is shared or its own and that no user controls. */
  predicate Reaches(e: Effect, actor: Actor) {
    e.acted.Some? ==>
      && e.acted.value in e.store
      && var s := e.store[e.acted.value];
         && e.answer == Ok(s) && s.browser && s.status == Running
         && (actor.Agent? ==> s.mode != UserMode && (s.agentId.None? || s.agentId.value == actor.id))
  }

  lemma ActReaches(w: Effect, actor: Actor, owner: Id)
    requires EffectAgrees(w, owner)
    ensures Reaches(ActOn(w, actor), actor)
  {
  }

  lemma UseReachesOnly(m: Store, op: Op, owner: Id)
    requires AllAgree(m, owner) && op.Use? && Feasible(m, op, owner)
    ensures Reaches(UseOf(m, op.wanted, op.action, op.actor, owner, op.plan, op.second, op.wake, op.now, op.later), op.actor)
  {
    var e := ResolveOf(m, op.wanted, op.actor, owner, op.plan, op.second, op.now, op.later);
    ResolveAgrees(m, op.wanted, op.actor, owner, op.plan, op.second, op.now, op.later);
    WokenAgrees(e, op.actor, op.wake, owner);
    ActReaches(Woken(e, op.actor, op.wake), op.actor, owner);
  }

  // ---------- exactly when a navigation or desktop action is carried out ----------

  /** What a listing says about a stored computer: one that is missing from it is stopped. */
  function Listed(m: Store, listed: map<Id, Sandbox>, id: Id): Sandbox
    requires id in m
  {
    if id in listed then listed[id] else Sandbox(Stopped, m[id].browser)
  }

  /** A stopped computer is what the manager answers on waking it, if it does. */
  function AfterWake(sandbox: Sandbox, wake: Option<Started>): Option<Sandbox> {
    if sandbox.status != Stopped then Some(sandbox)
    else if wake.Some? then Some(wake.value.sandbox) else None
  }

  predicate IsUp(sandbox: Option<Sandbox>) {
    sandbox.Some? && sandbox.value.status == Running && sandbox.value.browser
  }

  /** Exactly when an action on a record that was found reaches the manager, and which refusal it gets otherwise. */
  lemma ActsExactly(e: Effect, actor: Actor, wake: Option<Started>)
    requires e.answer.Ok?
    ensures
      var s, r := e.answer.value, ActOn(Woken(e, actor, wake), actor);
      var mine := actor.Agent? ==> s.agentId.None? || s.agentId.value == actor.id;
      && (r.acted == Some(s.id) <==>
            mine && (actor.Agent? ==> s.mode != UserMode) && IsUp(AfterWake(Sandbox(s.status, s.browser), wake)))
      && (r.acted.Some? ==> r.acted == Some(s.id) && r.answer.Ok?)
      && (r.acted.None? ==> r.answer == Err(
            if s.status == Stopped && mine && wake.None? then SandboxFailed
            else if s.status == Stopped && !mine then BrowserUnavailable
            else if !IsUp(AfterWake(Sandbox(s.status, s.browser), wake)) then BrowserUnavailable
            else if !mine then AgentMismatch else UserControls))
  {
  }

  /** The action may be tried at all: a known actor, and an address of the web if it is a navigation. */
  predicate MayTry(op: Op)
    requires op.Use?
  {
    op.action != Navigate(false) && (op.actor.Agent? ==> op.actor.id in op.plan.known)
  }

  /** The computer asked for, or the shared one that the listing found. */
  predicate IsTarget(m: Store, op: Op, id: Id)
    requires op.Use?
  {
    id in m && (op.wanted == Some(id) || (op.wanted.None? && op.plan.found == Some(id)))
  }

  /** A computer is shared after a listing exactly if it is reported as a browser, or stays one unlisted, and was
      a browser before or belonged to no agent. */
  lemma SharedExactly(m: Store, listed: map<Id, Sandbox>, now: int, id: Id)
    requires id in m
    ensures Shared(ListOf(m, listed, now)[id]) <==>
      Listed(m, listed, id).browser && (m[id].browser || m[id].agentId.None?)
  {
  }

  /** The search finds the newest of the computers that are shared after the listing. */
  lemma FoundIsNewest(m: Store, listed: map<Id, Sandbox>, now: int, id: Id)
    ensures FoundIn(ListOf(m, listed, now), Some(id)) <==>
      && id in m && Listed(m, listed, id).browser && (m[id].browser || m[id].agentId.None?)
      && forall x :: x in m && Listed(m, listed, x).browser && (m[x].browser || m[x].agentId.None?) ==>
           m[x].createdAt <= m[id].createdAt
  {
    forall x | x in m
      ensures Shared(ListOf(m, listed, now)[x]) <==> Listed(m, listed, x).browser && (m[x].browser || m[x].agentId.None?)
      ensures ListOf(m, listed, now)[x].createdAt == m[x].createdAt
    {
      SharedExactly(m, listed, now, x);
    }
  }

  lemma RefreshedParts(s: Session, reply: Option<Sandbox>, now: int, owner: Id)
    requires Agrees(s, owner)
    ensures
      var r := Refreshed(s, reply, now);
      && r.id == s.id
      && Sandbox(r.status, r.browser) == (if reply.Some? then reply.value else Sandbox(Stopped, s.browser))
      && r.agentId == (if s.browser then None else s.agentId)
      && (r.mode == UserMode <==> s.mode == UserMode && s.lease.value > now)
      && (r.mode == UserMode ==> r.lease == s.lease)
      && r.taskId == (if s.browser && s.agentId.Some? then None else s.taskId)
      && r.network == s.network && r.createdAt == s.createdAt
  {
  }

  lemma ListedParts(m: Store, listed: map<Id, Sandbox>, now: int, owner: Id, id: Id)
    requires AllAgree(m, owner) && id in m
    ensures
      var r := ListOf(m, listed, now)[id];
      && r.id == id && Sandbox(r.status, r.browser) == Listed(m, listed, id)
      && r.agentId == (if m[id].browser then None else m[id].agentId)
      && (r.mode == UserMode <==> m[id].mode == UserMode && m[id].lease.value > now)
      && (r.mode == UserMode ==> r.lease == m[id].lease)
  {
    RefreshedParts(m[id], if id in listed then Some(listed[id]) else None, now, owner);
  }

  /** On a computer that is found, the action reaches the manager exactly if it runs a browser, as listed or, if it
      is stopped, as it is woken; and for an agent, if it is shared or its own and no lease is still running. */
  lemma UseActsExactly(m: Store, op: Op, owner: Id, id: Id)
    requires AllAgree(m, owner) && op.Use? && Feasible(m, op, owner) && IsTarget(m, op, id)
    ensures
      var s, acted := m[id], StepOf(m, op, owner).acted;
      && (acted == Some(id) <==>
            && MayTry(op) && IsUp(AfterWake(Listed(m, op.plan.listed, id), op.wake))
            && (op.actor.Agent? ==>
                  && (s.browser || s.agentId.None? || s.agentId.value == op.actor.id)
                  && (s.mode == UserMode ==> s.lease.value <= op.now)))
      && (acted.Some? ==> acted == Some(id))
  {
    var m1 := ListOf(m, op.plan.listed, op.now);
    ListedParts(m, op.plan.listed, op.now, owner, id);
    ActsExactly(Effect(m1, Ok(m1[id]), None), op.actor, op.wake);
  }

  lemma NoTarget(m: Store, op: Op, owner: Id)
    requires op.Use? && Feasible(m, op, owner) && forall id :: !IsTarget(m, op, id)
    ensures op.wanted.Some? ==> op.wanted.value !in m
    ensures op.wanted.None? ==> op.plan.found.None?
  {
    assert op.wanted.Some? ==> !IsTarget(m, op, op.wanted.value);
    assert op.plan.found.Some? ==> op.plan.found.value in m && !IsTarget(m, op, op.plan.found.value);
  }

  /** No computer is found. A user is told so. */
  lemma UseFindsNothing(m: Store, op: Op, owner: Id)
    requires op.Use? && Feasible(m, op, owner) && !op.actor.Agent? && forall id :: !IsTarget(m, op, id)
    ensures StepOf(m, op, owner).acted.None?
    ensures MayTry(op) ==> StepOf(m, op, owner).answer == Some(Err(NoSuchRecord))
  {
    NoTarget(m, op, owner);
  }

  lemma ProvisionIs(m: Store, op: Op, owner: Id)
    requires op.Use? && Feasible(m, op, owner) && op.actor.Agent? && forall id :: !IsTarget(m, op, id)
    requires MayTry(op)
    ensures
      var m1 := ListOf(m, op.plan.listed, op.now);
      StepOf(m, op, owner) == Done(ActOn(Woken(CreateOf(m1, BROWSER, System(owner), op.second, op.later), op.actor, op.wake), op.actor))
  {
    NoTarget(m, op, owner);
  }

  lemma SharedAnswer(m: Store, p: Plan, owner: Id, now: int, id: Id)
    requires FoundIn(ListOf(m, p.listed, now), p.found) && p.found == Some(id)
    ensures
      var existing, e := ListOf(m, p.listed, now)[id], CreateOf(m, BROWSER, System(owner), p, now);
      var w := AfterWake(Sandbox(existing.status, existing.browser), p.started);
      && (e.answer.Ok? <==> w.Some?)
      && (w.Some? ==> e.answer.value == existing.(status := w.value.status, browser := w.value.browser))
      && (e.answer.Err? ==> e.acted.None?)
  {
  }

  /** An agent that finds none gets the shared computer that a second listing finds. It is woken for the agent if it
      is stopped, and once more if it then still is, and acted on unless a lease is still running. */
  lemma UseSharedExactly(m: Store, op: Op, owner: Id, id: Id)
    requires AllAgree(m, owner) && op.Use? && Feasible(m, op, owner) && op.actor.Agent?
    requires (forall x :: !IsTarget(m, op, x)) && op.second.found == Some(id)
    ensures
      var s, acted := m[id], StepOf(m, op, owner).acted;
      var first := AfterWake(Sandbox(if id in op.second.listed then op.second.listed[id].status else Stopped, true), op.second.started);
      && (acted == Some(id) <==>
            && MayTry(op) && first.Some? && IsUp(AfterWake(first.value, op.wake))
            && (s.mode == UserMode ==> s.lease.value <= op.later))
      && (acted.Some? ==> acted == Some(id))
  {
    if MayTry(op) {
      ProvisionIs(m, op, owner);
      SharedRecord(m, op, owner, id);
      var m1 := ListOf(m, op.plan.listed, op.now);
      SharedAnswer(m1, op.second, owner, op.later, id);
      var e := CreateOf(m1, BROWSER, System(owner), op.second, op.later);
      if e.answer.Ok? {
        ActsExactly(e, op.actor, op.wake);
      }
    }
  }

  /** The shared computer as the second listing leaves it. */
  lemma SharedRecord(m: Store, op: Op, owner: Id, id: Id)
    requires AllAgree(m, owner) && op.Use? && Feasible(m, op, owner) && op.second.found == Some(id)
    ensures
      var r := ListOf(ListOf(m, op.plan.listed, op.now), op.second.listed, op.later)[id];
      && r.id == id && r.agentId.None? && r.browser
      && r.status == (if id in op.second.listed then op.second.listed[id].status else Stopped)
      && (r.mode == UserMode <==> m[id].mode == UserMode && m[id].lease.value > op.later)
  {
    var m1 := ListOf(m, op.plan.listed, op.now);
    ListAgrees(m, op.plan.listed, op.now, owner);
    ListedParts(m, op.plan.listed, op.now, owner, id);
    ListedParts(m1, op.second.listed, op.later, owner, id);
  }

  /** If there is none either, it gets a new one, if the manager starts one under the new id. */
  lemma UseNewExactly(m: Store, op: Op, owner: Id)
    requires AllAgree(m, owner) && op.Use? && Feasible(m, op, owner) && op.actor.Agent?
    requires (forall x :: !IsTarget(m, op, x)) && op.second.found.None?
    ensures
      var id, started, acted := op.second.newId, op.second.started, StepOf(m, op, owner).acted;
      && (acted == Some(id) <==>
            MayTry(op) && started.Some? && started.value.id == id && IsUp(AfterWake(started.value.sandbox, op.wake)))
      && (acted.Some? ==> acted == Some(id))
  {
    if MayTry(op) {
      ProvisionIs(m, op, owner);
      var e := CreateOf(ListOf(m, op.plan.listed, op.now), BROWSER, System(owner), op.second, op.later);
      if e.answer.Ok? {
        ActsExactly(e, op.actor, op.wake);
      }
    }
  }

  /** After a takeover of a computer that runs a browser, the owner's navigations and desktop actions reach the
      manager at any time; an agent's do only once the lease has ended. */
  lemma OwnerUsesWhatItTook(m: Store, op: Op, use: Op, owner: Id)
    requires AllAgree(m, owner) && Feasible(m, op, owner) && op.Takeover? && Granted(StepOf(m, op, owner))
    requires use.Use? && Feasible(StepOf(m, op, owner).store, use, owner)
    requires use.wanted == Some(op.id) && use.action != Navigate(false)
    requires op.id in use.plan.listed && use.plan.listed[op.id] == Sandbox(Running, true)
    ensures
      var r := StepOf(m, op, owner).store;
      var s := r[op.id];
      StepOf(r, use, owner).acted == Some(op.id) <==>
        (use.actor.Agent? ==>
           && use.actor.id in use.plan.known && (s.browser || s.agentId.None? || s.agentId.value == use.actor.id)
           && op.now + 1000 * op.seconds <= use.now)
  {
    StepAgrees(m, op, owner);
    UseActsExactly(StepOf(m, op, owner).store, use, owner, op.id);
  }

  lemma ListKeys(m: Store, listed: map<Id, Sandbox>, now: int)
    ensures ListOf(m, listed, now).Keys == m.Keys
  {
  }

  lemma WakeKeys(m: Store, s: Session, started: Option<Started>)
    requires s.id in m
    ensures WakeOf(m, s, started).store.Keys == m.Keys
    ensures WakeOf(m, s, started).answer.Ok? ==> WakeOf(m, s, started).answer.value.id == s.id
  {
  }

  predicate AddsAtMost(before: set<Id>, e: Effect, newId: Id, reused: bool) {
    if e.answer.Err? then e.store.Keys == before
    else e.store.Keys == before + {e.answer.value.id} && (e.answer.value.id == newId <==> !reused)
  }

  lemma ReuseAddsNone(m: Store, s: Session, started: Option<Started>, newId: Id)
    requires s.id in m && newId !in m
    ensures AddsAtMost(m.Keys, if s.status == Stopped then WakeOf(m, s, started) else Effect(m, Ok(s), None), newId, true)
  {
    WakeKeys(m, s, started);
  }

  /** A creation adds the new record or none: a failure leaves none behind, and a browser is reused if there is
      one. */
  lemma CreationAddsAtMostOne(m: Store, input: Input, actor: Actor, p: Plan, now: int, owner: Id)
    requires AllAgree(m, owner) && p.newId !in m
    requires input.browser ==> FoundIn(ListOf(m, p.listed, now), p.found)
    ensures AddsAtMost(m.Keys, CreateOf(m, input, actor, p, now), p.newId, input.browser && p.found.Some?)
  {
    if input.browser {
      ListKeys(m, p.listed, now);
      if p.found.Some? {
        var m1 := ListOf(m, p.listed, now);
        RefreshAgrees(m[p.found.value], if p.found.value in p.listed then Some(p.listed[p.found.value]) else None, now, owner);
        ReuseAddsNone(m1, m1[p.found.value], p.started, p.newId);
      }
    }
  }

  /** An agent that creates a computer gets its own or the shared one. */
  lemma AgentGetsOwnOrShared(m: Store, input: Input, actor: Actor, p: Plan, now: int)
    requires input.browser ==> FoundIn(ListOf(m, p.listed, now), p.found)
    requires actor.Agent? && CreateOf(m, input, actor, p, now).answer.Ok?
    ensures CreateOf(m, input, actor, p, now).answer.value.agentId == if input.browser then None else Some(actor.id)
  {
  }

  // ---------- exactly when the other operations succeed ----------

  /** Fetching a computer refreshes its record alone; a listing refreshes every record. */
  lemma ReadsRefresh(m: Store, op: Op, owner: Id)
    requires (op.Get? || op.List?) && Feasible(m, op, owner)
    ensures
      var r := StepOf(m, op, owner).store;
      && r.Keys == m.Keys
      && forall id :: id in m ==>
           if op.Get? then r[id] == if id == op.id then Refreshed(m[id], op.reply, op.now) else m[id]
           else r[id] == Refreshed(m[id], if id in op.listed then Some(op.listed[id]) else None, op.now)
    ensures op.Get? ==> StepOf(m, op, owner).answer == Some(if op.id in m then Ok(StepOf(m, op, owner).store[op.id]) else Err(NoSuchRecord))
  {
  }

  /** The owner and every agent may ask for anything at any time: only a fresh id, an answer to the search and a lease
      within the limits are presupposed. */
  lemma AnyoneMayAsk(m: Store, op: Op, owner: Id)
    requires op.Get? || op.List? || op.Return? || op.Remove? || op.Takeover? || op.Exec?
    requires (op.Return? || op.Remove? || op.Takeover? || op.Exec?) && op.actor.User? ==> op.actor.id == owner
    requires op.Takeover? ==> 30 <= op.seconds <= 3600
    requires op.Exec? ==> op.now <= op.later
    ensures Feasible(m, op, owner)
  {
  }

  /** A command is refused for the first of these reasons that applies. */
  lemma CommandRefusedWith(m: Store, op: Op, owner: Id)
    requires AllAgree(m, owner) && op.Exec? && Feasible(m, op, owner) && StepOf(m, op, owner).acted.None?
    ensures
      StepOf(m, op, owner).answer == Some(Err(
        if (op.actor.Agent? && op.actor.id !in op.known) || op.id !in m then NoSuchRecord
        else if op.reply.None? || op.reply.value.status != Running then NotRunning
        else if !op.actor.Agent? then TakeoverRequired
        else if !m[op.id].browser && m[op.id].agentId.Some? && m[op.id].agentId.value != op.actor.id then AgentMismatch
        else UserControls))
  {
  }

  /** Control of a computer is taken exactly by a user, of one that exists and runs, and is given back exactly by a
      user of one that exists; the others are told why not. */
  lemma ControlGrantedExactly(m: Store, op: Op, owner: Id)
    requires (op.Takeover? || op.Return?) && Feasible(m, op, owner)
    ensures
      var up := op.reply.Some? && op.reply.value.status == Running;
      StepOf(m, op, owner).answer ==
        if !op.actor.User? then Some(Err(UserOnly))
        else if op.id !in m then Some(Err(NoSuchRecord))
        else if op.Takeover? && !up then Some(Err(NotRunning))
        else Some(Ok(StepOf(m, op, owner).store[op.id]))
    ensures forall other :: other != op.id ==>
      (other in StepOf(m, op, owner).store <==> other in m) && (other in m ==> StepOf(m, op, owner).store[other] == m[other])
  {
  }

  /** A creation is refused for the first of these reasons that applies. */
  lemma CreationRefusedWith(m: Store, input: Input, actor: Actor, p: Plan, now: int)
    requires input.browser ==> FoundIn(ListOf(m, p.listed, now), p.found)
    ensures
      var r := CreateOf(m, input, actor, p, now);
      var reused := input.browser && p.found.Some?;
      if (actor.Agent? && actor.id !in p.known) || (input.agentId.Some? && input.agentId.value !in p.known)
        || (input.taskId.Some? && input.taskId.value !in p.known) then r.answer == Err(NoSuchRecord) && r.store == m
      else if actor.Agent? && input.agentId != Some(actor.id) then r.answer == Err(AgentMismatch) && r.store == m
      else if actor.Agent? && input.network then r.answer == Err(NetworkForbidden) && r.store == m
      else if p.started.None? && !(reused && Listed(m, p.listed, p.found.value).status != Stopped) then r.answer == Err(SandboxFailed)
      else if !reused && p.started.value.id != p.newId then r.answer == Err(IdentityMismatch)
      else r.answer.Ok?
  {
  }

  /** The record of a new computer: a browser belongs to no agent, any other to the agent asked for, who controls it. */
  lemma NewRecordIs(m: Store, input: Input, actor: Actor, p: Plan, now: int)
    requires input.browser ==> FoundIn(ListOf(m, p.listed, now), p.found) && p.found.None?
    requires CreateOf(m, input, actor, p, now).answer.Ok? && p.newId !in m
    ensures
      var r := CreateOf(m, input, actor, p, now);
      var agentId := if input.browser then None else input.agentId;
      && r.answer.value == Session(p.newId, agentId, input.taskId, p.started.value.sandbox.status, p.started.value.sandbox.browser,
                                   input.network, if agentId.Some? then AgentMode else WatchMode, agentId, None, now)
      && p.newId in r.store && r.store[p.newId] == r.answer.value
      && (forall id :: id in m ==> id in r.store && r.store[id] == if input.browser then ListOf(m, p.listed, now)[id] else m[id])
  {
  }

  /** A computer is removed exactly by a user or by the agent that it is assigned to, if the manager removes it. */
  lemma RemovedExactly(m: Store, op: Op, owner: Id)
    requires op.Remove? && Feasible(m, op, owner) && op.id in m
    ensures
      var r := StepOf(m, op, owner);
      var known := op.actor.Agent? ==> op.actor.id in op.known;
      && (op.id !in r.store <==>
            (op.actor.Agent? ==> op.actor.id in op.known && !m[op.id].browser && m[op.id].agentId == Some(op.actor.id)) && op.removed)
      && (op.id !in r.store <==> Granted(r))
      && (op.id in r.store ==> r.store[op.id] == if known then Refreshed(m[op.id], op.reply, op.now) else m[op.id])
      && forall other :: other != op.id ==> (other in r.store <==> other in m) && (other in m ==> r.store[other] == m[other])
  {
  }

  // ---------- one shared browser ----------

  ghost predicate OneBrowser(m: Store) {
    forall a, b :: a in m && b in m && m[a].browser && m[b].browser ==> a == b
  }

  ghost predicate HonestList(m: Store, listed: map<Id, Sandbox>) {
    forall id :: id in m && id in listed && listed[id].browser ==> m[id].browser
  }

  predicate HonestReply(flag: bool, reply: Option<Sandbox>) { reply.Some? && reply.value.browser ==> flag }
  predicate HonestStart(flag: bool, started: Option<Started>) { started.Some? && started.value.sandbox.browser ==> flag }

  /** The manager reports no browser where it was given none; it may report that one is missing. */
  ghost predicate Honest(m: Store, op: Op, owner: Id)
    requires Feasible(m, op, owner)
  {
    match op
    case List(listed, _) => HonestList(m, listed)
    case Create(input, _, p, _) => HonestList(m, p.listed) && HonestStart(input.browser, p.started)
    case Use(wanted, _, actor, first, second, wake, now, later) =>
      var e := ResolveOf(m, wanted, actor, owner, first, second, now, later);
      && HonestList(m, first.listed) && HonestList(ListOf(m, first.listed, now), second.listed)
      && (e.answer.Ok? ==> HonestStart(e.answer.value.browser, wake))
    case _ => op.id in m ==> HonestReply(m[op.id].browser, op.reply)
  }

  lemma HonestListKeeps(m: Store, listed: map<Id, Sandbox>, now: int)
    requires HonestList(m, listed)
    ensures forall id :: id in m && ListOf(m, listed, now)[id].browser ==> m[id].browser
  {
  }

  /** Once refreshed by an honest manager, every browser is the shared one. */
  lemma HonestListShares(m: Store, listed: map<Id, Sandbox>, now: int)
    requires HonestList(m, listed)
    ensures forall id :: id in m && ListOf(m, listed, now)[id].browser ==> Shared(ListOf(m, listed, now)[id])
  {
  }

  lemma CreateKeepsOneBrowser(m: Store, input: Input, actor: Actor, p: Plan, now: int, owner: Id)
    requires AllAgree(m, owner) && OneBrowser(m) && HonestList(m, p.listed) && HonestStart(input.browser, p.started)
    requires input.browser ==> FoundIn(ListOf(m, p.listed, now), p.found)
    ensures OneBrowser(CreateOf(m, input, actor, p, now).store)
  {
    HonestListKeeps(m, p.listed, now);
    HonestListShares(m, p.listed, now);
    ListAgrees(m, p.listed, now, owner);
  }

  lemma ListKeepsOneBrowser(m: Store, listed: map<Id, Sandbox>, now: int)
    requires HonestList(m, listed) && OneBrowser(m)
    ensures OneBrowser(ListOf(m, listed, now))
  {
    HonestListKeeps(m, listed, now);
  }

  lemma WokenKeepsOneBrowser(e: Effect, actor: Actor, wake: Option<Started>, owner: Id)
    requires EffectAgrees(e, owner) && OneBrowser(e.store)
    requires e.answer.Ok? ==> HonestStart(e.answer.value.browser, wake)
    ensures OneBrowser(Woken(e, actor, wake).store)
  {
  }

  lemma ResolveKeepsOneBrowser(m: Store, id: Option<Id>, actor: Actor, owner: Id, first: Plan, second: Plan, now: int, later: int)
    requires AllAgree(m, owner) && OneBrowser(m) && second.newId !in m
    requires FoundIn(ListOf(m, first.listed, now), first.found)
    requires FoundIn(ListOf(ListOf(m, first.listed, now), second.listed, later), second.found)
    requires HonestList(m, first.listed) && HonestList(ListOf(m, first.listed, now), second.listed)
    ensures OneBrowser(ResolveOf(m, id, actor, owner, first, second, now, later).store)
  {
    ListKeepsOneBrowser(m, first.listed, now);
    ListAgrees(m, first.listed, now, owner);
    CreateKeepsOneBrowser(ListOf(m, first.listed, now), Input(None, None, true, true), System(owner), second, later, owner);
  }

  lemma UseKeepsOneBrowser(m: Store, op: Op, owner: Id)
    requires op.Use? && AllAgree(m, owner) && Feasible(m, op, owner) && OneBrowser(m) && Honest(m, op, owner)
    ensures OneBrowser(StepOf(m, op, owner).store)
  {
    var e := ResolveOf(m, op.wanted, op.actor, owner, op.plan, op.second, op.now, op.later);
    ResolveKeepsOneBrowser(m, op.wanted, op.actor, owner, op.plan, op.second, op.now, op.later);
    ResolveAgrees(m, op.wanted, op.actor, owner, op.plan, op.second, op.now, op.later);
    FoundKeepsOneBrowser(e, op.actor, op.wake, owner);
  }

  lemma FoundKeepsOneBrowser(e: Effect, actor: Actor, wake: Option<Started>, owner: Id)
    requires EffectAgrees(e, owner) && OneBrowser(e.store)
    requires e.answer.Ok? ==> HonestStart(e.answer.value.browser, wake)
    ensures OneBrowser(ActOn(Woken(e, actor, wake), actor).store)
  {
    WokenKeepsOneBrowser(e, actor, wake, owner);
    ActOnStores(Woken(e, actor, wake), actor);
  }

  lemma ActOnStores(w: Effect, actor: Actor)
    ensures ActOn(w, actor).store == w.store
  {
  }

  /** Rewriting one record without raising its flag. */
  lemma RewriteKeepsOneBrowser(m: Store, id: Id, s: Session)
    requires OneBrowser(m) && id in m && (s.browser ==> m[id].browser)
    ensures OneBrowser(m[id := s]) && OneBrowser(m - {id})
  {
  }

  lemma RecordKeepsOneBrowser(m: Store, op: Op, owner: Id)
    requires Feasible(m, op, owner) && OneBrowser(m) && Honest(m, op, owner)
    requires !op.List? && !op.Create? && !op.Use?
    ensures OneBrowser(StepOf(m, op, owner).store)
  {
    if op.id in m {
      var s := Refreshed(m[op.id], op.reply, op.now);
      RewriteKeepsOneBrowser(m, op.id, s);
      RewriteKeepsOneBrowser(m, op.id, Released(s));
      if op.Takeover? {
        RewriteKeepsOneBrowser(m, op.id, s.(mode := UserMode, holder := Some(op.actor.id), lease := Some(op.now + 1000 * op.seconds)));
      }
    }
  }

  lemma StepKeepsOneBrowser(m: Store, op: Op, owner: Id)
    requires AllAgree(m, owner) && Feasible(m, op, owner) && OneBrowser(m) && Honest(m, op, owner)
    ensures OneBrowser(StepOf(m, op, owner).store)
  {
    match op
    case List(listed, now) => ListKeepsOneBrowser(m, listed, now);
    case Create(input, actor, p, now) => CreateKeepsOneBrowser(m, input, actor, p, now, owner);
    case Use(_, _, _, _, _, _, _, _) => UseKeepsOneBrowser(m, op, owner);
    case _ => RecordKeepsOneBrowser(m, op, owner);
  }

  ghost predicate AlwaysHonest(m: Store, ops: seq<Op>, owner: Id, r: Store)
    requires Runs(m, ops, owner, r)
    decreases |ops|
  {
    ops == [] || (Honest(m, ops[0], owner) && AlwaysHonest(StepOf(m, ops[0], owner).store, ops[1..], owner, r))
  }

  /** With an honest manager there is never more than one browser, so never more than one shared computer. */
  lemma {:induction false} AtMostOneBrowser(m: Store, ops: seq<Op>, owner: Id, r: Store)
    requires AllAgree(m, owner) && OneBrowser(m) && Runs(m, ops, owner, r) && AlwaysHonest(m, ops, owner, r)
    ensures OneBrowser(r)
    decreases |ops|
  {
    if ops != [] {
      StepAgrees(m, ops[0], owner);
      StepKeepsOneBrowser(m, ops[0], owner);
      AtMostOneBrowser(StepOf(m, ops[0], owner).store, ops[1..], owner, r);
    }
  }

  const PLAIN := Input(None, None, false, false)
  const BROWSER := Input(None, None, true, true)

  function Another(id: Id): Id { Id(id.number + 1) }

  /** Exactly which answer about a record is safe, whatever else is stored: one that does not make it a browser. */
  lemma ReplySafeExactly(s: Session, reply: Option<Sandbox>, now: int, owner: Id)
    requires Agrees(s, owner)
    ensures
      (forall m :: AllAgree(m, owner) && OneBrowser(m) && s.id in m && m[s.id] == s ==>
         OneBrowser(m[s.id := Refreshed(s, reply, now)])) <==>
      HonestReply(s.browser, reply)
  {
    if HonestReply(s.browser, reply) {
      forall m | AllAgree(m, owner) && OneBrowser(m) && s.id in m && m[s.id] == s
        ensures OneBrowser(m[s.id := Refreshed(s, reply, now)])
      {
        RewriteKeepsOneBrowser(m, s.id, Refreshed(s, reply, now));
      }
    } else {
      var other := Another(s.id);
      var m: Store := map[s.id := s, other := Initial(BROWSER, other, now)];
      var r := m[s.id := Refreshed(s, reply, now)];
      assert AllAgree(m, owner) && OneBrowser(m);
      assert r[s.id].browser && r[other].browser;
      assert !OneBrowser(r);
    }
  }

  /** A plain computer is started: the guards of a creation, and the manager's answer for the new id. */
  predicate Starts(input: Input, actor: Actor, p: Plan) {
    && Known(p.known, input.agentId) && Known(p.known, input.taskId)
    && (actor.Agent? ==> actor.id in p.known && input.agentId == Some(actor.id) && !input.network)
    && p.started.Some? && p.started.value.id == p.newId
  }

  /** Exactly which start of a computer that was to be plain is safe, whatever else is stored. */
  lemma StartSafeExactly(input: Input, actor: Actor, p: Plan, now: int, owner: Id)
    requires !input.browser
    ensures
      (forall m :: AllAgree(m, owner) && OneBrowser(m) && p.newId !in m ==> OneBrowser(CreateOf(m, input, actor, p, now).store)) <==>
      !(Starts(input, actor, p) && p.started.value.sandbox.browser)
  {
    if Starts(input, actor, p) && p.started.value.sandbox.browser {
      var other := Another(p.newId);
      var m: Store := map[other := Initial(BROWSER, other, now)];
      var r := CreateOf(m, input, actor, p, now).store;
      assert AllAgree(m, owner) && OneBrowser(m) && p.newId !in m;
      assert r[p.newId].browser && r[other].browser;
      assert !OneBrowser(r);
    } else {
      forall m | AllAgree(m, owner) && OneBrowser(m) && p.newId !in m
        ensures OneBrowser(CreateOf(m, input, actor, p, now).store)
      {
      }
    }
  }

  function PlainPlan(id: Id): Plan { Plan({}, map[], None, id, Some(Started(id, Sandbox(Running, false)))) }

  function TwoFlagged(a: Id, b: Id, owner: Id, now: int): seq<Op> {
    [Create(PLAIN, User(owner), PlainPlan(a), now), Create(PLAIN, User(owner), PlainPlan(b), now),
     List(map[a := Sandbox(Running, true), b := Sandbox(Running, true)], now)]
  }

  /** A run from the empty table: a manager that flags two plain computers as browsers makes both shared. */
  lemma DishonestManagerSharesTwo(a: Id, b: Id, owner: Id, now: int) returns (r: Store)
    requires a != b
    ensures Runs(map[], TwoFlagged(a, b, owner, now), owner, r)
    ensures a in r && b in r && Shared(r[a]) && Shared(r[b]) && !OneBrowser(r)
  {
    var ops := TwoFlagged(a, b, owner, now);
    var m0: Store := map[];
    var m1 := StepOf(m0, ops[0], owner).store;
    var m2 := StepOf(m1, ops[1], owner).store;
    r := StepOf(m2, ops[2], owner).store;
    RunsOne(m2, ops[2..], owner, r);
    RunsOne(m1, ops[1..], owner, r);
    RunsOne(m0, ops, owner, r);
    assert r[a].browser && r[b].browser;
  }

  lemma RunsOne(m: Store, ops: seq<Op>, owner: Id, r: Store)
    requires ops != [] && Feasible(m, ops[0], owner)
    ensures Runs(m, ops, owner, r) == Runs(StepOf(m, ops[0], owner).store, ops[1..], owner, r)
  {
  }

  // ---------- the service ----------

  /** The table while it is being listed: the records `left` are still as they were. */
  ghost function Partly(m: Store, listed: map<Id, Sandbox>, now: int, left: set<Id>): Store {
    map id | id in m :: if id in left then m[id] else Refreshed(m[id], if id in listed then Some(listed[id]) else None, now)
  }

  lemma Overwritten<K, V>(m: map<K, V>, k: K, x: V, y: V)
    ensures m[k := x][k := y] == m[k := y]
  {
  }

  lemma OneMoreListed(m: Store, listed: map<Id, Sandbox>, now: int, left: set<Id>, id: Id)
    requires id in left && id in m
    ensures Partly(m, listed, now, left - {id}) ==
            Partly(m, listed, now, left)[id := Refreshed(m[id], if id in listed then Some(listed[id]) else None, now)]
  {
  }

  /** The service over its table of records. */
  class ComputerService {
    const owner: Id
    var stored: Store

    constructor (owner: Id)
      ensures this.owner == owner && stored == map[]
    {
      this.owner := owner;
      stored := map[];
    }

    method ListAll(listed: map<Id, Sandbox>, now: int)
      modifies this
      ensures stored == ListOf(old(stored), listed, now)
    {
      ghost var m := stored;
      var left := stored.Keys;
      while left != {}
        invariant left <= m.Keys && stored == Partly(m, listed, now, left)
        decreases |left|
      {
        var id :| id in left;
        var normalized := NormalizeShared(stored[id]);
        var refreshed := if id in listed then WithSandbox(normalized, listed[id]) else normalized.(status := Stopped);
        OneMoreListed(m, listed, now, left, id);
        Overwritten(stored, id, refreshed, NormalizeLease(refreshed, now));
        stored := stored[id := refreshed];
        stored := stored[id := NormalizeLease(refreshed, now)];
        left := left - {id};
      }
    }

    method Fetch(id: Id, reply: Option<Sandbox>, now: int) returns (r: Result<Session, Error>)
      modifies this
      ensures Effect(stored, r, None) == GetOf(old(stored), id, reply, now)
    {
      if id !in stored {
        return Err(NoSuchRecord);
      }
      var normalized := NormalizeShared(stored[id]);
      var refreshed := if reply.Some? then WithSandbox(normalized, reply.value) else normalized.(status := Stopped);
      stored := stored[id := refreshed];
      var released := NormalizeLease(refreshed, now);
      stored := stored[id := released];
      r := Ok(released);
    }

    method Wake(s: Session, started: Option<Started>) returns (r: Result<Session, Error>)
      modifies this
      ensures Effect(stored, r, None) == WakeOf(old(stored), s, started)
    {
      if s.status == Running {
        return Ok(s);
      }
      if started.None? {
        return Err(SandboxFailed);
      }
      var awakened := WithSandbox(s, started.value.sandbox);
      stored := stored[s.id := awakened];
      r := Ok(awakened);
    }

    /** `create`: a sandbox that fails to start, or starts as another one, leaves no record behind. */
    method CreateSession(input: Input, actor: Actor, p: Plan, now: int) returns (r: Result<Session, Error>)
      requires p.newId !in stored
      requires input.browser ==> FoundIn(ListOf(stored, p.listed, now), p.found)
      modifies this
      ensures Effect(stored, r, None) == CreateOf(old(stored), input, actor, p, now)
    {
      if (actor.Agent? && actor.id !in p.known) || !Known(p.known, input.agentId) || !Known(p.known, input.taskId) {
        return Err(NoSuchRecord);
      }
      if actor.Agent? && input.agentId != Some(actor.id) {
        return Err(AgentMismatch);
      }
      if actor.Agent? && input.network {
        return Err(NetworkForbidden);
      }
      if input.browser {
        ListAll(p.listed, now);
        if p.found.Some? {
          var existing := stored[p.found.value];
          if existing.status == Stopped {
            r := Wake(existing, p.started);
            return;
          }
          return Ok(existing);
        }
      }
      ghost var before := stored;
      stored := stored[p.newId := Initial(input, p.newId, now)];
      if p.started.None? || p.started.value.id != p.newId {
        stored := stored - {p.newId};
        assert stored == before;
        return Err(if p.started.None? then SandboxFailed else IdentityMismatch);
      }
      var session := WithSandbox(Initial(input, p.newId, now), p.started.value.sandbox);
      stored := stored[p.newId := session];
      r := Ok(session);
    }

    method TakeControl(id: Id, seconds: int, actor: Actor, reply: Option<Sandbox>, now: int) returns (r: Result<Session, Error>)
      modifies this
      ensures Effect(stored, r, None) == TakeoverOf(old(stored), id, seconds, actor, reply, now)
    {
      if !actor.User? {
        return Err(UserOnly);
      }
      r := Fetch(id, reply, now);
      if r.Ok? {
        if r.value.status != Running {
          return Err(NotRunning);
        }
        var session := r.value.(mode := UserMode, holder := Some(actor.id), lease := Some(now + 1000 * seconds));
        stored := stored[id := session];
        r := Ok(session);
      }
    }

    method ReturnControl(id: Id, actor: Actor, reply: Option<Sandbox>, now: int) returns (r: Result<Session, Error>)
      modifies this
      ensures Effect(stored, r, None) == ReturnOf(old(stored), id, actor, reply, now)
    {
      if !actor.User? {
        return Err(UserOnly);
      }
      r := Fetch(id, reply, now);
      if r.Ok? {
        stored := stored[id := Released(r.value)];
        r := Ok(Released(r.value));
      }
    }

    /** `navigateBrowser` and `desktopAction` up to the manager call. */
    method UseBrowser(id: Option<Id>, action: Action, actor: Actor, first: Plan, second: Plan, wake: Option<Started>, now: int, later: int)
      returns (r: Result<Session, Error>, acted: Option<Id>)
      requires second.newId !in stored
      requires FoundIn(ListOf(stored, first.listed, now), first.found)
      requires FoundIn(ListOf(ListOf(stored, first.listed, now), second.listed, later), second.found)
      modifies this
      ensures Effect(stored, r, acted) == UseOf(old(stored), id, action, actor, owner, first, second, wake, now, later)
    {
      if actor.Agent? && actor.id !in first.known {
        return Err(NoSuchRecord), None;
      }
      if action == Navigate(false) {
        return Err(InvalidAddress), None;
      }
      r := ResolveBrowser(id, actor, first, second, wake, now, later);
      if r.Err? {
        return r, None;
      }
      var s := r.value;
      if !s.browser || s.status != Running {
        return Err(BrowserUnavailable), None;
      }
      if actor.Agent? && s.agentId.Some? && s.agentId.value != actor.id {
        return Err(AgentMismatch), None;
      }
      if actor.Agent? && s.mode == UserMode {
        return Err(UserControls), None;
      }
      acted := Some(s.id);
    }

    /** `resolveBrowserComputer`. */
    method ResolveBrowser(id: Option<Id>, actor: Actor, first: Plan, second: Plan, wake: Option<Started>, now: int, later: int)
      returns (r: Result<Session, Error>)
      requires second.newId !in stored
      requires FoundIn(ListOf(stored, first.listed, now), first.found)
      requires FoundIn(ListOf(ListOf(stored, first.listed, now), second.listed, later), second.found)
      modifies this
      ensures Effect(stored, r, None) == Woken(ResolveOf(old(stored), id, actor, owner, first, second, now, later), actor, wake)
    {
      r := Resolve(id, actor, first, second, now, later);
      if r.Ok? {
        var mayWake := !actor.Agent? || r.value.agentId.None? || r.value.agentId.value == actor.id;
        if r.value.status == Stopped && mayWake {
          r := Wake(r.value, wake);
        }
      }
    }

    method Resolve(id: Option<Id>, actor: Actor, first: Plan, second: Plan, now: int, later: int) returns (r: Result<Session, Error>)
      requires second.newId !in stored
      requires FoundIn(ListOf(stored, first.listed, now), first.found)
      requires FoundIn(ListOf(ListOf(stored, first.listed, now), second.listed, later), second.found)
      modifies this
      ensures Effect(stored, r, None) == ResolveOf(old(stored), id, actor, owner, first, second, now, later)
    {
      ListAll(first.listed, now);
      if id.Some? && id.value in stored {
        r := Ok(stored[id.value]);
      } else if id.None? && first.found.Some? {
        r := Ok(stored[first.found.value]);
      } else if actor.Agent? {
        r := CreateSession(Input(None, None, true, true), System(owner), second, later);
      } else {
        r := Err(NoSuchRecord);
      }
    }

    method RunCommand(id: Id, actor: Actor, known: set<Id>, reply: Option<Sandbox>, now: int, later: int)
      returns (r: Result<Session, Error>, acted: Option<Id>)
      modifies this
      ensures Effect(stored, r, acted) == ExecOf(old(stored), id, actor, known, reply, now, later)
    {
      acted := None;
      if actor.Agent? && actor.id !in known {
        return Err(NoSuchRecord), None;
      }
      r := Fetch(id, reply, now);
      if r.Err? {
        return r, None;
      }
      var s := r.value;
      if s.status != Running {
        return Err(NotRunning), None;
      }
      if actor.Agent? {
        if s.agentId.Some? && s.agentId.value != actor.id {
          return Err(AgentMismatch), None;
        }
        if s.mode == UserMode {
          return Err(UserControls), None;
        }
      } else if s.mode != UserMode || s.holder != Some(actor.id) || s.lease.None? || s.lease.value <= later {
        return Err(TakeoverRequired), None;
      }
      acted := Some(id);
    }

    method Delete(id: Id, actor: Actor, known: set<Id>, reply: Option<Sandbox>, now: int, removed: bool) returns (r: Result<Session, Error>)
      modifies this
      ensures Effect(stored, r, None) == RemoveOf(old(stored), id, actor, known, reply, now, removed)
    {
      if actor.Agent? && actor.id !in known {
        return Err(NoSuchRecord);
      }
      r := Fetch(id, reply, now);
      if r.Ok? {
        if actor.Agent? && r.value.agentId != Some(actor.id) {
          return Err(AgentMismatch);
        }
        if !removed {
          return Err(SandboxFailed);
        }
        ghost var before := old(stored);
        stored := stored - {id};
        assert stored == before - {id};
      }
    }
  }
}
