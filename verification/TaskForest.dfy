/**
 The task hierarchy on the server (services/api/src/domain/relay-service.ts: `validateParent`,
 `createTask`, `updateTask`, `delegateTask`, `requestAgentHelp`, `createDelegatedChild`).

 Each service operation is one atomic step over the table of tasks.
 */
module TaskForest {
  import opened Wrappers

  /** The schema's limits: `maxChildTasks` and `depth`. */
  const MAX_CHILDREN: nat := 8
  const MAX_DEPTH: nat := 6

  datatype Error = NotFound | Cycle | ExistingCycle | Fanout | DepthLimit | InvalidBudget | Terminal

  datatype Task = Task(parent: Option<Id>, depth: nat, maxChildren: nat, terminal: bool)

  type Tasks = map<Id, Task>

  function Children(tasks: Tasks, id: Id): set<Id> {
    set t | t in tasks && tasks[t].parent == Some(id)
  }

  // ---------- the ancestor walk ----------

  datatype Walk = Clear | Hits | Loops | Dangles

  /** The walk from `cursor` towards the root, looking for `target`, for any table whatever. */
  function WalkUp(tasks: Tasks, target: Option<Id>, cursor: Id, visited: set<Id>): Walk
    decreases |tasks.Keys - visited|
  {
    if cursor !in tasks then Dangles
    else if Some(cursor) == target then Hits
    else if cursor in visited then Loops
    else
      match tasks[cursor].parent
      case None => Clear
      case Some(p) =>
        assert tasks.Keys - (visited + {cursor}) < tasks.Keys - visited by {
          assert cursor in tasks.Keys - visited;
        }
        SmallerSet(tasks.Keys - (visited + {cursor}), tasks.Keys - visited);
        WalkUp(tasks, target, p, visited + {cursor})
  }

  lemma SmallerSet<T>(a: set<T>, b: set<T>)
    requires a < b
    ensures |a| < |b|
  {
    var x :| x in b && x !in a;
    assert a <= b - {x};
    SubsetSize(a, b - {x});
  }

  /** What `validateParent` decides: the new depth, or the error it throws. */
  function Validated(tasks: Tasks, taskId: Option<Id>, parentId: Option<Id>, maxDepth: nat): Result<nat, Error> {
    if parentId.None? then Ok(0)
    else if parentId == taskId then Err(Cycle)
    else if parentId.value !in tasks then Err(NotFound)
    else
      var parent := tasks[parentId.value];
      var siblings := set t | t in Children(tasks, parentId.value) && Some(t) != taskId;
      if |siblings| >= parent.maxChildren then Err(Fanout)
      else
        match WalkUp(tasks, taskId, parentId.value, {})
        case Dangles => Err(NotFound)
        case Hits => Err(Cycle)
        case Loops => Err(ExistingCycle)
        case Clear => if parent.depth + 1 > maxDepth then Err(DepthLimit) else Ok(parent.depth + 1)
  }

  // ---------- the operations ----------

  function Create(tasks: Tasks, id: Id, parent: Option<Id>, budget: nat, maxDepth: nat): Result<Tasks, Error> {
    if budget > MAX_CHILDREN then Err(InvalidBudget)
    else
      match Validated(tasks, None, parent, maxDepth)
      case Err(e) => Err(e)
      case Ok(depth) =>
        if depth > MAX_DEPTH then Err(DepthLimit)
        else Ok(tasks[id := Task(parent, depth, budget, false)])
  }

  /** A patch; an absent parent leaves the task where it is. */
  datatype Patch = Patch(parent: Option<Option<Id>>, budget: Option<nat>, terminal: Option<bool>)

  function Update(tasks: Tasks, id: Id, patch: Patch, maxDepth: nat): Result<Tasks, Error> {
    if id !in tasks then Err(NotFound)
    else
      var current := tasks[id];
      var parent := if patch.parent.None? then current.parent else patch.parent.value;
      var depth := if parent == current.parent then Ok(current.depth) else Validated(tasks, Some(id), parent, maxDepth);
      match depth
      case Err(e) => Err(e)
      case Ok(d) =>
        var budget := if patch.budget.None? then current.maxChildren else patch.budget.value;
        if budget > MAX_CHILDREN then Err(InvalidBudget)
        else if d > MAX_DEPTH then Err(DepthLimit)
        else Ok(tasks[id := Task(parent, d, budget, if patch.terminal.None? then current.terminal else patch.terminal.value)])
  }

  /** Delegation re-checks the parent but leaves the task's place and depth alone. */
  function Delegate(tasks: Tasks, id: Id, maxDepth: nat): Result<Tasks, Error> {
    if id !in tasks then Err(NotFound)
    else if tasks[id].terminal then Err(Terminal)
    else
      match Validated(tasks, Some(id), tasks[id].parent, maxDepth)
      case Err(e) => Err(e)
      case Ok(_) => Ok(tasks[id := tasks[id]])
  }

  /** A help request creates a child whose budget is one less than its parent's. */
  function Help(tasks: Tasks, id: Id, parent: Id, maxDepth: nat): Result<Tasks, Error> {
    if parent !in tasks then Err(NotFound)
    else Create(tasks, id, Some(parent), if tasks[parent].maxChildren == 0 then 0 else tasks[parent].maxChildren - 1, maxDepth)
  }

  /** The service's table and the methods that read and write it. */
  class TaskService {
    var tasks: Tasks
    const maxDepth: nat

    constructor (maxDepth: nat)
      ensures tasks == map[] && this.maxDepth == maxDepth
    {
      tasks := map[];
      this.maxDepth := maxDepth;
    }

    method ValidateParent(taskId: Option<Id>, parentId: Option<Id>) returns (r: Result<nat, Error>)
      ensures r == Validated(tasks, taskId, parentId, maxDepth)
    {
      if parentId.None? {
        return Ok(0);
      }
      if parentId == taskId {
        return Err(Cycle);
      }
      if parentId.value !in tasks {
        return Err(NotFound);
      }
      var parent := tasks[parentId.value];
      var siblings := set t | t in Children(tasks, parentId.value) && Some(t) != taskId;
      if |siblings| >= parent.maxChildren {
        return Err(Fanout);
      }
      var visited: set<Id> := {};
      var cursor := parentId;
      while cursor.Some?
        invariant cursor.Some? ==> cursor.value in tasks
        invariant visited <= tasks.Keys
        invariant WalkUp(tasks, taskId, parentId.value, {}) ==
          if cursor.Some? then WalkUp(tasks, taskId, cursor.value, visited) else Clear
        decreases tasks.Keys - visited, cursor.Some?
      {
        var id := cursor.value;
        if cursor == taskId {
          return Err(Cycle);
        }
        if id in visited {
          return Err(ExistingCycle);
        }
        visited := visited + {id};
        var next := tasks[id].parent;
        if next.Some? && next.value !in tasks {
          return Err(NotFound);
        }
        cursor := next;
      }
      var depth := parent.depth + 1;
      r := if depth > maxDepth then Err(DepthLimit) else Ok(depth);
    }

    method CreateTask(id: Id, parent: Option<Id>, budget: nat) returns (error: Option<Error>)
      requires id !in tasks
      modifies this`tasks
      ensures match Create(old(tasks), id, parent, budget, maxDepth)
        case Ok(after) => error == None && tasks == after
        case Err(e) => error == Some(e) && tasks == old(tasks)
    {
      if budget > MAX_CHILDREN {
        return Some(InvalidBudget);
      }
      var depth := ValidateParent(None, parent);
      if depth.Err? {
        return Some(depth.error);
      }
      if depth.value > MAX_DEPTH {
        return Some(DepthLimit);
      }
      tasks := tasks[id := Task(parent, depth.value, budget, false)];
      error := None;
    }

    method UpdateTask(id: Id, patch: Patch) returns (error: Option<Error>)
      modifies this`tasks
      ensures match Update(old(tasks), id, patch, maxDepth)
        case Ok(after) => error == None && tasks == after
        case Err(e) => error == Some(e) && tasks == old(tasks)
    {
      if id !in tasks {
        return Some(NotFound);
      }
      var current := tasks[id];
      var parent := if patch.parent.None? then current.parent else patch.parent.value;
      var depth := Ok(current.depth);
      if parent != current.parent {
        depth := ValidateParent(Some(id), parent);
        if depth.Err? {
          return Some(depth.error);
        }
      }
      var budget := if patch.budget.None? then current.maxChildren else patch.budget.value;
      if budget > MAX_CHILDREN {
        return Some(InvalidBudget);
      }
      if depth.value > MAX_DEPTH {
        return Some(DepthLimit);
      }
      var terminal := if patch.terminal.None? then current.terminal else patch.terminal.value;
      tasks := tasks[id := Task(parent, depth.value, budget, terminal)];
      error := None;
    }

    method DelegateTask(id: Id) returns (error: Option<Error>)
      modifies this`tasks
      ensures match Delegate(old(tasks), id, maxDepth)
        case Ok(after) => error == None && tasks == after
        case Err(e) => error == Some(e) && tasks == old(tasks)
    {
      if id !in tasks {
        return Some(NotFound);
      }
      if tasks[id].terminal {
        return Some(Terminal);
      }
      var checked := ValidateParent(Some(id), tasks[id].parent);
      if checked.Err? {
        return Some(checked.error);
      }
      tasks := tasks[id := tasks[id]];
      error := None;
    }

    method RequestAgentHelp(id: Id, parent: Id) returns (error: Option<Error>)
      requires id !in tasks
      modifies this`tasks
      ensures match Help(old(tasks), id, parent, maxDepth)
        case Ok(after) => error == None && tasks == after
        case Err(e) => error == Some(e) && tasks == old(tasks)
    {
      if parent !in tasks {
        return Some(NotFound);
      }
      var budget := if tasks[parent].maxChildren == 0 then 0 else tasks[parent].maxChildren - 1;
      error := CreateTask(id, Some(parent), budget);
    }
  }

  // ---------- forests ----------

  /** The task has exactly `n` ancestors, all of them present, the last a root. */
  predicate HasAncestors(tasks: Tasks, id: Id, n: nat)
    decreases n
  {
    id in tasks &&
    match tasks[id].parent
    case None => n == 0
    case Some(p) => n > 0 && HasAncestors(tasks, p, n - 1)
  }

  /** Parents exist and nothing is its own ancestor: from every task, parent links lead to a root. */
  ghost predicate Forest(tasks: Tasks) {
    forall id :: id in tasks ==> exists n: nat :: HasAncestors(tasks, id, n)
  }

  /** `target` is reached from `id` by `k` parent links. */
  predicate Reaches(tasks: Tasks, id: Id, target: Id, k: nat)
    decreases k
  {
    id in tasks && if k == 0 then id == target else tasks[id].parent.Some? && Reaches(tasks, tasks[id].parent.value, target, k - 1)
  }

  lemma {:induction false} AncestorsUnique(tasks: Tasks, id: Id, m: nat, n: nat)
    requires HasAncestors(tasks, id, m) && HasAncestors(tasks, id, n)
    ensures m == n
    decreases m
  {
    if tasks[id].parent.Some? {
      AncestorsUnique(tasks, tasks[id].parent.value, m - 1, n - 1);
    }
  }

  lemma {:induction false} ReachedAncestors(tasks: Tasks, id: Id, target: Id, n: nat, k: nat)
    requires HasAncestors(tasks, id, n) && Reaches(tasks, id, target, k)
    ensures k <= n && HasAncestors(tasks, target, n - k)
    decreases k
  {
    if k > 0 {
      ReachedAncestors(tasks, tasks[id].parent.value, target, n - 1, k - 1);
    }
  }

  lemma {:induction false} ReachesTransitive(tasks: Tasks, id: Id, middle: Id, target: Id, j: nat, k: nat)
    requires Reaches(tasks, id, middle, j) && Reaches(tasks, middle, target, k)
    ensures Reaches(tasks, id, target, j + k)
    decreases j
  {
    if j > 0 {
      ReachesTransitive(tasks, tasks[id].parent.value, middle, target, j - 1, k);
    }
  }

  /** `target` is the task itself or one of its ancestors. */
  ghost predicate AtOrAbove(tasks: Tasks, id: Id, target: Id) {
    exists k: nat :: Reaches(tasks, id, target, k)
  }

  lemma AboveStep(tasks: Tasks, id: Id, target: Id)
    requires id in tasks
    ensures AtOrAbove(tasks, id, target) <==>
      id == target || (tasks[id].parent.Some? && AtOrAbove(tasks, tasks[id].parent.value, target))
  {
    if id == target {
      assert Reaches(tasks, id, target, 0);
    }
    if tasks[id].parent.Some? {
      var p := tasks[id].parent.value;
      if AtOrAbove(tasks, p, target) {
        var k: nat :| Reaches(tasks, p, target, k);
        assert Reaches(tasks, id, target, k + 1);
      }
    }
    if AtOrAbove(tasks, id, target) && id != target {
      var k: nat :| Reaches(tasks, id, target, k);
      assert Reaches(tasks, tasks[id].parent.value, target, k - 1);
    }
  }

  /** Every visited task has more ancestors than the cursor: the walk has come up from it. */
  ghost predicate VisitedBelow(tasks: Tasks, visited: set<Id>, n: nat) {
    forall v :: v in visited ==> exists m: nat :: m > n && HasAncestors(tasks, v, m)
  }

  lemma NotVisited(tasks: Tasks, id: Id, visited: set<Id>, n: nat)
    requires HasAncestors(tasks, id, n) && VisitedBelow(tasks, visited, n)
    ensures id !in visited
  {
    if id in visited {
      var m: nat :| m > n && HasAncestors(tasks, id, m);
      AncestorsUnique(tasks, id, m, n);
    }
  }

  /** On a forest the walk ends at a root or at the target; it neither loops nor dangles. */
  lemma {:induction false} WalkOnForest(tasks: Tasks, target: Option<Id>, cursor: Id, visited: set<Id>, n: nat)
    requires HasAncestors(tasks, cursor, n) && VisitedBelow(tasks, visited, n)
    ensures WalkUp(tasks, target, cursor, visited) in {Clear, Hits}
    ensures WalkUp(tasks, target, cursor, visited) == Hits <==> target.Some? && AtOrAbove(tasks, cursor, target.value)
    decreases n
  {
    NotVisited(tasks, cursor, visited, n);
    if target.Some? {
      AboveStep(tasks, cursor, target.value);
    }
    if Some(cursor) != target && tasks[cursor].parent.Some? {
      WalkOnForest(tasks, target, tasks[cursor].parent.value, visited + {cursor}, n - 1);
    }
  }

  /** On a forest the "existing cycle" branch is unreachable, and the rest of the answer is exact. */
  lemma ValidatedOnForest(tasks: Tasks, taskId: Option<Id>, parent: Id, maxDepth: nat)
    requires Forest(tasks)
    ensures Validated(tasks, taskId, Some(parent), maxDepth) != Err(ExistingCycle)
    ensures Validated(tasks, taskId, Some(parent), maxDepth).Ok? <==>
      && parent in tasks
      && |set t | t in Children(tasks, parent) && Some(t) != taskId| < tasks[parent].maxChildren
      && !(taskId.Some? && AtOrAbove(tasks, parent, taskId.value))
      && tasks[parent].depth + 1 <= maxDepth
    ensures Validated(tasks, taskId, Some(parent), maxDepth).Ok? ==>
      Validated(tasks, taskId, Some(parent), maxDepth).value == tasks[parent].depth + 1
  {
    if parent in tasks {
      var n: nat :| HasAncestors(tasks, parent, n);
      WalkOnForest(tasks, taskId, parent, {}, n);
      if taskId == Some(parent) {
        assert Reaches(tasks, parent, parent, 0);
      }
    }
  }

  // ---------- the walk on any table ----------

  /** The `k`-th task that the walk comes to, None past a root. */
  function Node(tasks: Tasks, start: Id, k: nat): Option<Id> {
    if k == 0 then Some(start)
    else
      match Node(tasks, start, k - 1)
      case None => None
      case Some(id) => if id in tasks then tasks[id].parent else None
  }

  /** The walk goes past the task: it exists, is not the target and has not been met before. */
  ghost predicate Passes(tasks: Tasks, target: Option<Id>, start: Id, i: nat) {
    var n := Node(tasks, start, i);
    n.Some? && n.value in tasks && n != target && forall j: nat :: j < i ==> Node(tasks, start, j) != n
  }

  ghost predicate StopsAt(tasks: Tasks, target: Option<Id>, start: Id, m: nat, r: Walk) {
    var n := Node(tasks, start, m);
    && (forall i: nat :: i < m ==> Passes(tasks, target, start, i))
    && match r
       case Clear => n.None?
       case Dangles => n.Some? && n.value !in tasks
       case Hits => n.Some? && n.value in tasks && n == target
       case Loops => n.Some? && n.value in tasks && n != target && exists j: nat :: j < m && Node(tasks, start, j) == n
  }

  ghost predicate Met(tasks: Tasks, start: Id, k: nat, v: Id) {
    exists j: nat :: j < k && Node(tasks, start, j) == Some(v)
  }

  lemma MetNext(tasks: Tasks, start: Id, k: nat, v: Id)
    ensures Met(tasks, start, k + 1, v) <==> Met(tasks, start, k, v) || Node(tasks, start, k) == Some(v)
  {
    if Met(tasks, start, k, v) {
      var j: nat :| j < k && Node(tasks, start, j) == Some(v);
      assert j < k + 1 && Node(tasks, start, j) == Some(v);
    }
  }

  lemma PassesOn(tasks: Tasks, target: Option<Id>, start: Id, k: nat, cursor: Id)
    requires Node(tasks, start, k) == Some(cursor) && cursor in tasks && Some(cursor) != target && !Met(tasks, start, k, cursor)
    ensures Passes(tasks, target, start, k) && Node(tasks, start, k + 1) == tasks[cursor].parent
  {
  }

  lemma {:induction false} WalkFrom(tasks: Tasks, target: Option<Id>, start: Id, k: nat, cursor: Id, visited: set<Id>) returns (m: nat)
    requires Node(tasks, start, k) == Some(cursor)
    requires forall i: nat :: i < k ==> Passes(tasks, target, start, i)
    requires forall v :: v in visited <==> Met(tasks, start, k, v)
    ensures StopsAt(tasks, target, start, m, WalkUp(tasks, target, cursor, visited))
    decreases |tasks.Keys - visited|
  {
    m := k;
    if cursor in tasks && Some(cursor) != target && cursor !in visited {
      PassesOn(tasks, target, start, k, cursor);
      m := k + 1;
      if tasks[cursor].parent.Some? {
        var seen := visited + {cursor};
        forall v
          ensures v in seen <==> Met(tasks, start, k + 1, v)
        {
          MetNext(tasks, start, k, v);
        }
        assert cursor in tasks.Keys - visited;
        SmallerSet(tasks.Keys - seen, tasks.Keys - visited);
        m := WalkFrom(tasks, target, start, k + 1, tasks[cursor].parent.value, seen);
      }
    }
  }

  /** On any table whatever the walk stops at the first task that is missing, is the target or was met before, and says
      which; it is clear exactly if it comes past a root. */
  lemma WalkStops(tasks: Tasks, target: Option<Id>, start: Id) returns (m: nat)
    ensures StopsAt(tasks, target, start, m, WalkUp(tasks, target, start, {}))
  {
    m := WalkFrom(tasks, target, start, 0, start, {});
  }

  // ---------- what each operation does, exactly ----------

  /** The parent exists, has room besides the task, is not at or below it, and is not too deep. */
  ghost predicate Accepts(tasks: Tasks, taskId: Option<Id>, parent: Option<Id>, maxDepth: nat) {
    parent.Some? ==>
      var p := parent.value;
      && p in tasks
      && HasSpace(tasks, taskId, p)
      && !(taskId.Some? && AtOrAbove(tasks, p, taskId.value))
      && tasks[p].depth + 1 <= maxDepth
  }

  /** Fewer tasks than its budget allows, the given one not counted, are children of the parent. */
  ghost predicate HasSpace(tasks: Tasks, taskId: Option<Id>, parent: Id)
    requires parent in tasks
  {
    |set t | t in tasks && tasks[t].parent == Some(parent) && Some(t) != taskId| < tasks[parent].maxChildren
  }

  function DepthUnder(tasks: Tasks, parent: Option<Id>): nat
    requires parent.Some? ==> parent.value in tasks
  {
    if parent.None? then 0 else tasks[parent.value].depth + 1
  }

  /** On a forest a place is granted exactly if it is acceptable, one below the parent; otherwise the refusal is for
      the first reason in this order. */
  lemma PlaceExactly(tasks: Tasks, taskId: Option<Id>, parent: Option<Id>, maxDepth: nat)
    requires Forest(tasks)
    ensures
      var r := Validated(tasks, taskId, parent, maxDepth);
      if Accepts(tasks, taskId, parent, maxDepth) then r == Ok(DepthUnder(tasks, parent))
      else if parent == taskId then r == Err(Cycle)
      else if parent.value !in tasks then r == Err(NotFound)
      else if !HasSpace(tasks, taskId, parent.value) then r == Err(Fanout)
      else if taskId.Some? && AtOrAbove(tasks, parent.value, taskId.value) then r == Err(Cycle)
      else r == Err(DepthLimit)
  {
    if parent.Some? && parent.value in tasks {
      var p := parent.value;
      var n: nat :| HasAncestors(tasks, p, n);
      WalkOnForest(tasks, taskId, p, {}, n);
      if taskId == parent {
        assert Reaches(tasks, p, p, 0);
      }
      assert (set t | t in Children(tasks, p) && Some(t) != taskId) ==
             (set t | t in tasks && tasks[t].parent == Some(p) && Some(t) != taskId);
    }
  }

  /** A new task is stored exactly if its budget is at most eight, its place is acceptable and its depth at most six;
      it is open and carries the parent and budget asked for. */
  lemma CreateExactly(tasks: Tasks, id: Id, parent: Option<Id>, budget: nat, maxDepth: nat)
    requires Forest(tasks)
    ensures
      var r := Create(tasks, id, parent, budget, maxDepth);
      if budget > 8 then r == Err(InvalidBudget)
      else if !Accepts(tasks, None, parent, maxDepth) then r.Err? && r.error in {NotFound, Fanout, DepthLimit}
      else if DepthUnder(tasks, parent) > 6 then r == Err(DepthLimit)
      else r == Ok(tasks[id := Task(parent, DepthUnder(tasks, parent), budget, false)])
  {
    PlaceExactly(tasks, None, parent, maxDepth);
  }

  /** An update is stored exactly if the task exists, its new place, if it moves, is acceptable, and the limits hold;
      what the patch does not name stays. */
  lemma UpdateExactly(tasks: Tasks, id: Id, patch: Patch, maxDepth: nat)
    requires Forest(tasks) && id in tasks
    ensures
      var r, was := Update(tasks, id, patch, maxDepth), tasks[id];
      var parent := if patch.parent.Some? then patch.parent.value else was.parent;
      var budget := if patch.budget.Some? then patch.budget.value else was.maxChildren;
      var terminal := if patch.terminal.Some? then patch.terminal.value else was.terminal;
      if parent != was.parent && !Accepts(tasks, Some(id), parent, maxDepth) then
        r.Err? && r.error in {Cycle, NotFound, Fanout, DepthLimit}
      else
        var depth := if parent != was.parent then DepthUnder(tasks, parent) else was.depth;
        r == if budget > 8 then Err(InvalidBudget) else if depth > 6 then Err(DepthLimit)
             else Ok(tasks[id := Task(parent, depth, budget, terminal)])
  {
    if patch.parent.Some? && patch.parent.value != tasks[id].parent {
      PlaceExactly(tasks, Some(id), patch.parent.value, maxDepth);
    }
  }

  /** A task is delegated exactly if it is open and its place is still acceptable. */
  lemma DelegateExactly(tasks: Tasks, id: Id, maxDepth: nat)
    requires Forest(tasks) && id in tasks
    ensures
      var r := Delegate(tasks, id, maxDepth);
      if tasks[id].terminal then r == Err(Terminal)
      else if Accepts(tasks, Some(id), tasks[id].parent, maxDepth) then r == Ok(tasks)
      else r.Err? && r.error in {Fanout, DepthLimit, Cycle, NotFound}
  {
    PlaceExactly(tasks, Some(id), tasks[id].parent, maxDepth);
    assert tasks[id := tasks[id]] == tasks;
  }

  /** A help request succeeds exactly as a creation under the task with one less child than it may have. */
  lemma HelpExactly(tasks: Tasks, id: Id, parent: Id, maxDepth: nat)
    requires Forest(tasks) && parent in tasks
    ensures
      var r, budget := Help(tasks, id, parent, maxDepth), tasks[parent].maxChildren - 1;
      if Accepts(tasks, None, Some(parent), maxDepth) && budget <= 8 && tasks[parent].depth < 6 then
        budget >= 0 && r == Ok(tasks[id := Task(Some(parent), tasks[parent].depth + 1, budget, false)])
      else r.Err?
  {
    CreateExactly(tasks, id, Some(parent), if tasks[parent].maxChildren == 0 then 0 else tasks[parent].maxChildren - 1, maxDepth);
  }

  // ---------- every operation keeps the forest ----------

  /** The table after a task is written at `id` under `parent`: new, moved, or left in place. */
  ghost predicate Placed(tasks: Tasks, id: Id, task: Task) {
    && (task.parent.Some? ==> task.parent.value in tasks)
    && (|| (id in tasks && task.parent == tasks[id].parent)
        || (task.parent.Some? ==> !AtOrAbove(tasks, task.parent.value, id)))
  }

  /** A chain of ancestors that avoids `id` is not affected by writing at `id`. */
  lemma {:induction false} ChainAvoids(tasks: Tasks, id: Id, task: Task, start: Id, n: nat)
    requires HasAncestors(tasks, start, n) && !AtOrAbove(tasks, start, id)
    ensures HasAncestors(tasks[id := task], start, n)
    decreases n
  {
    AboveStep(tasks, start, id);
    if tasks[start].parent.Some? {
      ChainAvoids(tasks, id, task, tasks[start].parent.value, n - 1);
    }
  }

  lemma {:induction false} ChainInPlace(tasks: Tasks, id: Id, task: Task, start: Id, n: nat)
    requires HasAncestors(tasks, start, n) && id in tasks && task.parent == tasks[id].parent
    ensures HasAncestors(tasks[id := task], start, n)
    decreases n
  {
    if tasks[start].parent.Some? {
      ChainInPlace(tasks, id, task, tasks[start].parent.value, n - 1);
    }
  }

  /** After a move, chains through the moved task lead on through its new place. */
  lemma {:induction false} ChainRerouted(tasks: Tasks, id: Id, task: Task, start: Id, n: nat, k: nat) returns (m: nat)
    requires HasAncestors(tasks, start, n) && HasAncestors(tasks[id := task], id, k)
    ensures HasAncestors(tasks[id := task], start, m)
    decreases n
  {
    if start == id {
      m := k;
    } else if tasks[start].parent.None? {
      m := 0;
    } else {
      var above := ChainRerouted(tasks, id, task, tasks[start].parent.value, n - 1, k);
      m := above + 1;
    }
  }

  lemma PlacedAncestors(tasks: Tasks, id: Id, task: Task) returns (k: nat)
    requires Forest(tasks) && Placed(tasks, id, task)
    ensures HasAncestors(tasks[id := task], id, k)
  {
    if id in tasks && task.parent == tasks[id].parent {
      k :| HasAncestors(tasks, id, k);
      ChainInPlace(tasks, id, task, id, k);
    } else if task.parent.None? {
      k := 0;
    } else {
      var n: nat :| HasAncestors(tasks, task.parent.value, n);
      ChainAvoids(tasks, id, task, task.parent.value, n);
      k := n + 1;
    }
  }

  lemma PlacingKeepsForest(tasks: Tasks, id: Id, task: Task)
    requires Forest(tasks) && Placed(tasks, id, task)
    ensures Forest(tasks[id := task])
  {
    var after := tasks[id := task];
    var k := PlacedAncestors(tasks, id, task);
    forall t | t in after
      ensures exists m: nat :: HasAncestors(after, t, m)
    {
      if t != id {
        var n: nat :| HasAncestors(tasks, t, n);
        var m := ChainRerouted(tasks, id, task, t, n, k);
      }
    }
  }

  /** A new task has no place in any chain yet. */
  lemma {:induction false} NewIsNotAbove(tasks: Tasks, start: Id, id: Id, k: nat)
    requires id !in tasks
    ensures !Reaches(tasks, start, id, k)
    decreases k
  {
    if k > 0 && start in tasks && tasks[start].parent.Some? {
      NewIsNotAbove(tasks, tasks[start].parent.value, id, k - 1);
    }
  }

  lemma NewPlaced(tasks: Tasks, id: Id, task: Task)
    requires id !in tasks && (task.parent.Some? ==> task.parent.value in tasks)
    ensures Placed(tasks, id, task)
  {
    if task.parent.Some? {
      forall k: nat
        ensures !Reaches(tasks, task.parent.value, id, k)
      {
        NewIsNotAbove(tasks, task.parent.value, id, k);
      }
    }
  }

  /** No task has more children than the schema's largest budget. */
  ghost predicate Bounded(tasks: Tasks) {
    && (forall id :: id in tasks ==> tasks[id].maxChildren <= MAX_CHILDREN)
    && (forall id :: |Children(tasks, id)| <= MAX_CHILDREN)
  }

  /** Room for one more: the other children of the parent are fewer than its budget. */
  ghost predicate HasRoom(tasks: Tasks, id: Id, task: Task) {
    || (id in tasks && task.parent == tasks[id].parent)
    || task.parent.None?
    || (task.parent.value in tasks && |Children(tasks, task.parent.value) - {id}| < tasks[task.parent.value].maxChildren)
  }

  lemma PlacingKeepsBounded(tasks: Tasks, id: Id, task: Task)
    requires Bounded(tasks) && HasRoom(tasks, id, task) && task.maxChildren <= MAX_CHILDREN
    ensures Bounded(tasks[id := task])
  {
    var after := tasks[id := task];
    forall p
      ensures |Children(after, p)| <= MAX_CHILDREN
    {
      if id in tasks && task.parent == tasks[id].parent {
        assert Children(after, p) == Children(tasks, p);
      } else if task.parent == Some(p) {
        assert Children(after, p) == (Children(tasks, p) - {id}) + {id};
      } else {
        SubsetSize(Children(after, p), Children(tasks, p));
      }
    }
  }

  // ---------- histories ----------

  datatype Step =
    | CreateStep(id: Id, parent: Option<Id>, budget: nat)
    | UpdateStep(id: Id, patch: Patch)
    | DelegateStep(id: Id)
    | HelpStep(id: Id, under: Id)
    | DelegatedChildStep(id: Id, under: Id)

  function Outcome(tasks: Tasks, step: Step, maxDepth: nat): Result<Tasks, Error> {
    match step
    case CreateStep(id, parent, budget) => Create(tasks, id, parent, budget, maxDepth)
    case UpdateStep(id, patch) => Update(tasks, id, patch, maxDepth)
    case DelegateStep(id) => Delegate(tasks, id, maxDepth)
    case HelpStep(id, parent) => Help(tasks, id, parent, maxDepth)
    case DelegatedChildStep(id, parent) =>
      if parent in tasks then Create(tasks, id, Some(parent), tasks[parent].maxChildren, maxDepth) else Err(NotFound)
  }

  /** Generated ids are new. */
  predicate Fresh(tasks: Tasks, step: Step) {
    step.CreateStep? || step.HelpStep? || step.DelegatedChildStep? ==> step.id !in tasks
  }

  function After(tasks: Tasks, step: Step, maxDepth: nat): Tasks {
    match Outcome(tasks, step, maxDepth)
    case Ok(after) => after
    case Err(_) => tasks
  }

  predicate Legal(tasks: Tasks, steps: seq<Step>, maxDepth: nat)
    decreases |steps|
  {
    steps == [] || (Fresh(tasks, steps[0]) && Legal(After(tasks, steps[0], maxDepth), steps[1..], maxDepth))
  }

  function Run(tasks: Tasks, steps: seq<Step>, maxDepth: nat): Tasks
    decreases |steps|
  {
    if steps == [] then tasks else Run(After(tasks, steps[0], maxDepth), steps[1..], maxDepth)
  }

  /** A step has the effect of its operation, or none if that is refused; a delegated child gets its parent's whole
      child budget, a help request one less. */
  lemma StepExactly(tasks: Tasks, step: Step, maxDepth: nat)
    ensures
      var r := match step
        case CreateStep(id, parent, budget) => Create(tasks, id, parent, budget, maxDepth)
        case UpdateStep(id, patch) => Update(tasks, id, patch, maxDepth)
        case DelegateStep(id) => Delegate(tasks, id, maxDepth)
        case HelpStep(id, under) => Help(tasks, id, under, maxDepth)
        case DelegatedChildStep(id, under) =>
          if under in tasks then Create(tasks, id, Some(under), tasks[under].maxChildren, maxDepth) else Err(NotFound);
      After(tasks, step, maxDepth) == if r.Ok? then r.value else tasks
  {
  }

  /** A validated place keeps the hierarchy a forest, has room, and lies one below its parent. */
  lemma ValidatedPlace(tasks: Tasks, id: Id, task: Task, taskId: Option<Id>, maxDepth: nat)
    requires Forest(tasks) && (taskId == Some(id) || (taskId == None && id !in tasks))
    requires Validated(tasks, taskId, task.parent, maxDepth) == Ok(task.depth)
    ensures Placed(tasks, id, task) && HasRoom(tasks, id, task) && task.depth <= maxDepth
    ensures task.depth == if task.parent.Some? then tasks[task.parent.value].depth + 1 else 0
  {
    if task.parent.Some? {
      var p := task.parent.value;
      ValidatedOnForest(tasks, taskId, p, maxDepth);
      assert (set t | t in Children(tasks, p) && Some(t) != taskId) == Children(tasks, p) - {id};
    }
    if taskId == None {
      NewPlaced(tasks, id, task);
    }
  }

  /** The depth that is stored: as before in place, else one below the parent, within the limits. */
  ghost predicate DepthFollows(tasks: Tasks, id: Id, task: Task, maxDepth: nat) {
    if id in tasks && task.parent == tasks[id].parent then task.depth == tasks[id].depth
    else
      && task.depth <= Min(maxDepth, MAX_DEPTH)
      && match task.parent
         case None => task.depth == 0
         case Some(p) => p in tasks && task.depth == tasks[p].depth + 1
  }

  /** Every successful step writes one task, to a place that keeps the forest and has room. */
  lemma StepPlaces(tasks: Tasks, step: Step, maxDepth: nat) returns (task: Task)
    requires Forest(tasks) && Bounded(tasks) && Fresh(tasks, step) && Outcome(tasks, step, maxDepth).Ok?
    ensures Outcome(tasks, step, maxDepth).value == tasks[step.id := task]
    ensures Placed(tasks, step.id, task) && HasRoom(tasks, step.id, task)
    ensures task.maxChildren <= MAX_CHILDREN && (step.UpdateStep? || step.DelegateStep? <==> step.id in tasks)
    ensures DepthFollows(tasks, step.id, task, maxDepth)
    ensures step.DelegateStep? ==> task == tasks[step.id]
    ensures step.id in tasks && task.parent != tasks[step.id].parent ==> step.UpdateStep? && step.patch.parent == Some(task.parent)
    ensures step.HelpStep? ==> step.under in tasks && task.maxChildren + 1 == tasks[step.under].maxChildren
  {
    task := Outcome(tasks, step, maxDepth).value[step.id];
    match step
    case UpdateStep(id, patch) => UpdatePlaces(tasks, id, patch, maxDepth);
    case DelegateStep(id) => DelegatePlaces(tasks, id, maxDepth);
    case HelpStep(id, parent) => CreatePlaces(tasks, id, Some(parent), if tasks[parent].maxChildren == 0 then 0 else tasks[parent].maxChildren - 1, maxDepth);
    case CreateStep(id, parent, budget) => CreatePlaces(tasks, id, parent, budget, maxDepth);
    case DelegatedChildStep(id, parent) => CreatePlaces(tasks, id, Some(parent), tasks[parent].maxChildren, maxDepth);
  }

  lemma DelegatePlaces(tasks: Tasks, id: Id, maxDepth: nat)
    requires Forest(tasks) && Bounded(tasks) && id in tasks
    ensures Placed(tasks, id, tasks[id]) && HasRoom(tasks, id, tasks[id]) && DepthFollows(tasks, id, tasks[id], maxDepth)
  {
    ParentPresent(tasks, id);
  }

  lemma UpdatePlaces(tasks: Tasks, id: Id, patch: Patch, maxDepth: nat)
    requires Forest(tasks) && Bounded(tasks) && Update(tasks, id, patch, maxDepth).Ok?
    ensures
      var task := Update(tasks, id, patch, maxDepth).value[id];
      && Placed(tasks, id, task) && HasRoom(tasks, id, task) && DepthFollows(tasks, id, task, maxDepth)
  {
    var task := Update(tasks, id, patch, maxDepth).value[id];
    if task.parent != tasks[id].parent {
      ValidatedPlace(tasks, id, task, Some(id), maxDepth);
    } else {
      ParentPresent(tasks, id);
    }
  }

  lemma CreatePlaces(tasks: Tasks, id: Id, parent: Option<Id>, budget: nat, maxDepth: nat)
    requires Forest(tasks) && id !in tasks && Create(tasks, id, parent, budget, maxDepth).Ok?
    ensures
      var task := Create(tasks, id, parent, budget, maxDepth).value[id];
      && Placed(tasks, id, task) && HasRoom(tasks, id, task) && DepthFollows(tasks, id, task, maxDepth)
  {
    ValidatedPlace(tasks, id, Create(tasks, id, parent, budget, maxDepth).value[id], None, maxDepth);
  }

  lemma ParentPresent(tasks: Tasks, id: Id)
    requires Forest(tasks) && id in tasks
    ensures tasks[id].parent.Some? ==> tasks[id].parent.value in tasks
  {
    var n: nat :| HasAncestors(tasks, id, n);
    if tasks[id].parent.Some? {
      assert HasAncestors(tasks, tasks[id].parent.value, n - 1);
    }
  }

  lemma {:induction false} RunKeepsForest(tasks: Tasks, steps: seq<Step>, maxDepth: nat)
    requires Forest(tasks) && Bounded(tasks) && Legal(tasks, steps, maxDepth)
    ensures Forest(Run(tasks, steps, maxDepth)) && Bounded(Run(tasks, steps, maxDepth))
    decreases |steps|
  {
    if steps != [] {
      if Outcome(tasks, steps[0], maxDepth).Ok? {
        var task := StepPlaces(tasks, steps[0], maxDepth);
        PlacingKeepsForest(tasks, steps[0].id, task);
        PlacingKeepsBounded(tasks, steps[0].id, task);
      }
      RunKeepsForest(After(tasks, steps[0], maxDepth), steps[1..], maxDepth);
    }
  }

  /** After any sequence of operations, re-parenting included: parents exist, nothing is its own ancestor,
      no task has more than eight children, and the walk never finds an existing cycle. */
  lemma HierarchyIsForest(steps: seq<Step>, maxDepth: nat, taskId: Option<Id>, parent: Id)
    requires Legal(map[], steps, maxDepth)
    ensures var tasks := Run(map[], steps, maxDepth);
      && Forest(tasks)
      && (forall id :: id in tasks && tasks[id].parent.Some? ==> tasks[id].parent.value in tasks)
      && (forall id, k: nat :: k > 0 ==> !Reaches(tasks, id, id, k))
      && (forall id :: |Children(tasks, id)| <= 8)
      && Validated(tasks, taskId, Some(parent), maxDepth) != Err(ExistingCycle)
  {
    var tasks := Run(map[], steps, maxDepth);
    RunKeepsForest(map[], steps, maxDepth);
    forall id | id in tasks && tasks[id].parent.Some?
      ensures tasks[id].parent.value in tasks
    {
      ParentPresent(tasks, id);
    }
    forall id, k: nat | k > 0
      ensures !Reaches(tasks, id, id, k)
    {
      if Reaches(tasks, id, id, k) {
        var n: nat :| HasAncestors(tasks, id, n);
        ReachedAncestors(tasks, id, id, n, k);
        AncestorsUnique(tasks, id, n, n - k);
      }
    }
    ValidatedOnForest(tasks, taskId, parent, maxDepth);
  }

  // ---------- depth ----------

  /** The stored depth is the number of ancestors, and within the limits. */
  ghost predicate DepthsRight(tasks: Tasks, maxDepth: nat) {
    forall id :: id in tasks ==> HasAncestors(tasks, id, tasks[id].depth) && tasks[id].depth <= Min(maxDepth, MAX_DEPTH)
  }

  /** A step that moves a task moves one without children. */
  ghost predicate MovesLeaf(tasks: Tasks, step: Step) {
    step.UpdateStep? && step.id in tasks && step.patch.parent.Some? && step.patch.parent.value != tasks[step.id].parent ==>
      Children(tasks, step.id) == {}
  }

  ghost predicate LeafMoves(tasks: Tasks, steps: seq<Step>, maxDepth: nat)
    decreases |steps|
  {
    steps == [] || (MovesLeaf(tasks, steps[0]) && LeafMoves(After(tasks, steps[0], maxDepth), steps[1..], maxDepth))
  }

  lemma {:induction false} LeafIsNotAbove(tasks: Tasks, id: Id, start: Id, k: nat)
    requires Children(tasks, id) == {} && start != id
    ensures !Reaches(tasks, start, id, k)
    decreases k
  {
    if k > 0 && start in tasks && tasks[start].parent.Some? {
      var p := tasks[start].parent.value;
      assert start in Children(tasks, p);
      LeafIsNotAbove(tasks, id, p, k - 1);
    }
  }

  lemma OthersKeepDepth(tasks: Tasks, id: Id, task: Task, start: Id, n: nat)
    requires HasAncestors(tasks, start, n) && start != id && Children(tasks, id) == {}
    ensures HasAncestors(tasks[id := task], start, n)
  {
    forall k: nat ensures !Reaches(tasks, start, id, k) { LeafIsNotAbove(tasks, id, start, k); }
    ChainAvoids(tasks, id, task, start, n);
  }

  lemma InPlaceKeepsDepths(tasks: Tasks, id: Id, task: Task, maxDepth: nat)
    requires DepthsRight(tasks, maxDepth) && id in tasks
    requires task.parent == tasks[id].parent && task.depth == tasks[id].depth
    ensures DepthsRight(tasks[id := task], maxDepth)
  {
    var after := tasks[id := task];
    forall t | t in after
      ensures HasAncestors(after, t, after[t].depth) && after[t].depth <= Min(maxDepth, MAX_DEPTH)
    {
      ChainInPlace(tasks, id, task, t, tasks[t].depth);
    }
  }

  /** A task without children, new or moved, takes its depth from its new parent; no other depth changes. */
  lemma LeafKeepsDepths(tasks: Tasks, id: Id, task: Task, maxDepth: nat)
    requires DepthsRight(tasks, maxDepth) && Children(tasks, id) == {}
    requires task.parent != Some(id) && task.depth <= Min(maxDepth, MAX_DEPTH)
    requires match task.parent
      case None => task.depth == 0
      case Some(p) => p in tasks && task.depth == tasks[p].depth + 1
    ensures DepthsRight(tasks[id := task], maxDepth)
  {
    var after := tasks[id := task];
    forall t | t in tasks && t != id
      ensures HasAncestors(after, t, after[t].depth) && after[t].depth <= Min(maxDepth, MAX_DEPTH)
    {
      OthersKeepDepth(tasks, id, task, t, tasks[t].depth);
    }
    assert HasAncestors(after, id, task.depth);
  }

  lemma WriteKeepsDepths(tasks: Tasks, id: Id, task: Task, maxDepth: nat)
    requires DepthsRight(tasks, maxDepth) && Forest(tasks)
    requires Placed(tasks, id, task) && DepthFollows(tasks, id, task, maxDepth)
    requires id in tasks && task.parent != tasks[id].parent ==> Children(tasks, id) == {}
    ensures DepthsRight(tasks[id := task], maxDepth)
  {
    if id in tasks && task.parent == tasks[id].parent {
      InPlaceKeepsDepths(tasks, id, task, maxDepth);
    } else {
      NoChildrenYet(tasks, id);
      NotOwnParent(tasks, id, task);
      LeafKeepsDepths(tasks, id, task, maxDepth);
    }
  }

  lemma StepKeepsDepths(tasks: Tasks, step: Step, maxDepth: nat)
    requires DepthsRight(tasks, maxDepth) && Forest(tasks) && Bounded(tasks) && Fresh(tasks, step) && MovesLeaf(tasks, step)
    ensures DepthsRight(After(tasks, step, maxDepth), maxDepth)
  {
    if Outcome(tasks, step, maxDepth).Ok? {
      var task := StepPlaces(tasks, step, maxDepth);
      WriteKeepsDepths(tasks, step.id, task, maxDepth);
    }
  }

  lemma NotOwnParent(tasks: Tasks, id: Id, task: Task)
    requires Placed(tasks, id, task) && !(id in tasks && task.parent == tasks[id].parent)
    ensures task.parent != Some(id)
  {
    if id in tasks {
      assert Reaches(tasks, id, id, 0);
      assert AtOrAbove(tasks, id, id);
    }
  }

  lemma NoChildrenYet(tasks: Tasks, id: Id)
    requires Forest(tasks) && (id in tasks ==> Children(tasks, id) == {})
    ensures Children(tasks, id) == {}
  {
    forall t | t in tasks
      ensures id !in tasks ==> tasks[t].parent != Some(id)
    {
      ParentPresent(tasks, t);
    }
  }

  /** A move to the same depth changes nobody's number of ancestors. */
  lemma {:induction false} ChainSameDepth(tasks: Tasks, id: Id, task: Task, start: Id, n: nat, k: nat)
    requires HasAncestors(tasks, start, n) && HasAncestors(tasks, id, k) && HasAncestors(tasks[id := task], id, k)
    ensures HasAncestors(tasks[id := task], start, n)
    decreases n
  {
    if start == id {
      AncestorsUnique(tasks, id, n, k);
    } else if tasks[start].parent.Some? {
      ChainSameDepth(tasks, id, task, tasks[start].parent.value, n - 1, k);
    }
  }

  /** The moved task itself always gets the right depth. */
  lemma MovedDepth(tasks: Tasks, id: Id, task: Task, maxDepth: nat)
    requires DepthsRight(tasks, maxDepth) && Forest(tasks) && id in tasks
    requires Placed(tasks, id, task) && DepthFollows(tasks, id, task, maxDepth)
    ensures HasAncestors(tasks[id := task], id, task.depth) && task.depth <= Min(maxDepth, MAX_DEPTH)
  {
    if task.parent == tasks[id].parent {
      ChainInPlace(tasks, id, task, id, tasks[id].depth);
    } else if task.parent.Some? {
      var p := task.parent.value;
      ChainAvoids(tasks, id, task, p, tasks[p].depth);
    }
  }

  lemma DepthOfChild(tasks: Tasks, id: Id, child: Id, maxDepth: nat)
    requires DepthsRight(tasks, maxDepth) && id in tasks && child in tasks && tasks[child].parent == Some(id)
    ensures child != id && tasks[child].depth == tasks[id].depth + 1
  {
    AncestorsUnique(tasks, id, tasks[id].depth, tasks[child].depth - 1);
  }

  /** The patch leaves the task in place, or moves it to a place of the same depth. */
  predicate SameDepth(tasks: Tasks, id: Id, patch: Patch)
    requires id in tasks
  {
    || patch.parent.None?
    || patch.parent.value == tasks[id].parent
    || match patch.parent.value
       case None => tasks[id].depth == 0
       case Some(p) => p in tasks && tasks[p].depth + 1 == tasks[id].depth
  }

  /** When an update keeps all stored depths right: exactly if the task has no children, stays in place, or goes
      where a task of its depth belongs. */
  lemma MoveKeepsDepthsExactly(tasks: Tasks, id: Id, patch: Patch, maxDepth: nat)
    requires DepthsRight(tasks, maxDepth) && Forest(tasks) && Bounded(tasks) && Update(tasks, id, patch, maxDepth).Ok?
    ensures
      var after := Update(tasks, id, patch, maxDepth).value;
      DepthsRight(after, maxDepth) <==> Children(tasks, id) == {} || SameDepth(tasks, id, patch)
  {
    var after := Update(tasks, id, patch, maxDepth).value;
    var task := after[id];
    UpdatePlaces(tasks, id, patch, maxDepth);
    MovedDepth(tasks, id, task, maxDepth);
    assert task.depth == tasks[id].depth <==> SameDepth(tasks, id, patch);
    if task.depth == tasks[id].depth {
      forall t | t in tasks
        ensures HasAncestors(after, t, after[t].depth) && after[t].depth <= Min(maxDepth, MAX_DEPTH)
      {
        ChainSameDepth(tasks, id, task, t, tasks[t].depth, task.depth);
      }
    } else if Children(tasks, id) == {} {
      WriteKeepsDepths(tasks, id, task, maxDepth);
    } else if DepthsRight(after, maxDepth) {
      assert exists c :: c in Children(tasks, id);
      var child :| child in Children(tasks, id);
      DepthOfChild(tasks, id, child, maxDepth);
      DepthOfChild(after, id, child, maxDepth);
      assert false;
    }
  }

  function MoveUnder(a: Id, b: Id, c: Id): seq<Step> {
    [CreateStep(a, None, 1), CreateStep(b, None, 1), CreateStep(c, Some(b), 1),
     UpdateStep(b, Patch(Some(Some(a)), None, None))]
  }

  /** A run from the empty table in which a move leaves a child's stored depth wrong. */
  lemma MoveLeavesDepthWrong(a: Id, b: Id, c: Id, maxDepth: nat)
    requires a != b && a != c && b != c && maxDepth >= 1
    ensures Legal(map[], MoveUnder(a, b, c), maxDepth)
    ensures DepthsRight(Run(map[], MoveUnder(a, b, c)[..3], maxDepth), maxDepth)
    ensures !DepthsRight(Run(map[], MoveUnder(a, b, c), maxDepth), maxDepth)
  {
    var t1: Tasks := map[a := Task(None, 0, 1, false)];
    var t2 := t1[b := Task(None, 0, 1, false)];
    var t3 := t2[c := Task(Some(b), 1, 1, false)];
    var t4 := t3[b := Task(Some(a), 1, 1, false)];
    ThreeCreated(a, b, c, maxDepth);
    MovedUnder(a, b, c, maxDepth);
    var steps := MoveUnder(a, b, c);
    FourSteps(map[], t1, t2, t3, t4, steps, maxDepth);
    assert HasAncestors(t3, a, 0) && HasAncestors(t3, b, 0) && HasAncestors(t3, c, 1);
    assert !HasAncestors(t4, c, 1);
  }

  lemma ThreeCreated(a: Id, b: Id, c: Id, maxDepth: nat)
    requires a != b && a != c && b != c && maxDepth >= 1
    ensures
      var t1: Tasks := map[a := Task(None, 0, 1, false)];
      var t2 := t1[b := Task(None, 0, 1, false)];
      && Create(map[], a, None, 1, maxDepth) == Ok(t1)
      && Create(t1, b, None, 1, maxDepth) == Ok(t2)
      && Create(t2, c, Some(b), 1, maxDepth) == Ok(t2[c := Task(Some(b), 1, 1, false)])
  {
    var t2: Tasks := map[a := Task(None, 0, 1, false), b := Task(None, 0, 1, false)];
    assert Children(t2, b) == {};
    assert (set t | t in Children(t2, b) && Some(t) != None) == {};
  }

  lemma MovedUnder(a: Id, b: Id, c: Id, maxDepth: nat)
    requires a != b && a != c && b != c && maxDepth >= 1
    ensures
      var t3: Tasks := map[a := Task(None, 0, 1, false), b := Task(None, 0, 1, false), c := Task(Some(b), 1, 1, false)];
      Update(t3, b, Patch(Some(Some(a)), None, None), maxDepth) == Ok(t3[b := Task(Some(a), 1, 1, false)])
  {
    var t3: Tasks := map[a := Task(None, 0, 1, false), b := Task(None, 0, 1, false), c := Task(Some(b), 1, 1, false)];
    assert Children(t3, a) == {};
    assert (set t | t in Children(t3, a) && Some(t) != Some(b)) == {};
  }

  lemma FourSteps(t0: Tasks, t1: Tasks, t2: Tasks, t3: Tasks, t4: Tasks, steps: seq<Step>, maxDepth: nat)
    requires |steps| == 4
    requires Fresh(t0, steps[0]) && After(t0, steps[0], maxDepth) == t1
    requires Fresh(t1, steps[1]) && After(t1, steps[1], maxDepth) == t2
    requires Fresh(t2, steps[2]) && After(t2, steps[2], maxDepth) == t3
    requires Fresh(t3, steps[3]) && After(t3, steps[3], maxDepth) == t4
    ensures Legal(t0, steps, maxDepth) && Run(t0, steps, maxDepth) == t4 && Run(t0, steps[..3], maxDepth) == t3
  {
    var front := steps[..3];
    OneMoreStep(t3, steps, 3, t4, maxDepth);
    OneMoreStep(t2, steps, 2, t3, maxDepth);
    OneMoreStep(t1, steps, 1, t2, maxDepth);
    OneMoreStep(t0, steps, 0, t1, maxDepth);
    OneMoreStep(t2, front, 2, t3, maxDepth);
    OneMoreStep(t1, front, 1, t2, maxDepth);
    OneMoreStep(t0, front, 0, t1, maxDepth);
    assert steps[0..] == steps && front[0..] == front;
  }

  lemma OneMoreStep(tasks: Tasks, steps: seq<Step>, i: nat, next: Tasks, maxDepth: nat)
    requires i < |steps| && Fresh(tasks, steps[i]) && After(tasks, steps[i], maxDepth) == next
    ensures Run(tasks, steps[i..], maxDepth) == Run(next, steps[i + 1..], maxDepth)
    ensures Legal(next, steps[i + 1..], maxDepth) ==> Legal(tasks, steps[i..], maxDepth)
  {
    assert steps[i..][0] == steps[i] && steps[i..][1..] == steps[i + 1..];
  }

  lemma {:induction false} RunKeepsDepths(tasks: Tasks, steps: seq<Step>, maxDepth: nat)
    requires DepthsRight(tasks, maxDepth) && Forest(tasks) && Bounded(tasks)
    requires Legal(tasks, steps, maxDepth) && LeafMoves(tasks, steps, maxDepth)
    ensures DepthsRight(Run(tasks, steps, maxDepth), maxDepth)
    decreases |steps|
  {
    if steps != [] {
      StepKeepsDepths(tasks, steps[0], maxDepth);
      RunKeepsForest(tasks, [steps[0]], maxDepth);
      assert [steps[0]][1..] == [];
      assert Run(tasks, [steps[0]], maxDepth) == Run(After(tasks, steps[0], maxDepth), [], maxDepth);
      RunKeepsDepths(After(tasks, steps[0], maxDepth), steps[1..], maxDepth);
    }
  }

  // ---------- the size of a subtree ----------

  /** The tasks from which `root` is reached by exactly `k` parent links. */
  ghost function Level(tasks: Tasks, root: Id, k: nat): set<Id> {
    set t | t in tasks && Reaches(tasks, t, root, k)
  }

  ghost function Subtree(tasks: Tasks, root: Id): set<Id> {
    set t | t in tasks && AtOrAbove(tasks, t, root)
  }

  function Power8(k: nat): nat { if k == 0 then 1 else 8 * Power8(k - 1) }

  /** 1 + 8 + ... + 8^k. */
  function Geometric(k: nat): nat { if k == 0 then 1 else Geometric(k - 1) + Power8(k) }

  lemma {:induction false} GeometricClosed(k: nat)
    ensures 7 * Geometric(k) == Power8(k + 1) - 1
  {
    if k > 0 {
      GeometricClosed(k - 1);
    }
  }

  ghost function ChildrenOfAll(tasks: Tasks, parents: set<Id>): set<Id> {
    set t | t in tasks && tasks[t].parent.Some? && tasks[t].parent.value in parents
  }

  lemma {:induction false} ChildrenOfAllBound(tasks: Tasks, parents: set<Id>)
    requires Bounded(tasks)
    ensures |ChildrenOfAll(tasks, parents)| <= 8 * |parents|
    decreases |parents|
  {
    if parents == {} {
      assert ChildrenOfAll(tasks, parents) == {};
    } else {
      var p :| p in parents;
      var rest := parents - {p};
      ChildrenOfAllBound(tasks, rest);
      assert ChildrenOfAll(tasks, parents) == ChildrenOfAll(tasks, rest) + Children(tasks, p);
      assert |parents| == |rest| + 1;
    }
  }

  /** Linking once more: the next level is made of the children of this one. */
  lemma {:induction false} ReachesLast(tasks: Tasks, t: Id, root: Id, k: nat) returns (middle: Id)
    requires Reaches(tasks, t, root, k + 1)
    ensures t in tasks && tasks[t].parent == Some(middle) && Reaches(tasks, middle, root, k)
  {
    middle := tasks[t].parent.value;
  }

  lemma {:induction false} LevelBound(tasks: Tasks, root: Id, k: nat)
    requires Bounded(tasks)
    ensures |Level(tasks, root, k)| <= Power8(k)
  {
    if k == 0 {
      SubsetSize(Level(tasks, root, 0), {root});
    } else {
      LevelBound(tasks, root, k - 1);
      var above := Level(tasks, root, k - 1);
      ChildrenOfAllBound(tasks, above);
      forall t | t in Level(tasks, root, k)
        ensures t in ChildrenOfAll(tasks, above)
      {
        var middle := ReachesLast(tasks, t, root, k - 1);
        assert middle in tasks;
      }
      SubsetSize(Level(tasks, root, k), ChildrenOfAll(tasks, above));
    }
  }

  ghost function UpTo(tasks: Tasks, root: Id, k: nat): set<Id> {
    if k == 0 then Level(tasks, root, 0) else UpTo(tasks, root, k - 1) + Level(tasks, root, k)
  }

  lemma {:induction false} UpToBound(tasks: Tasks, root: Id, k: nat)
    requires Bounded(tasks)
    ensures |UpTo(tasks, root, k)| <= Geometric(k)
  {
    LevelBound(tasks, root, k);
    if k > 0 {
      UpToBound(tasks, root, k - 1);
      var a, b := UpTo(tasks, root, k - 1), Level(tasks, root, k);
      assert |a + b| == |a| + |b| - |a * b|;
    }
  }

  lemma {:induction false} UpToHas(tasks: Tasks, root: Id, t: Id, j: nat, k: nat)
    requires t in tasks && Reaches(tasks, t, root, j) && j <= k
    ensures t in UpTo(tasks, root, k)
    decreases k
  {
    if j < k {
      UpToHas(tasks, root, t, j, k - 1);
    }
  }

  /** If only tasks without children are ever moved, the stored depth is the number of ancestors, and no
      subtree has more than (8^(D+1) - 1) / 7 tasks, D the smaller of the configured limit and 6. */
  lemma SubtreesAreBounded(steps: seq<Step>, maxDepth: nat, root: Id)
    requires Legal(map[], steps, maxDepth) && LeafMoves(map[], steps, maxDepth)
    ensures var tasks, d := Run(map[], steps, maxDepth), Min(maxDepth, MAX_DEPTH);
      && (forall id :: id in tasks ==> HasAncestors(tasks, id, tasks[id].depth))
      && 7 * |Subtree(tasks, root)| <= Power8(d + 1) - 1
  {
    var tasks, d := Run(map[], steps, maxDepth), Min(maxDepth, MAX_DEPTH);
    RunKeepsForest(map[], steps, maxDepth);
    RunKeepsDepths(map[], steps, maxDepth);
    forall t | t in Subtree(tasks, root)
      ensures t in UpTo(tasks, root, d)
    {
      var k: nat :| Reaches(tasks, t, root, k);
      ReachedAncestors(tasks, t, root, tasks[t].depth, k);
      UpToHas(tasks, root, t, k, d);
    }
    SubsetSize(Subtree(tasks, root), UpTo(tasks, root, d));
    UpToBound(tasks, root, d);
    GeometricClosed(d);
  }

  // ---------- chains of help requests ----------

  /** `helped` records which task each help request was made under, `first` each task's budget when it was
      created; both are history only. */
  datatype Record = Record(tasks: Tasks, helped: map<Id, Id>, first: map<Id, nat>)

  function Recorded(r: Record, step: Step, maxDepth: nat): Record {
    match Outcome(r.tasks, step, maxDepth)
    case Err(_) => r
    case Ok(after) =>
      var first := if step.id in r.tasks || step.id !in after then r.first else r.first[step.id := after[step.id].maxChildren];
      Record(after, if step.HelpStep? then r.helped[step.id := step.under] else r.helped, first)
  }

  /** No update raises a budget above what the task was created with. */
  ghost predicate Unraised(r: Record) {
    forall id :: id in r.tasks ==> id in r.first && r.tasks[id].maxChildren <= r.first[id]
  }

  ghost predicate LegalRecord(r: Record, steps: seq<Step>, maxDepth: nat)
    decreases |steps|
  {
    steps == [] ||
    (Fresh(r.tasks, steps[0]) && Unraised(Recorded(r, steps[0], maxDepth)) && LegalRecord(Recorded(r, steps[0], maxDepth), steps[1..], maxDepth))
  }

  function RunRecord(r: Record, steps: seq<Step>, maxDepth: nat): Record
    decreases |steps|
  {
    if steps == [] then r else RunRecord(Recorded(r, steps[0], maxDepth), steps[1..], maxDepth)
  }

  /** Each help request was created with a smaller budget than the task it was made under. */
  ghost predicate Shrinking(r: Record) {
    && Forest(r.tasks) && Bounded(r.tasks) && Unraised(r)
    && (forall id :: id in r.first ==> id in r.tasks)
    && (forall c :: c in r.helped ==> c in r.first && r.helped[c] in r.first && r.first[c] < r.first[r.helped[c]])
  }

  lemma StepShrinks(r: Record, step: Step, maxDepth: nat)
    requires Shrinking(r) && Fresh(r.tasks, step) && Unraised(Recorded(r, step, maxDepth))
    ensures Shrinking(Recorded(r, step, maxDepth))
  {
    if Outcome(r.tasks, step, maxDepth).Ok? {
      var task := StepPlaces(r.tasks, step, maxDepth);
      PlacingKeepsForest(r.tasks, step.id, task);
      PlacingKeepsBounded(r.tasks, step.id, task);
    }
  }

  lemma {:induction false} RunShrinks(r: Record, steps: seq<Step>, maxDepth: nat)
    requires Shrinking(r) && LegalRecord(r, steps, maxDepth)
    ensures Shrinking(RunRecord(r, steps, maxDepth))
    decreases |steps|
  {
    if steps != [] {
      StepShrinks(r, steps[0], maxDepth);
      RunShrinks(Recorded(r, steps[0], maxDepth), steps[1..], maxDepth);
    }
  }

  /** Each task of the chain after the first was a help request under the one before it. */
  ghost predicate HelpChain(r: Record, chain: seq<Id>) {
    chain != [] && forall i :: 0 < i < |chain| ==> chain[i] in r.helped && r.helped[chain[i]] == chain[i - 1]
  }

  lemma {:induction false} ChainShrinks(r: Record, chain: seq<Id>)
    requires Shrinking(r) && HelpChain(r, chain) && chain[0] in r.first
    ensures chain[|chain| - 1] in r.first && r.first[chain[|chain| - 1]] + |chain| - 1 <= r.first[chain[0]]
    decreases |chain|
  {
    if |chain| > 1 {
      ChainShrinks(r, chain[..|chain| - 1]);
    }
  }

  /** While budgets are not raised, a chain of help requests is no longer than the first task's child budget. */
  lemma HelpChainsAreShort(steps: seq<Step>, maxDepth: nat, chain: seq<Id>)
    requires LegalRecord(Record(map[], map[], map[]), steps, maxDepth)
    requires HelpChain(RunRecord(Record(map[], map[], map[]), steps, maxDepth), chain)
    requires chain[0] in RunRecord(Record(map[], map[], map[]), steps, maxDepth).first
    ensures |chain| - 1 <= RunRecord(Record(map[], map[], map[]), steps, maxDepth).first[chain[0]]
  {
    RunShrinks(Record(map[], map[], map[]), steps, maxDepth);
    ChainShrinks(RunRecord(Record(map[], map[], map[]), steps, maxDepth), chain);
  }
}
